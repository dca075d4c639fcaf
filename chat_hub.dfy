/** The SignalR chat hub: a registry of live connections with their identity
    names, named groups of connections, and the queue of events each connection
    has been sent. Each hub method is one sequential step over that state; the
    framework's `Groups.*` calls are set updates and `Clients.*.SendAsync` calls
    are appends to the outboxes of the chosen audience. */
module Hub {
  import opened Wrappers

  type ConnectionId = string

  /** The client-side handlers the hub invokes, with their arguments. */
  datatype Event =
    | ReceiveMessage(sender: string, message: string)
    | UserJoined(name: Option<string>, group: string)
    | UserLeft(name: Option<string>, group: string)
    | ReceiveGroupMessage(sender: string, group: string, message: string)
    | UserConnected(user: string)
    | UserDisconnected(user: string)

  const Anonymous := "Anonymous"

  /** `Context.User?.Identity?.Name ?? "Anonymous"` */
  function SenderName(identity: Option<string>): (r: string)
    ensures identity.Some? ==> r == identity.value
    ensures identity.None? ==> r == Anonymous
  {
    identity.GetOr(Anonymous)
  }

  /** The connections in group `g`; a group nobody joined has no members. */
  function Members(groups: map<string, set<ConnectionId>>, g: string): set<ConnectionId>
  {
    if g in groups then groups[g] else {}
  }

  /** The lifetime manager keeps a group only while it has members. */
  ghost predicate NoEmptyGroups(groups: map<string, set<ConnectionId>>)
  {
    forall g :: g in groups ==> groups[g] != {}
  }

  /** Every group member is a registered connection. */
  ghost predicate GroupsWithin(groups: map<string, set<ConnectionId>>, registered: set<ConnectionId>)
  {
    forall g :: g in groups ==> groups[g] <= registered
  }

  /** `Groups.AddToGroupAsync(c, g)`: membership is a set, so adding a member twice changes nothing. */
  function AddToGroup(groups: map<string, set<ConnectionId>>, g: string, c: ConnectionId): (r: map<string, set<ConnectionId>>)
    ensures Members(r, g) == Members(groups, g) + {c}
    ensures forall h :: h != g ==> Members(r, h) == Members(groups, h)
    ensures c in Members(groups, g) ==> r == groups
    ensures NoEmptyGroups(groups) ==> NoEmptyGroups(r)
  {
    if c in Members(groups, g) then groups else groups[g := Members(groups, g) + {c}]
  }

  /** `Groups.RemoveFromGroupAsync(c, g)`: a no-op when `c` is not in `g`; a group whose last member leaves is dropped. */
  function RemoveFromGroup(groups: map<string, set<ConnectionId>>, g: string, c: ConnectionId): (r: map<string, set<ConnectionId>>)
    ensures Members(r, g) == Members(groups, g) - {c}
    ensures forall h :: h != g ==> Members(r, h) == Members(groups, h)
    ensures c !in Members(groups, g) ==> r == groups
    ensures NoEmptyGroups(groups) ==> NoEmptyGroups(r)
  {
    if g !in groups || c !in groups[g] then groups
    else if groups[g] == {c} then groups - {g}
    else groups[g := groups[g] - {c}]
  }

  /** The framework's cleanup after a disconnect: `c` leaves every group it was in. */
  function RemoveFromAllGroups(groups: map<string, set<ConnectionId>>, c: ConnectionId): (r: map<string, set<ConnectionId>>)
    ensures forall h :: Members(r, h) == Members(groups, h) - {c}
    ensures NoEmptyGroups(r)
  {
    map h | h in groups && groups[h] - {c} != {} :: groups[h] - {c}
  }

  /** `SendAsync` to `audience`: each audience member's outbox gets `e` at its end. */
  function Deliver(outboxes: map<ConnectionId, seq<Event>>, audience: set<ConnectionId>, e: Event): map<ConnectionId, seq<Event>>
  {
    map c | c in outboxes :: if c in audience then outboxes[c] + [e] else outboxes[c]
  }

  /** One membership call made by a single connection. */
  datatype MembershipCall = Join(group: string) | Leave(group: string)

  /** The membership after connection `c` makes `calls` in order. */
  function ApplyCalls(groups: map<string, set<ConnectionId>>, c: ConnectionId, calls: seq<MembershipCall>): map<string, set<ConnectionId>>
    decreases |calls|
  {
    if calls == [] then groups
    else
      var next := match calls[0]
        case Join(g) => AddToGroup(groups, g, c)
        case Leave(g) => RemoveFromGroup(groups, g, c);
      ApplyCalls(next, c, calls[1..])
  }

  /** Whether the last call in `calls` that names `g` is a join; None when no call names `g`. */
  function LastCallOn(calls: seq<MembershipCall>, g: string): Option<bool>
    decreases |calls|
  {
    if calls == [] then None
    else
      var later := LastCallOn(calls[1..], g);
      if later.Some? then later
      else if calls[0].group == g then Some(calls[0].Join?)
      else None
  }

  /** Membership follows the calls in submission order: `c` ends up in `g` exactly when
      its last call on `g` was a join (or, with no call on `g`, when it was in `g` already);
      repeated joins and superfluous leaves change nothing, and no other connection's
      membership moves. */
  lemma {:induction false} MembershipFollowsLastCall(groups: map<string, set<ConnectionId>>, c: ConnectionId, calls: seq<MembershipCall>, g: string)
    ensures c in Members(ApplyCalls(groups, c, calls), g) <==>
              match LastCallOn(calls, g)
              case Some(joined) => joined
              case None => c in Members(groups, g)
    ensures forall d :: d != c ==> (d in Members(ApplyCalls(groups, c, calls), g) <==> d in Members(groups, g))
    decreases |calls|
  {
    if calls != [] {
      var next := match calls[0]
        case Join(h) => AddToGroup(groups, h, c)
        case Leave(h) => RemoveFromGroup(groups, h, c);
      assert ApplyCalls(groups, c, calls) == ApplyCalls(next, c, calls[1..]);
      MembershipFollowsLastCall(next, c, calls[1..], g);
    }
  }

  class ChatHub {
    /** Registered connections, each with `Context.User?.Identity?.Name` (None when the name is null). */
    var identities: map<ConnectionId, Option<string>>
    /** Group name to the connections currently in it. */
    var groups: map<string, set<ConnectionId>>
    /** The events sent to each registered connection, oldest first. */
    var outboxes: map<ConnectionId, seq<Event>>

    ghost predicate Valid()
      reads this
    {
      && outboxes.Keys == identities.Keys
      && GroupsWithin(groups, identities.Keys)
      && NoEmptyGroups(groups)
    }

    constructor ()
      ensures Valid()
      ensures identities == map[] && groups == map[] && outboxes == map[]
    {
      identities, groups, outboxes := map[], map[], map[];
    }

    /** `Clients.All.SendAsync("ReceiveMessage", sender, message)`, the sender included. */
    method SendMessage(caller: ConnectionId, message: string)
      requires Valid() && caller in identities
      modifies this
      ensures Valid()
      ensures identities == old(identities) && groups == old(groups)
      ensures outboxes.Keys == old(outboxes).Keys
      ensures forall c :: c in outboxes ==>
                outboxes[c] == old(outboxes)[c] + [ReceiveMessage(SenderName(identities[caller]), message)]
    {
      var userEmail := SenderName(identities[caller]);
      outboxes := Deliver(outboxes, identities.Keys, ReceiveMessage(userEmail, message));
    }

    /** The caller is added first, so every member, the joiner included, is told. */
    method JoinGroup(caller: ConnectionId, groupName: string)
      requires Valid() && caller in identities
      modifies this
      ensures Valid()
      ensures identities == old(identities)
      ensures groups == AddToGroup(old(groups), groupName, caller)
      ensures caller in Members(groups, groupName)
      ensures outboxes.Keys == old(outboxes).Keys
      ensures forall c :: c in outboxes ==>
                outboxes[c] == old(outboxes)[c] +
                  (if c in Members(groups, groupName) then [UserJoined(identities[caller], groupName)] else [])
    {
      groups := AddToGroup(groups, groupName, caller);
      outboxes := Deliver(outboxes, Members(groups, groupName), UserJoined(identities[caller], groupName));
    }

    /** The caller is removed first, so only the remaining members are told; the leaver gets nothing. */
    method LeaveGroup(caller: ConnectionId, groupName: string)
      requires Valid() && caller in identities
      modifies this
      ensures Valid()
      ensures identities == old(identities)
      ensures groups == RemoveFromGroup(old(groups), groupName, caller)
      ensures caller !in Members(groups, groupName)
      ensures caller !in Members(old(groups), groupName) ==> groups == old(groups)
      ensures outboxes.Keys == old(outboxes).Keys
      ensures outboxes[caller] == old(outboxes)[caller]
      ensures forall c :: c in outboxes ==>
                outboxes[c] == old(outboxes)[c] +
                  (if c in Members(groups, groupName) then [UserLeft(identities[caller], groupName)] else [])
    {
      groups := RemoveFromGroup(groups, groupName, caller);
      outboxes := Deliver(outboxes, Members(groups, groupName), UserLeft(identities[caller], groupName));
    }

    /** Only current members of `groupName` receive the message; an empty or unknown group delivers nothing. */
    method SendMessageToGroup(caller: ConnectionId, groupName: string, message: string)
      requires Valid() && caller in identities
      modifies this
      ensures Valid()
      ensures identities == old(identities) && groups == old(groups)
      ensures outboxes.Keys == old(outboxes).Keys
      ensures forall c :: c in outboxes ==>
                outboxes[c] == old(outboxes)[c] +
                  (if c in Members(groups, groupName)
                   then [ReceiveGroupMessage(SenderName(identities[caller]), groupName, message)]
                   else [])
      ensures Members(groups, groupName) == {} ==> outboxes == old(outboxes)
    {
      var userEmail := SenderName(identities[caller]);
      outboxes := Deliver(outboxes, Members(groups, groupName), ReceiveGroupMessage(userEmail, groupName, message));
    }

    /** The framework registers a new connection before this hook runs, so
        the newcomer is among those told `UserConnected`. */
    method OnConnectedAsync(caller: ConnectionId, identity: Option<string>)
      requires Valid() && caller !in identities
      modifies this
      ensures Valid()
      ensures identities == old(identities)[caller := identity]
      ensures groups == old(groups)
      ensures outboxes.Keys == identities.Keys
      ensures outboxes[caller] == [UserConnected(SenderName(identity))]
      ensures forall c :: c in old(outboxes) ==> outboxes[c] == old(outboxes)[c] + [UserConnected(SenderName(identity))]
    {
      identities := identities[caller := identity];
      outboxes := outboxes[caller := []];
      var userEmail := SenderName(identity);
      outboxes := Deliver(outboxes, identities.Keys, UserConnected(userEmail));
    }

    /** `UserDisconnected` goes to all connections; the framework's cleanup then
        takes the caller out of every group and out of the registry. */
    method OnDisconnectedAsync(caller: ConnectionId)
      requires Valid() && caller in identities
      modifies this
      ensures Valid()
      ensures identities == old(identities) - {caller}
      ensures groups == RemoveFromAllGroups(old(groups), caller)
      ensures forall h :: caller !in Members(groups, h)
      ensures outboxes.Keys == identities.Keys
      ensures forall c :: c in outboxes ==>
                outboxes[c] == old(outboxes)[c] + [UserDisconnected(SenderName(old(identities)[caller]))]
    {
      var userEmail := SenderName(identities[caller]);
      outboxes := Deliver(outboxes, identities.Keys, UserDisconnected(userEmail));
      identities := identities - {caller};
      groups := RemoveFromAllGroups(groups, caller);
      outboxes := outboxes - {caller};
    }
  }
}
