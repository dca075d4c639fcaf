/** The `User` collection of the document store, held in memory in insertion
    order. Reads are functions over the documents; `InsertOne`, `ReplaceOne` and
    `DeleteOne` change the collection in place. The store gives every document a
    non-empty `_id` (generated on insert when the document has none), keeps ids
    unique, and refuses a replacement that would change a document's id. */
module UserStore {
  import opened Wrappers

  /** A user document; an `id` of "" means the store has not assigned one yet. */
  datatype User = User(id: string, name: string, email: string, password: string)

  /** `new User { }`: every field at its default. */
  const BlankUser := User("", "", "", "")

  /** The filters the core passes to the store. */
  datatype Filter = ById(id: string) | ByEmail(email: string) | Everything

  predicate Matches(u: User, f: Filter)
  {
    match f
    case ById(id) => u.id == id
    case ByEmail(email) => u.email == email
    case Everything => true
  }

  /** The position of the first document matching `f`, if any. */
  function FirstMatch(docs: seq<User>, f: Filter): (r: Option<nat>)
    ensures r.Some? ==> r.value < |docs| && Matches(docs[r.value], f)
    ensures r.Some? ==> forall j :: 0 <= j < r.value ==> !Matches(docs[j], f)
    ensures r.None? <==> forall j :: 0 <= j < |docs| ==> !Matches(docs[j], f)
    decreases |docs|
  {
    if |docs| == 0 then None
    else if Matches(docs[0], f) then Some(0)
    else match FirstMatch(docs[1..], f)
      case None => None
      case Some(k) => Some(k + 1)
  }

  /** `Find(f).FirstOrDefault()`: the first matching document, or null. */
  function FindFirst(docs: seq<User>, f: Filter): (r: Option<User>)
    ensures r.None? <==> forall j :: 0 <= j < |docs| ==> !Matches(docs[j], f)
    ensures r.Some? ==> r.value in docs && Matches(r.value, f)
  {
    match FirstMatch(docs, f)
    case None => None
    case Some(i) => Some(docs[i])
  }

  /** `Find(f).ToList()`: every matching document, in store order. */
  function FindAll(docs: seq<User>, f: Filter): (r: seq<User>)
    ensures forall u :: u in r <==> u in docs && Matches(u, f)
    ensures f == Everything ==> r == docs
    decreases |docs|
  {
    if |docs| == 0 then []
    else (if Matches(docs[0], f) then [docs[0]] else []) + FindAll(docs[1..], f)
  }

  predicate IdFree(docs: seq<User>, id: string)
  {
    forall j :: 0 <= j < |docs| ==> docs[j].id != id
  }

  ghost predicate UniqueIds(docs: seq<User>)
  {
    forall i, j :: 0 <= i < j < |docs| ==> docs[i].id != docs[j].id
  }

  ghost predicate UniqueEmails(docs: seq<User>)
  {
    forall i, j :: 0 <= i < j < |docs| ==> docs[i].email != docs[j].email
  }

  /** The document ids the store guarantees: assigned and unique. */
  ghost predicate WellKeyed(docs: seq<User>)
  {
    UniqueIds(docs) && forall j :: 0 <= j < |docs| ==> docs[j].id != ""
  }

  /** With unique ids, the first document with an id is the only one. */
  lemma FirstMatchByIdIsOnly(docs: seq<User>, id: string)
    requires UniqueIds(docs)
    ensures FirstMatch(docs, ById(id)).Some? ==>
              forall j :: 0 <= j < |docs| && docs[j].id == id ==> j == FirstMatch(docs, ById(id)).value
  {
  }

  /** The store's reply to a write: acknowledged with the matched/deleted count, or a write error. */
  datatype WriteResult = Acknowledged(count: nat) | WriteError

  class Collection {
    var docs: seq<User>

    ghost predicate Valid()
      reads this
    {
      WellKeyed(docs)
    }

    constructor (initial: seq<User>)
      requires WellKeyed(initial)
      ensures Valid() && docs == initial
    {
      docs := initial;
    }

    /** `InsertOne(doc)`: a document without an id gets `generatedId`; an id already
        present is a duplicate-key error and leaves the collection as it was. */
    method InsertOne(doc: User, generatedId: string) returns (result: WriteResult, stored: User)
      requires Valid()
      requires generatedId != "" && IdFree(docs, generatedId)
      modifies this
      ensures Valid()
      ensures stored == if doc.id == "" then doc.(id := generatedId) else doc
      ensures result.Acknowledged? <==> IdFree(old(docs), stored.id)
      ensures result.Acknowledged? ==> result.count == 1 && docs == old(docs) + [stored]
      ensures result.WriteError? ==> docs == old(docs)
    {
      stored := if doc.id == "" then doc.(id := generatedId) else doc;
      if IdFree(docs, stored.id) {
        docs := docs + [stored];
        result := Acknowledged(1);
      } else {
        result := WriteError;
      }
    }

    /** `ReplaceOne(f, replacement)`: the first match is replaced; the replacement's id
        is written as the document's `_id`, which may not change, so a replacement whose
        id differs from the match's (an empty one included) is a write error; no match
        replaces nothing. */
    method ReplaceOne(f: Filter, replacement: User) returns (result: WriteResult)
      requires Valid()
      modifies this
      ensures Valid()
      ensures FirstMatch(old(docs), f).None? ==> result == Acknowledged(0) && docs == old(docs)
      ensures FirstMatch(old(docs), f).Some? ==>
                var i := FirstMatch(old(docs), f).value;
                var kept := old(docs)[i].id;
                if replacement.id == kept
                then result == Acknowledged(1) && docs == old(docs)[i := replacement]
                else result == WriteError && docs == old(docs)
    {
      var found := FirstMatch(docs, f);
      if found.None? {
        result := Acknowledged(0);
      } else {
        var i := found.value;
        var kept := docs[i].id;
        if replacement.id == kept {
          docs := docs[i := replacement];
          result := Acknowledged(1);
        } else {
          result := WriteError;
        }
      }
    }

    /** `DeleteOne(f)`: the first match is removed and the rest keep their order. */
    method DeleteOne(f: Filter) returns (result: WriteResult)
      requires Valid()
      modifies this
      ensures Valid()
      ensures FirstMatch(old(docs), f).None? ==> result == Acknowledged(0) && docs == old(docs)
      ensures FirstMatch(old(docs), f).Some? ==>
                var i := FirstMatch(old(docs), f).value;
                result == Acknowledged(1) && docs == old(docs)[..i] + old(docs)[i + 1..]
    {
      var found := FirstMatch(docs, f);
      if found.None? {
        result := Acknowledged(0);
      } else {
        var i := found.value;
        docs := docs[..i] + docs[i + 1..];
        result := Acknowledged(1);
      }
    }
  }
}
