/**
 * The part of Cloud Firestore the repositories rely on, as an abstract
 * collection of documents: a document is a `Doc` under a string id; a
 * `java.util.Date` written into a document is stored, and read back, as a
 * Timestamp; `update` merges fields into an existing document and fails on a
 * missing one; `set` overwrites; `delete` removes. The server's ordering,
 * filtering and `limit`/`startAfter` cursors are not modelled: a query's
 * answer is a parameter.
 */
module Firestore {
  import opened Common

  /** Number of records per page in both repositories (`PAGE_SIZE`). */
  const PageSize := 10

  /** A document as a query returns it: its id and its data. */
  datatype Snapshot = Snapshot(id: string, data: Doc)

  /** How a write ended: success, or the failure listener with its message. */
  datatype Status = Success | Failure(message: string)

  /** A page of records with the flag and the cursor the repository delivers, or the error it reports. */
  datatype PageResult = Page(records: seq<Doc>, hasMore: bool, cursor: Option<Snapshot>) | PageError(message: string)

  /**
   * The list a view-model shows after a page arrives: a page that was
   * read with no cursor starts the list over, any other is appended.
   * A list nobody has set yet is `None`.
   */
  function ListAfterPage(current: Option<seq<Doc>>, cursor: Option<Snapshot>, newRecords: seq<Doc>): (r: seq<Doc>)
    // a first page replaces whatever was shown
    ensures cursor.None? ==> r == newRecords
    // a later page keeps every record shown, in order, and adds the new ones after them, in arrival order
    ensures cursor.Some? ==>
              |r| == |current.GetOr([])| + |newRecords|
              && r[..|current.GetOr([])|] == current.GetOr([])
              && r[|current.GetOr([])|..] == newRecords
  {
    (if cursor.None? then [] else current.GetOr([])) + newRecords
  }

  /** Pages that arrive one after another, the first with no cursor, add up to their concatenation. */
  lemma PagesConcatenate(current: Option<seq<Doc>>, first: seq<Doc>, cursor: Snapshot, second: seq<Doc>)
    ensures ListAfterPage(Some(ListAfterPage(current, None, first)), Some(cursor), second) == first + second
  {
  }

  /** The message of the failure Firestore reports for an `update` of a missing document. */
  const NotFound := "NOT_FOUND"

  /** A value as the server keeps it: a `Date` becomes a Timestamp of the same instant. */
  function StoredValue(v: Value): (r: Value)
    ensures !r.VDate?
    ensures DateOf(r) == DateOf(v)
    ensures v.VStr? || v.VNum? || v.VBool? || v.VNull? || v.VTimestamp? || v.VOther? ==> r == v
  {
    if v.VDate? then VTimestamp(v.millis) else v
  }

  /** A document as the server keeps it. */
  function Stored(d: Doc): (r: Doc)
    ensures r.Keys == d.Keys
    ensures forall k :: k in r ==> r[k] == StoredValue(d[k])
  {
    map k | k in d :: StoredValue(d[k])
  }

  /** Merging into a stored document is storing the merged document. */
  lemma StoredMerge(d: Doc, fields: Doc)
    ensures Stored(d) + Stored(fields) == Stored(d + fields)
  {
  }

  /** No field of the document holds a `Date`: every date is a Timestamp. */
  predicate NoDates(d: Doc)
  {
    forall k :: k in d ==> !d[k].VDate?
  }

  /** Storing a document changes no string, number or flag, and no date as the app reads it. */
  lemma StoredReadsTheSame(d: Doc, k: string)
    ensures NoDates(Stored(d))
    ensures StrField(Stored(d), k) == StrField(d, k)
    ensures DateField(Stored(d), k) == DateField(d, k)
    ensures k in d && !d[k].VDate? ==> Stored(d)[k] == d[k]
  {
    if k in d {
      assert Stored(d)[k] == StoredValue(d[k]);
    }
  }

  /** The record a repository builds from a snapshot: its data with the key "id" set to the document id. */
  function WithId(s: Snapshot): (r: Doc)
    ensures r.Keys == s.data.Keys + {"id"}
    ensures StrField(r, "id") == Some(s.id)
    ensures forall k :: k in s.data && k != "id" ==> r[k] == s.data[k]
  {
    s.data["id" := VStr(s.id)]
  }

  /** The records of a query's answer, in the answer's order. */
  function WithIds(snaps: seq<Snapshot>): (r: seq<Doc>)
    ensures |r| == |snaps|
    ensures forall i :: 0 <= i < |snaps| ==> r[i] == WithId(snaps[i])
  {
    if snaps == [] then [] else WithIds(snaps[..|snaps| - 1]) + [WithId(snaps[|snaps| - 1])]
  }

  lemma WithIdsAppend(snaps: seq<Snapshot>, s: Snapshot)
    ensures WithIds(snaps + [s]) == WithIds(snaps) + [WithId(s)]
  {
    assert (snaps + [s])[..|snaps|] == snaps;
  }

  /** The last snapshot of an answer, none for an empty one. */
  function LastOf(snaps: seq<Snapshot>): (r: Option<Snapshot>)
    ensures r.None? <==> snaps == []
    ensures r.Some? ==> r.value == snaps[|snaps| - 1] && r.value in snaps
  {
    if snaps == [] then None else Some(snaps[|snaps| - 1])
  }

  /**
   * The success branch of a paged fetch: a loop copies each document with
   * its id into the list and remembers the last one as the cursor; there is
   * more to load exactly when a full page came back.
   */
  method CollectPage(snaps: seq<Snapshot>) returns (r: PageResult)
    ensures r == Page(WithIds(snaps), |snaps| == PageSize, LastOf(snaps))
    ensures r.hasMore ==> r.cursor.Some?
  {
    var records: seq<Doc> := [];
    var lastDoc: Option<Snapshot> := None;
    var i := 0;
    while i < |snaps|
      invariant 0 <= i <= |snaps|
      invariant records == WithIds(snaps[..i])
      invariant lastDoc == LastOf(snaps[..i])
    {
      assert snaps[..i + 1][..i] == snaps[..i];
      records := records + [WithId(snaps[i])];
      lastDoc := Some(snaps[i]);
      i := i + 1;
    }
    assert snaps[..|snaps|] == snaps;
    r := Page(records, |snaps| == PageSize, lastDoc);
  }

  /** The success branch of an unpaged fetch: every document with its id, in order. */
  method CollectRecords(snaps: seq<Snapshot>) returns (records: seq<Doc>)
    ensures records == WithIds(snaps)
  {
    records := [];
    for i := 0 to |snaps|
      invariant records == WithIds(snaps[..i])
    {
      assert snaps[..i + 1][..i] == snaps[..i];
      records := records + [WithId(snaps[i])];
    }
    assert snaps[..|snaps|] == snaps;
  }

  /** The documents of one collection on the server. */
  class Collection {
    var docs: map<string, Doc>

    /** What the server holds is what it stores: no field holds a `Date`. */
    predicate Valid()
      reads this
    {
      forall id :: id in docs ==> NoDates(docs[id])
    }

    constructor (initial: map<string, Doc>)
      requires forall id :: id in initial ==> NoDates(initial[id])
      ensures docs == initial && Valid()
    {
      docs := initial;
    }

    /** `add(data)`: a new document under the id the server picks (`newId`), unless the write fails. */
    method Add(newId: string, data: Doc, failure: Option<string>) returns (s: Status)
      requires Valid()
      requires newId !in docs
      modifies this
      ensures Valid()
      ensures failure.Some? ==> s == Failure(failure.value) && docs == old(docs)
      ensures failure.None? ==> s == Success && docs == old(docs)[newId := Stored(data)]
    {
      if failure.Some? {
        return Failure(failure.value);
      }
      StoredIsValid(data);
      docs := docs[newId := Stored(data)];
      s := Success;
    }

    /** `document(id).set(data)`: the document becomes exactly `data`, created if missing. */
    method Set(id: string, data: Doc, failure: Option<string>) returns (s: Status)
      requires Valid()
      modifies this
      ensures Valid()
      ensures failure.Some? ==> s == Failure(failure.value) && docs == old(docs)
      ensures failure.None? ==> s == Success && docs == old(docs)[id := Stored(data)]
    {
      if failure.Some? {
        return Failure(failure.value);
      }
      StoredIsValid(data);
      docs := docs[id := Stored(data)];
      s := Success;
    }

    /** `document(id).update(fields)`: the fields are merged into an existing document; a missing one is NOT_FOUND. */
    method Update(id: string, fields: Doc, failure: Option<string>) returns (s: Status)
      requires Valid()
      modifies this
      ensures Valid()
      ensures failure.Some? ==> s == Failure(failure.value) && docs == old(docs)
      ensures failure.None? && id !in old(docs) ==> s == Failure(NotFound) && docs == old(docs)
      ensures failure.None? && id in old(docs) ==> s == Success && docs == old(docs)[id := old(docs)[id] + Stored(fields)]
    {
      if failure.Some? {
        return Failure(failure.value);
      }
      if id !in docs {
        return Failure(NotFound);
      }
      StoredIsValid(fields);
      docs := docs[id := docs[id] + Stored(fields)];
      s := Success;
    }

    /** `document(id).delete()`: the document is gone; deleting a missing one succeeds. */
    method Delete(id: string, failure: Option<string>) returns (s: Status)
      requires Valid()
      modifies this
      ensures Valid()
      ensures failure.Some? ==> s == Failure(failure.value) && docs == old(docs)
      ensures failure.None? ==> s == Success && docs == old(docs) - {id}
    {
      if failure.Some? {
        return Failure(failure.value);
      }
      docs := docs - {id};
      s := Success;
    }
  }

  lemma StoredIsValid(d: Doc)
    ensures NoDates(Stored(d))
  {
  }
}
