/** The two ordered queries of the database: records newest first, attachments oldest first. */
module Listing {
  import opened Schema

  /** A row with its sort key: rank first, ties broken by `tie`. */
  datatype Entry<+T> = Entry(id: Id, rank: int, tie: int, value: T)

  predicate Before<T>(x: Entry<T>, y: Entry<T>) {
    x.rank < y.rank || (x.rank == y.rank && x.tie < y.tie)
  }

  predicate Ordered<T>(s: seq<Entry<T>>) {
    forall i, j :: 0 <= i < j < |s| ==> Before(s[i], s[j])
  }

  /** ORDER BY updated_at DESC, id DESC. */
  function RecordEntry(id: Id, r: Record): Entry<Record> {
    Entry(id, -r.updatedAt, -(id as int), r)
  }

  /** ORDER BY created_at ASC, id ASC. */
  function AttachmentEntry(id: Id, a: Attachment): Entry<Attachment> {
    Entry(id, a.createdAt, id, a)
  }

  // ----- Sorting -----

  function Insert<T>(e: Entry<T>, s: seq<Entry<T>>): seq<Entry<T>> {
    if s == [] then [e]
    else if Before(s[0], e) then [s[0]] + Insert(e, s[1..])
    else [e] + s
  }

  lemma {:induction false} InsertMembers<T(!new)>(e: Entry<T>, s: seq<Entry<T>>)
    ensures forall x :: x in Insert(e, s) <==> x == e || x in s
    decreases |s|
  {
    if s != [] {
      assert s == [s[0]] + s[1..];
      if Before(s[0], e) {
        InsertMembers(e, s[1..]);
      }
    }
  }

  lemma {:induction false} InsertOrdered<T(!new)>(e: Entry<T>, s: seq<Entry<T>>)
    requires Ordered(s) && forall x :: x in s ==> x.tie != e.tie
    ensures Ordered(Insert(e, s))
    decreases |s|
  {
    if s != [] {
      assert s[0] in s;
      if Before(s[0], e) {
        InsertOrdered(e, s[1..]);
        InsertMembers(e, s[1..]);
        var r := Insert(e, s[1..]);
        forall k | 0 <= k < |r| ensures Before(s[0], r[k]) {
          assert r[k] in r;
          if r[k] != e {
            assert r[k] in s[1..];
            var m :| 0 <= m < |s[1..]| && s[1..][m] == r[k];
            assert s[m + 1] == r[k];
          }
        }
      } else {
        forall k | 0 <= k < |s| ensures Before(e, s[k]) {
          if k > 0 {
            assert Before(s[0], s[k]);
          }
        }
      }
    }
  }

  predicate IsLeast(ids: set<Id>, x: Id) {
    x in ids && forall y :: y in ids ==> x <= y
  }

  lemma {:induction false} LeastExists(ids: set<Id>)
    requires ids != {}
    ensures exists x :: IsLeast(ids, x)
    decreases |ids|
  {
    var x :| x in ids;
    var rest := ids - {x};
    if rest == {} {
      assert forall y :: y in ids ==> y == x || y in rest;
      assert IsLeast(ids, x);
    } else {
      LeastExists(rest);
      var z :| IsLeast(rest, z);
      assert forall y :: y in ids ==> y == x || y in rest;
      assert IsLeast(ids, if x <= z then x else z);
    }
  }

  function Least(ids: set<Id>): (x: Id)
    requires ids != {}
    ensures IsLeast(ids, x)
  {
    LeastExists(ids);
    var x :| IsLeast(ids, x);
    x
  }

  /** The entries of a table, smallest id first. */
  function Enumerate<T>(m: map<Id, T>, entry: (Id, T) -> Entry<T>): seq<Entry<T>>
    decreases |m|
  {
    if m == map[] then []
    else
      var id := Least(m.Keys);
      [entry(id, m[id])] + Enumerate(m - {id}, entry)
  }

  function Sort<T>(s: seq<Entry<T>>): seq<Entry<T>> {
    if s == [] then [] else Insert(s[0], Sort(s[1..]))
  }

  function InOrder<T>(m: map<Id, T>, entry: (Id, T) -> Entry<T>): seq<Entry<T>> {
    Sort(Enumerate(m, entry))
  }

  // ----- What a listing is, independently of how it is computed -----

  /** In order, each entry of the table exactly once and nothing else. */
  ghost predicate IsListing<T(!new)>(s: seq<Entry<T>>, m: map<Id, T>, entry: (Id, T) -> Entry<T>) {
    && Ordered(s)
    && (forall e :: e in s <==> e.id in m && e == entry(e.id, m[e.id]))
  }

  /** The entry keeps the id, and ties tell ids apart. */
  ghost predicate KeepsIds<T(!new)>(entry: (Id, T) -> Entry<T>) {
    && (forall id, v :: entry(id, v).id == id)
    && (forall a, v, b, w :: entry(a, v).tie == entry(b, w).tie ==> a == b)
  }

  lemma {:induction false} EnumerateMembers<T(!new)>(m: map<Id, T>, entry: (Id, T) -> Entry<T>)
    requires KeepsIds(entry)
    ensures forall e :: e in Enumerate(m, entry) <==> e.id in m && e == entry(e.id, m[e.id])
    decreases |m|
  {
    if m != map[] {
      var id := Least(m.Keys);
      EnumerateMembers(m - {id}, entry);
    }
  }

  predicate TiesDiffer<T>(s: seq<Entry<T>>) {
    forall i, j :: 0 <= i < j < |s| ==> s[i].tie != s[j].tie
  }

  lemma {:induction false} EnumerateTies<T(!new)>(m: map<Id, T>, entry: (Id, T) -> Entry<T>)
    requires KeepsIds(entry)
    ensures TiesDiffer(Enumerate(m, entry))
    decreases |m|
  {
    if m != map[] {
      var id := Least(m.Keys);
      var rest := Enumerate(m - {id}, entry);
      EnumerateTies(m - {id}, entry);
      EnumerateMembers(m - {id}, entry);
      forall j | 0 <= j < |rest| ensures rest[j].tie != entry(id, m[id]).tie {
        assert rest[j] in rest;
      }
    }
  }

  lemma {:induction false} SortListing<T(!new)>(s: seq<Entry<T>>)
    requires TiesDiffer(s)
    ensures Ordered(Sort(s)) && forall e :: e in Sort(s) <==> e in s
    decreases |s|
  {
    if s != [] {
      SortListing(s[1..]);
      InsertMembers(s[0], Sort(s[1..]));
      forall x | x in Sort(s[1..]) ensures x.tie != s[0].tie {
        assert x in s[1..];
        var k :| 0 <= k < |s[1..]| && s[1..][k] == x;
        assert s[k + 1] == x;
      }
      InsertOrdered(s[0], Sort(s[1..]));
      assert s == [s[0]] + s[1..];
    }
  }

  lemma {:induction false} InOrderIsListing<T(!new)>(m: map<Id, T>, entry: (Id, T) -> Entry<T>)
    requires KeepsIds(entry)
    ensures IsListing(InOrder(m, entry), m, entry)
  {
    EnumerateMembers(m, entry);
    EnumerateTies(m, entry);
    SortListing(Enumerate(m, entry));
  }

  lemma {:induction false} SomeMember<T(!new)>(t: seq<Entry<T>>)
    ensures t != [] ==> exists e :: e in t
  {
    if t != [] {
      assert t[0] in t;
    }
  }

  /** There is only one way to list a set of entries in order. */
  lemma {:induction false} OrderedUnique<T(!new)>(s: seq<Entry<T>>, t: seq<Entry<T>>)
    requires Ordered(s) && Ordered(t) && forall e :: e in s <==> e in t
    ensures s == t
    decreases |s|
  {
    SomeMember(t);
    if s != [] {
      assert s[0] in s;
      var k :| 0 <= k < |t| && t[k] == s[0];
      assert t[0] in t;
      var l :| 0 <= l < |s| && s[l] == t[0];
      assert k == 0;
      forall e ensures e in s[1..] <==> e in t[1..] {
        MembersOfTail(s, e);
        MembersOfTail(t, e);
      }
      OrderedUnique(s[1..], t[1..]);
      assert s == [s[0]] + s[1..] && t == [t[0]] + t[1..];
    }
  }

  lemma {:induction false} MembersOfTail<T(!new)>(s: seq<Entry<T>>, e: Entry<T>)
    requires Ordered(s) && s != []
    ensures e in s[1..] <==> e in s && e != s[0]
  {
    assert s == [s[0]] + s[1..];
    if e in s[1..] {
      var k :| 0 <= k < |s[1..]| && s[1..][k] == e;
      assert Before(s[0], s[k + 1]);
    }
  }

  lemma {:induction false} EntriesKeepIds()
    ensures KeepsIds(RecordEntry) && KeepsIds(AttachmentEntry)
  {
  }

  // ----- The queries -----

  function AllRecords(t: Tables): seq<Entry<Record>> {
    InOrder(t.records, RecordEntry)
  }

  function Min(a: int, b: int): int {
    if a < b then a else b
  }

  function Max(a: int, b: int): int {
    if a < b then b else a
  }

  /** LIMIT and OFFSET. */
  function Window<T>(s: seq<T>, offset: nat, limit: nat): seq<T> {
    s[Min(offset, |s|)..Min(offset + limit, |s|)]
  }

  /** How many rows come before a 1-based page. */
  function Offset(page: int, size: nat): nat {
    (Max(page, 1) - 1) * size
  }

  /** `list_records`: the rows of a 1-based page, and the number of records. */
  function ListRecords(t: Tables, page: int, size: nat): (seq<Entry<Record>>, nat) {
    (Window(AllRecords(t), Offset(page, size), size), |t.records|)
  }

  /** `list_attachments` of one record. */
  function ListAttachments(t: Tables, record: Id): seq<Entry<Attachment>> {
    InOrder(map a | a in t.attachments && t.attachments[a].recordId == record :: t.attachments[a], AttachmentEntry)
  }

  /** `attachments_for_records`, for many records at once. */
  function AttachmentsFor(t: Tables, records: set<Id>): seq<Entry<Attachment>> {
    InOrder(map a | a in t.attachments && t.attachments[a].recordId in records :: t.attachments[a], AttachmentEntry)
  }

  /** Those of one record, in the order given. */
  function OfRecord(s: seq<Entry<Attachment>>, record: Id): seq<Entry<Attachment>> {
    if s == [] then []
    else
      var front := OfRecord(s[..|s| - 1], record);
      if s[|s| - 1].value.recordId == record then front + [s[|s| - 1]] else front
  }

  lemma {:induction false} OfRecordOrdered(s: seq<Entry<Attachment>>, record: Id)
    requires Ordered(s)
    ensures Ordered(OfRecord(s, record))
    ensures forall e :: e in OfRecord(s, record) <==> e in s && e.value.recordId == record
    decreases |s|
  {
    if s != [] {
      var front, last := s[..|s| - 1], s[|s| - 1];
      OfRecordOrdered(front, record);
      assert s == front + [last];
      var r := OfRecord(front, record);
      forall k | 0 <= k < |r| ensures Before(r[k], last) {
        assert r[k] in r;
        var m :| 0 <= m < |front| && front[m] == r[k];
        assert Before(s[m], s[|s| - 1]);
      }
    }
  }

  /** Picking one record's rows out of the batched query gives exactly that record's
      own query, in the same order. */
  lemma {:induction false} BatchRefinesPerRecord(t: Tables, records: set<Id>, record: Id)
    requires record in records
    ensures OfRecord(AttachmentsFor(t, records), record) == ListAttachments(t, record)
  {
    EntriesKeepIds();
    InOrderIsListing(map a | a in t.attachments && t.attachments[a].recordId in records :: t.attachments[a],
                     AttachmentEntry);
    InOrderIsListing(map a | a in t.attachments && t.attachments[a].recordId == record :: t.attachments[a],
                     AttachmentEntry);
    OfRecordOrdered(AttachmentsFor(t, records), record);
    OrderedUnique(OfRecord(AttachmentsFor(t, records), record), ListAttachments(t, record));
  }

  /** The listing has each record once, newest first, and as many rows as there are records. */
  lemma {:induction false} AllRecordsListing(t: Tables)
    ensures IsListing(AllRecords(t), t.records, RecordEntry)
    ensures |AllRecords(t)| == |t.records|
  {
    EntriesKeepIds();
    InOrderIsListing(t.records, RecordEntry);
    OneEach(AllRecords(t), t.records);
  }

  // ----- The order in the rows' own fields -----

  /** The records of the table, each once: latest update first, then greatest id first. */
  ghost predicate NewestFirst(s: seq<Entry<Record>>, m: map<Id, Record>) {
    && (forall i :: 0 <= i < |s| ==> s[i].id in m && s[i].value == m[s[i].id])
    && (forall id :: id in m ==> exists i :: 0 <= i < |s| && s[i].id == id)
    && (forall i, j :: 0 <= i < j < |s| ==>
          s[i].value.updatedAt > s[j].value.updatedAt
          || (s[i].value.updatedAt == s[j].value.updatedAt && s[i].id > s[j].id))
  }

  lemma {:induction false} RecordsNewestFirst(t: Tables)
    ensures NewestFirst(AllRecords(t), t.records)
  {
    AllRecordsListing(t);
    var s := AllRecords(t);
    forall i | 0 <= i < |s| ensures s[i].id in t.records && s[i] == RecordEntry(s[i].id, t.records[s[i].id]) {
      assert s[i] in s;
    }
    forall id | id in t.records ensures exists i :: 0 <= i < |s| && s[i].id == id {
      assert RecordEntry(id, t.records[id]) in s;
    }
    forall i, j | 0 <= i < j < |s| ensures Before(s[i], s[j]) {
    }
  }

  /** The attachments of the table, each once: earliest creation first, then smallest id first. */
  ghost predicate OldestFirst(s: seq<Entry<Attachment>>, m: map<Id, Attachment>) {
    && (forall i :: 0 <= i < |s| ==> s[i].id in m && s[i].value == m[s[i].id])
    && (forall id :: id in m ==> exists i :: 0 <= i < |s| && s[i].id == id)
    && (forall i, j :: 0 <= i < j < |s| ==>
          s[i].value.createdAt < s[j].value.createdAt
          || (s[i].value.createdAt == s[j].value.createdAt && s[i].id < s[j].id))
  }

  lemma {:induction false} InOrderOldestFirst(m: map<Id, Attachment>)
    ensures OldestFirst(InOrder(m, AttachmentEntry), m)
  {
    EntriesKeepIds();
    InOrderIsListing(m, AttachmentEntry);
    var s := InOrder(m, AttachmentEntry);
    forall i | 0 <= i < |s| ensures s[i].id in m && s[i] == AttachmentEntry(s[i].id, m[s[i].id]) {
      assert s[i] in s;
    }
    forall id | id in m ensures exists i :: 0 <= i < |s| && s[i].id == id {
      assert AttachmentEntry(id, m[id]) in s;
    }
    forall i, j | 0 <= i < j < |s| ensures Before(s[i], s[j]) {
    }
  }

  /** Both attachment queries give exactly the rows of the records asked for, oldest first. */
  lemma {:induction false} AttachmentsOldestFirst(t: Tables, record: Id, records: set<Id>)
    ensures OldestFirst(ListAttachments(t, record),
                        map a | a in t.attachments && t.attachments[a].recordId == record :: t.attachments[a])
    ensures OldestFirst(AttachmentsFor(t, records),
                        map a | a in t.attachments && t.attachments[a].recordId in records :: t.attachments[a])
  {
    InOrderOldestFirst(map a | a in t.attachments && t.attachments[a].recordId == record :: t.attachments[a]);
    InOrderOldestFirst(map a | a in t.attachments && t.attachments[a].recordId in records :: t.attachments[a]);
  }

  /** A record's query has as many rows as the record has attachments. */
  lemma {:induction false} AsManyAsChildren(t: Tables, record: Id)
    ensures |ListAttachments(t, record)| == |ChildrenOf(t, record)|
  {
    AttachmentsOldestFirst(t, record, {});
    var s := ListAttachments(t, record);
    forall i, j | 0 <= i < j < |s| ensures s[i].id != s[j].id {
    }
    IdsOfDistinct(s);
    assert (set e | e in s :: e.id) == ChildrenOf(t, record);
  }

  lemma {:induction false} IdsOfDistinct(s: seq<Entry<Attachment>>)
    requires forall i, j :: 0 <= i < j < |s| ==> s[i].id != s[j].id
    ensures |set e | e in s :: e.id| == |s|
    decreases |s|
  {
    if s != [] {
      var front, last := s[..|s| - 1], s[|s| - 1];
      IdsOfDistinct(front);
      assert s == front + [last];
      assert (set e | e in s :: e.id) == (set e | e in front :: e.id) + {last.id};
    }
  }

  lemma {:induction false} OneEach(s: seq<Entry<Record>>, m: map<Id, Record>)
    requires IsListing(s, m, RecordEntry)
    ensures |s| == |m|
    decreases |s|
  {
    forall id | id in m ensures RecordEntry(id, m[id]) in s {
    }
    if s != [] {
      assert s[0] in s;
      var rest := m - {s[0].id};
      forall e ensures e in s[1..] <==> e.id in rest && e == RecordEntry(e.id, rest[e.id]) {
        MembersOfTail(s, e);
      }
      OneEach(s[1..], rest);
      assert rest.Keys == m.Keys - {s[0].id};
      assert |m| == |m.Keys| && |rest| == |rest.Keys|;
    }
  }
}
