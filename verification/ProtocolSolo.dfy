/** One request running alone in the step system: the runs in which the handlers' statements
    are steps, and that they have the effects the handlers' contracts state. */
module ProtocolSolo {
  import opened Wrappers
  import opened Schema
  import opened Uploads
  import opened Effects
  import opened Protocol
  import opened ProtocolInvariant
  import Parser

  // ----- Putting runs together -----

  ghost predicate Reaches(s: State, steps: seq<Step>, t: State) {
    Run(s, steps) && After(s, steps) == t
  }

  lemma {:induction false} Single(s: State, st: Step)
    requires Enabled(s, st)
    ensures Reaches(s, [st], Next(s, st))
  {
    assert Run(Next(s, st), [st][1..]);
  }

  lemma {:induction false} Join(s: State, a: seq<Step>, t: State, b: seq<Step>, u: State)
    requires Reaches(s, a, t) && Reaches(t, b, u)
    ensures Reaches(s, a + b, u)
    decreases |a|
  {
    if a == [] {
      assert a + b == b;
    } else {
      Join(Next(s, a[0]), a[1..], t, b, u);
      assert (a + b)[0] == a[0] && (a + b)[1..] == a[1..] + b;
    }
  }

  /** One step more. */
  lemma {:induction false} Then(s: State, a: seq<Step>, t: State, st: Step)
    requires Reaches(s, a, t) && Enabled(t, st)
    ensures Reaches(s, a + [st], Next(t, st))
  {
    Single(t, st);
    Join(s, a, t, [st], Next(t, st));
  }

  // ----- One upload -----

  function ChunkSteps(h: Hid, chunks: seq<Bytes>): seq<Step> {
    if chunks == [] then []
    else ChunkSteps(h, chunks[..|chunks| - 1]) + [WriteChunk(h, chunks[|chunks| - 1], true, 0)]
  }

  /** The open temp file has taken these bytes. */
  function Written(s: State, h: Hid, bytes: Bytes): State
    requires h in s.handlers && s.handlers[h].Parsing? && s.handlers[h].open.Some?
    requires s.handlers[h].open.value.id in s.tmp
  {
    var p := s.handlers[h];
    var o := p.open.value;
    s.(tmp := s.tmp[o.id := s.tmp[o.id] + bytes], sent := s.sent[o.id := SentSoFar(s, o.id) + bytes],
       handlers := s.handlers[h := Handler.Parsing(p.goal, p.uploads, Some(Open(o.id, o.size + |bytes|)))])
  }

  lemma {:induction false} NextChunk(s: State, h: Hid, bytes: Bytes, last: Bytes)
    requires Runs(s, h) && s.handlers[h].Parsing? && s.handlers[h].open.Some?
    requires s.handlers[h].open.value.id in s.tmp && s.handlers[h].open.value.id in s.sent
    ensures NextWriteChunk(Written(s, h, bytes), h, last, true, 0) == Written(s, h, bytes + last)
  {
    var o := s.handlers[h].open.value;
    assert (s.tmp[o.id] + bytes) + last == s.tmp[o.id] + (bytes + last);
    assert (s.sent[o.id] + bytes) + last == s.sent[o.id] + (bytes + last);
  }

  lemma {:induction false} ChunksRun(s: State, h: Hid, chunks: seq<Bytes>)
    requires Runs(s, h) && s.handlers[h].Parsing? && s.handlers[h].open.Some?
    requires s.handlers[h].open.value.id in s.tmp && s.handlers[h].open.value.id in s.sent
    ensures Reaches(s, ChunkSteps(h, chunks), Written(s, h, Parser.Concat(chunks)))
    decreases |chunks|
  {
    var o := s.handlers[h].open.value;
    if chunks == [] {
      assert s.tmp[o.id] + [] == s.tmp[o.id] && s.sent[o.id] + [] == s.sent[o.id];
      assert Written(s, h, []) == s;
    } else {
      var front, last := chunks[..|chunks| - 1], chunks[|chunks| - 1];
      var bytes := Parser.Concat(front);
      ChunksRun(s, h, front);
      Then(s, ChunkSteps(h, front), Written(s, h, bytes), WriteChunk(h, last, true, 0));
      NextChunk(s, h, bytes, last);
    }
  }

  /** A file to send, under the id it will get. */
  datatype Item = Item(id: Id, filename: string, mime: string, chunks: seq<Bytes>)

  function UploadOf(i: Item): Upload {
    Upload(i.id, i.filename, i.mime, |Parser.Concat(i.chunks)|)
  }

  /** The file is in place and on the request's list. */
  function Uploaded(s: State, h: Hid, i: Item): State
    requires h in s.handlers && s.handlers[h].Parsing?
  {
    var p := s.handlers[h];
    var bytes := Parser.Concat(i.chunks);
    s.(minted := s.minted + {i.id}, sent := s.sent[i.id := bytes], files := s.files[i.id := bytes],
       holder := s.holder[i.id := Held(h)],
       handlers := s.handlers[h := Handler.Parsing(p.goal, p.uploads + [UploadOf(i)], None)])
  }

  function UploadSteps(h: Hid, i: Item): seq<Step> {
    [OpenUpload(h, i.id, true)] + ChunkSteps(h, i.chunks) + [Finalize(h, i.filename, i.mime, true)]
  }

  lemma {:induction false} OpenedRun(s: State, h: Hid, i: Item)
    requires Runs(s, h) && s.handlers[h].Parsing? && s.handlers[h].open.None? && i.id !in s.minted
    ensures var s1 := NextOpenUpload(s, h, i.id, true);
            Reaches(s, [OpenUpload(h, i.id, true)] + ChunkSteps(h, i.chunks), Written(s1, h, Parser.Concat(i.chunks)))
  {
    var s1 := NextOpenUpload(s, h, i.id, true);
    Single(s, OpenUpload(h, i.id, true));
    ChunksRun(s1, h, i.chunks);
    Join(s, [OpenUpload(h, i.id, true)], s1, ChunkSteps(h, i.chunks), Written(s1, h, Parser.Concat(i.chunks)));
  }

  lemma {:induction false} OpenedAndWritten(s: State, h: Hid, id: Id, bytes: Bytes)
    requires Runs(s, h) && s.handlers[h].Parsing? && s.handlers[h].open.None? && id !in s.minted
    ensures var p := s.handlers[h];
            Written(NextOpenUpload(s, h, id, true), h, bytes)
            == s.(minted := s.minted + {id}, tmp := s.tmp[id := bytes], sent := s.sent[id := bytes],
                  holder := s.holder[id := Temp(h)],
                  handlers := s.handlers[h := Handler.Parsing(p.goal, p.uploads, Some(Open(id, |bytes|)))])
  {
    assert [] + bytes == bytes;
  }

  lemma {:induction false} Renamed(s: State, h: Hid, i: Item)
    requires Runs(s, h) && s.handlers[h].Parsing? && s.handlers[h].open.None? && i.id !in s.minted + s.tmp.Keys
    ensures var t := Written(NextOpenUpload(s, h, i.id, true), h, Parser.Concat(i.chunks));
            Enabled(t, Finalize(h, i.filename, i.mime, true))
            && NextFinalize(t, h, i.filename, i.mime, true) == Uploaded(s, h, i)
  {
    OpenedAndWritten(s, h, i.id, Parser.Concat(i.chunks));
    assert s.tmp[i.id := Parser.Concat(i.chunks)] - {i.id} == s.tmp;
  }

  /** An upload that goes through: the file holds the chunks in order and the temp store is as before. */
  lemma {:induction false} UploadRun(s: State, h: Hid, i: Item)
    requires Runs(s, h) && s.handlers[h].Parsing? && s.handlers[h].open.None? && i.id !in s.minted + s.tmp.Keys
    ensures Reaches(s, UploadSteps(h, i), Uploaded(s, h, i))
  {
    var bytes := Parser.Concat(i.chunks);
    var t := Written(NextOpenUpload(s, h, i.id, true), h, bytes);
    OpenedRun(s, h, i);
    Then(s, [OpenUpload(h, i.id, true)] + ChunkSteps(h, i.chunks), t, Finalize(h, i.filename, i.mime, true));
    Renamed(s, h, i);
  }

  lemma {:induction false} RejectRun(s: State, h: Hid) returns (t: State)
    requires Runs(s, h) && s.handlers[h].Parsing? && s.handlers[h].open.Some?
    ensures Reaches(s, [Reject(h)] + [AbortTemp(h, true)], t)
    ensures t.tmp == s.tmp - {s.handlers[h].open.value.id} && t.files == s.files && t.tables == s.tables
    ensures t.handlers == s.handlers[h := Cleaning(s.handlers[h].uploads)]
  {
    Single(s, Reject(h));
    Then(s, [Reject(h)], NextReject(s, h), AbortTemp(h, true));
    t := NextAbortTemp(NextReject(s, h), h, true);
  }

  /** An upload that is refused after some chunks and whose temp file is removed: both stores as before. */
  lemma {:induction false} RefusedUploadRun(s: State, h: Hid, i: Item) returns (t: State)
    requires Runs(s, h) && s.handlers[h].Parsing? && s.handlers[h].open.None? && i.id !in s.minted + s.tmp.Keys
    ensures Reaches(s, [OpenUpload(h, i.id, true)] + ChunkSteps(h, i.chunks) + ([Reject(h)] + [AbortTemp(h, true)]), t)
    ensures t.tmp == s.tmp && t.files == s.files && t.tables == s.tables
    ensures t.handlers == s.handlers[h := Cleaning(s.handlers[h].uploads)]
  {
    var t1 := Written(NextOpenUpload(s, h, i.id, true), h, Parser.Concat(i.chunks));
    OpenedRun(s, h, i);
    OpenedAndWritten(s, h, i.id, Parser.Concat(i.chunks));
    t := RejectRun(t1, h);
    Join(s, [OpenUpload(h, i.id, true)] + ChunkSteps(h, i.chunks), t1, [Reject(h)] + [AbortTemp(h, true)], t);
    assert s.tmp[i.id := Parser.Concat(i.chunks)] - {i.id} == s.tmp;
  }

  // ----- All uploads of a form -----

  function UploadsOf(items: seq<Item>): seq<Upload> {
    if items == [] then [] else UploadsOf(items[..|items| - 1]) + [UploadOf(items[|items| - 1])]
  }

  function ItemIds(items: seq<Item>): set<Id> {
    set i | i in items :: i.id
  }

  function ItemSteps(h: Hid, items: seq<Item>): seq<Step> {
    if items == [] then [] else ItemSteps(h, items[..|items| - 1]) + UploadSteps(h, items[|items| - 1])
  }

  predicate NewItems(s: State, items: seq<Item>) {
    && (forall i :: 0 <= i < |items| ==> items[i].id !in s.minted + s.tmp.Keys)
    && (forall i, j :: 0 <= i < j < |items| ==> items[i].id != items[j].id)
  }

  /** The files of the items were added, each holding its chunks. */
  ghost predicate Added(files: map<Id, Bytes>, items: seq<Item>, files': map<Id, Bytes>) {
    && files'.Keys == files.Keys + ItemIds(items)
    && (forall id :: id in files && id !in ItemIds(items) ==> files'[id] == files[id])
    && (forall i :: i in items ==> i.id in files' && files'[i.id] == Parser.Concat(i.chunks))
  }

  lemma {:induction false} ItemIdsNext(items: seq<Item>)
    requires items != [] && forall i, j :: 0 <= i < j < |items| ==> items[i].id != items[j].id
    ensures var front, last := items[..|items| - 1], items[|items| - 1];
            && ItemIds(items) == ItemIds(front) + {last.id} && last.id !in ItemIds(front)
            && (forall i :: i in items <==> i == last || i in front)
  {
    assert items == items[..|items| - 1] + [items[|items| - 1]];
  }

  lemma {:induction false} AddedNext(files: map<Id, Bytes>, items: seq<Item>, files': map<Id, Bytes>)
    requires items != [] && Added(files, items[..|items| - 1], files')
    requires forall i, j :: 0 <= i < j < |items| ==> items[i].id != items[j].id
    ensures var last := items[|items| - 1];
            Added(files, items, files'[last.id := Parser.Concat(last.chunks)])
            && ItemIds(items) == ItemIds(items[..|items| - 1]) + {last.id}
  {
    ItemIdsNext(items);
  }

  /** Every file of the form is in place, and on the request's list in order. */
  ghost predicate AllUploaded(s: State, h: Hid, goal: Goal, items: seq<Item>, t: State) {
    && t.tables == s.tables && t.tmp == s.tmp && t.phase == s.phase && t.cipher == s.cipher
    && t.handlers == s.handlers[h := Handler.Parsing(goal, UploadsOf(items), None)]
    && t.minted == s.minted + ItemIds(items) && Added(s.files, items, t.files)
  }

  lemma {:induction false} ListedNext(handlers: map<Hid, Handler>, h: Hid, goal: Goal, items: seq<Item>)
    requires items != []
    ensures var us := UploadsOf(items[..|items| - 1]) + [UploadOf(items[|items| - 1])];
            var front := Handler.Parsing(goal, UploadsOf(items[..|items| - 1]), None);
            handlers[h := front][h := Handler.Parsing(goal, us, None)]
            == handlers[h := Handler.Parsing(goal, UploadsOf(items), None)]
  {
  }

  lemma {:induction false} OneMoreUploaded(s: State, h: Hid, goal: Goal, items: seq<Item>, t: State)
    requires items != [] && NewItems(s, items) && AllUploaded(s, h, goal, items[..|items| - 1], t)
    ensures AllUploaded(s, h, goal, items, Uploaded(t, h, items[|items| - 1]))
  {
    AddedNext(s.files, items, t.files);
    ListedNext(s.handlers, h, goal, items);
  }

  /** The parser's outer loop over an accepted form. */
  lemma {:induction false} ItemsRun(s: State, h: Hid, goal: Goal, items: seq<Item>) returns (t: State)
    requires Runs(s, h) && s.handlers[h] == Handler.Parsing(goal, [], None) && NewItems(s, items)
    ensures Reaches(s, ItemSteps(h, items), t) && AllUploaded(s, h, goal, items, t)
    decreases |items|
  {
    if items == [] {
      t := s;
    } else {
      var front, last := items[..|items| - 1], items[|items| - 1];
      var t1 := ItemsRun(s, h, goal, front);
      assert last.id !in ItemIds(front);
      UploadRun(t1, h, last);
      Join(s, ItemSteps(h, front), t1, UploadSteps(h, last), Uploaded(t1, h, last));
      t := Uploaded(t1, h, last);
      OneMoreUploaded(s, h, goal, items, t1);
    }
  }

  // ----- Rows -----

  function InsertSteps(h: Hid, k: nat): seq<Step> {
    if k == 0 then [] else InsertSteps(h, k - 1) + [InsertOne(h, true)]
  }

  /** The first `k` rows are in. */
  function Inserted(s: State, h: Hid, k: nat): State
    requires h in s.handlers && s.handlers[h].Inserting? && k <= |s.handlers[h].uploads|
  {
    var p := s.handlers[h];
    s.(tables := WithRows(s.tables, p.undo.rid, p.uploads[..k], p.stamp),
       holder := Hand(s.holder, Ids(p.uploads[..k]), Row),
       handlers := s.handlers[h := Inserting(p.undo, p.uploads[k..], p.stamp)])
  }

  lemma {:induction false} RowFits(s: State, h: Hid, k: nat)
    requires Inv(s) && Runs(s, h) && s.handlers[h].Inserting? && k < |s.handlers[h].uploads|
    requires s.handlers[h].undo.rid in s.tables.records
    ensures RowGoesIn(Inserted(s, h, k), h, true)
  {
    var p := s.handlers[h];
    var us := p.uploads;
    assert HandlerOk(s, h);
    assert us[k] in us && us[k].id in Owned(p);
    assert IdOk(s, us[k].id);
    WithRowsContents(s.tables, p.undo.rid, us[..k], p.stamp);
    IdsNext(us, k);
    assert us[k..][0] == us[k];
  }

  lemma {:induction false} HandNext(holder: map<Id, Holder>, us: seq<Upload>, k: nat)
    requires k < |us| && Distinct(us)
    ensures Hand(holder, Ids(us[..k]), Row)[us[k].id := Row] == Hand(holder, Ids(us[..k + 1]), Row)
  {
    IdsNext(us, k);
  }

  lemma {:induction false} RowsNext(t: Tables, record: Id, us: seq<Upload>, k: nat, stamp: int)
    requires k < |us|
    requires InsertAttachment(WithRows(t, record, us[..k], stamp), us[k].id, RowOf(record, us[k], stamp)).Some?
    ensures InsertAttachment(WithRows(t, record, us[..k], stamp), us[k].id, RowOf(record, us[k], stamp)).value
            == WithRows(t, record, us[..k + 1], stamp)
  {
    assert us[..k + 1][..k] == us[..k];
  }

  /** A row that goes in takes its upload off the list. */
  lemma {:induction false} RowIn(t: State, h: Hid, undo: Undo, us: seq<Upload>, stamp: int)
    requires Enabled(t, InsertOne(h, true)) && t.handlers[h] == Inserting(undo, us, stamp) && RowGoesIn(t, h, true)
    ensures NextInsertOne(t, h, true)
            == t.(tables := InsertAttachment(t.tables, us[0].id, RowOf(undo.rid, us[0], stamp)).value,
                  holder := t.holder[us[0].id := Row],
                  handlers := t.handlers[h := Inserting(undo, us[1..], stamp)])
  {
  }

  lemma {:induction false} NextRow(s: State, h: Hid, k: nat)
    requires h in s.handlers && s.handlers[h].Inserting? && k < |s.handlers[h].uploads|
    requires Distinct(s.handlers[h].uploads)
    requires Enabled(Inserted(s, h, k), InsertOne(h, true)) && RowGoesIn(Inserted(s, h, k), h, true)
    ensures NextInsertOne(Inserted(s, h, k), h, true) == Inserted(s, h, k + 1)
  {
    var p := s.handlers[h];
    RowIn(Inserted(s, h, k), h, p.undo, p.uploads[k..], p.stamp);
    assert p.uploads[k..][1..] == p.uploads[k + 1..] && p.uploads[k..][0] == p.uploads[k];
    HandNext(s.holder, p.uploads, k);
    RowsNext(s.tables, p.undo.rid, p.uploads, k, p.stamp);
  }

  lemma {:induction false} NoRows(s: State, h: Hid)
    requires h in s.handlers && s.handlers[h].Inserting?
    ensures Inserted(s, h, 0) == s
  {
    assert s.handlers[h].uploads[0..] == s.handlers[h].uploads;
    assert Hand(s.holder, Ids(s.handlers[h].uploads[..0]), Row) == s.holder;
  }

  lemma {:induction false} RowEnabled(s: State, h: Hid, k: nat)
    requires Inv(s) && Runs(s, h) && s.handlers[h].Inserting? && k < |s.handlers[h].uploads|
    requires s.handlers[h].undo.rid in s.tables.records
    ensures Distinct(s.handlers[h].uploads)
    ensures Enabled(Inserted(s, h, k), InsertOne(h, true)) && RowGoesIn(Inserted(s, h, k), h, true)
  {
    RowFits(s, h, k);
    assert HandlerOk(s, h);
    assert s.handlers[h].uploads[k..] != [];
  }

  lemma {:induction false} InsertNext(s: State, h: Hid, k: nat)
    requires Inv(s) && Runs(s, h) && s.handlers[h].Inserting? && k < |s.handlers[h].uploads|
    requires s.handlers[h].undo.rid in s.tables.records
    ensures Enabled(Inserted(s, h, k), InsertOne(h, true))
    ensures Next(Inserted(s, h, k), InsertOne(h, true)) == Inserted(s, h, k + 1)
  {
    RowEnabled(s, h, k);
    NextRow(s, h, k);
  }

  /** The loop over the uploads: after `k` steps the first `k` rows are in, in order. */
  lemma {:induction false} InsertRun(s: State, h: Hid, k: nat)
    requires Inv(s) && Runs(s, h) && s.handlers[h].Inserting? && k <= |s.handlers[h].uploads|
    requires s.handlers[h].undo.rid in s.tables.records
    ensures Reaches(s, InsertSteps(h, k), Inserted(s, h, k))
  {
    if k == 0 {
      NoRows(s, h);
    } else {
      InsertRun(s, h, k - 1);
      InsertNext(s, h, k - 1);
      Then(s, InsertSteps(h, k - 1), Inserted(s, h, k - 1), InsertOne(h, true));
    }
  }
}
