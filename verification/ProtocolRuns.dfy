/** Runs from an empty data directory that show what the theorems allow: files left behind,
    a list left out of date, an accepted update overwritten. */
module ProtocolRuns {
  import opened Wrappers
  import opened Schema
  import opened Uploads
  import opened Crypto
  import opened Effects
  import opened Protocol
  import opened ProtocolInvariant
  import opened ProtocolTheorems
  import opened ProtocolNotify
  import opened ProtocolSurvival
  import opened ProtocolWrites
  import opened ProtocolSolo
  import opened SoloRequests
  import Notify

  // ----- Changes that stay unannounced -----

  ghost predicate NoEvent(steps: seq<Step>) {
    forall st :: st in steps ==> !st.Send? && !st.Crash?
  }

  lemma {:induction false} OwesJoin(s: State, owed: bool, a: seq<Step>, t: State, b: seq<Step>)
    requires Reaches(s, a, t) && Run(t, b) && Run(s, a + b)
    ensures OwesAfter(s, owed, a + b) == OwesAfter(t, OwesAfter(s, owed, a), b)
    decreases |a|
  {
    if a == [] {
      assert a + b == b;
    } else {
      assert (a + b)[0] == a[0] && (a + b)[1..] == a[1..] + b;
      OwesJoin(Next(s, a[0]), Owes(s, owed, a[0]), a[1..], t, b);
    }
  }

  lemma {:induction false} DebtStays(s: State, steps: seq<Step>)
    requires Run(s, steps) && NoEvent(steps)
    ensures OwesAfter(s, true, steps)
    decreases |steps|
  {
    if steps != [] {
      assert steps[0] in steps;
      DebtStays(Next(s, steps[0]), steps[1..]);
    }
  }

  /** A change after which no event comes is owed. */
  lemma {:induction false} ChangeIsOwed(s: State, a: seq<Step>, t: State, st: Step, rest: seq<Step>)
    requires Reaches(s, a, t) && Run(t, [st] + rest) && Run(s, a + ([st] + rest)) && NoEvent([st] + rest)
    requires Next(t, st).tables != t.tables
    ensures OwesAfter(s, false, a + ([st] + rest))
  {
    OwesJoin(s, false, a, t, [st] + rest);
    assert ([st] + rest)[0] == st && ([st] + rest)[1..] == rest;
    assert st in [st] + rest;
    DebtStays(Next(t, st), rest);
  }

  // ----- A refused row -----

  function File(id: Id): Item {
    Item(id, "file", "text/plain", [])
  }

  lemma {:induction false} ReachesInv(s: State, steps: seq<Step>, t: State)
    requires Inv(s) && Reaches(s, steps, t)
    ensures Inv(t)
  {
    RunInv(s, steps);
  }

  lemma {:induction false} Started(s: State, h: Hid)
    requires Inv(s) && Starts(s, h)
    ensures var t := Goto(s, h, Handler.Parsing(Creating, [], None));
            Reaches(s, [StartCreate(h)], t) && Inv(t)
  {
    StartInv(s, h, Handler.Parsing(Creating, [], None));
    Single(s, StartCreate(h));
  }

  /** Without requests, the files without a row are the leaked ones. */
  lemma {:induction false} LeakedWhenIdle(s: State)
    requires s.handlers == map[]
    ensures LeakedFiles(s) == s.files.Keys - s.tables.attachments.Keys
  {
  }

  /** A create has parsed these files. */
  lemma {:induction false} Parsed(s: State, h: Hid, items: seq<Item>) returns (t: State)
    requires Inv(s) && Starts(s, h) && NewItems(s, items)
    ensures Reaches(s, [StartCreate(h)] + ItemSteps(h, items), t) && Inv(t)
    ensures AllUploaded(Goto(s, h, Handler.Parsing(Creating, [], None)), h, Creating, items, t)
  {
    var s1 := Goto(s, h, Handler.Parsing(Creating, [], None));
    Started(s, h);
    t := ItemsRun(s1, h, Creating, items);
    ReachesInv(s1, ItemSteps(h, items), t);
    Join(s, [StartCreate(h)], s1, ItemSteps(h, items), t);
  }

  lemma {:induction false} TwoUploads()
    ensures UploadsOf([File(0), File(1)]) == [UploadOf(File(0)), UploadOf(File(1))]
    ensures ItemIds([File(0), File(1)]) == {0, 1}
    ensures ItemSteps(0, []) == []
  {
    assert [File(0), File(1)][..1] == [File(0)] && [File(0)][..0] == [];
  }

  function TwoFiles(): seq<Step> {
    [StartCreate(0)] + ItemSteps(0, [File(0), File(1)])
  }

  lemma {:induction false} TwoNew(s: State)
    requires Init(s)
    ensures NewItems(s, [File(0), File(1)])
  {
  }

  lemma {:induction false} TwoFilesParsed(s: State) returns (t: State)
    requires Init(s)
    ensures Reaches(s, TwoFiles(), t) && Inv(t) && Runs(t, 0)
    ensures t.handlers == map[0 := Handler.Parsing(Creating, [UploadOf(File(0)), UploadOf(File(1))], None)]
    ensures t.tables == s.tables && t.minted == {0, 1} && t.files.Keys == {0, 1}
  {
    InitInv(s);
    TwoUploads();
    TwoNew(s);
    t := Parsed(s, 0, [File(0), File(1)]);
  }

  const COMMIT: Step := CommitCreate(0, 2, [], "", "", 0, true)

  function BackOut(): seq<Step> {
    InsertSteps(0, 0) + BackOutSteps(0, true, true)
  }

  lemma {:induction false} BackedOut(s: State) returns (t: State)
    requires Inv(s) && Runs(s, 0) && s.minted == {0, 1}
    requires s.handlers == map[0 := Handler.Parsing(Creating, [UploadOf(File(0)), UploadOf(File(1))], None)]
    ensures Reaches(s, [COMMIT] + BackOut(), t) && Next(s, COMMIT).tables != s.tables
    ensures t.handlers == map[] && t.tables == s.tables && t.files.Keys == s.files.Keys - {0}
  {
    var us := [UploadOf(File(0)), UploadOf(File(1))];
    Created(s, 0, us, 2, [], "", "", 0);
    t := CreateRefused(s, 0, us, 2, [], "", "", 0, 0, true, {});
  }

  /** A create with two uploads, whose first row is refused and which is rolled back. */
  function RefusedRowSteps(): seq<Step> {
    TwoFiles() + ([COMMIT] + BackOut())
  }

  lemma {:induction false} RefusedRowRun(s: State) returns (t: State)
    requires Init(s)
    ensures Reaches(s, RefusedRowSteps(), t) && OwesAfter(s, false, RefusedRowSteps())
    ensures t.handlers == map[] && t.tables == s.tables && t.files.Keys == {1}
  {
    var t1 := TwoFilesParsed(s);
    t := BackedOut(t1);
    Join(s, TwoFiles(), t1, [COMMIT] + BackOut(), t);
    ChangeIsOwed(s, TwoFiles(), t1, COMMIT, BackOut());
  }

  /** A create with two uploads whose first row the database refuses, rolled back without a further
      error: both tables are as before, the second file stays behind, and no event was sent. */
  lemma {:induction false} RefusedRowLeavesAFile(s: State) returns (t: State)
    requires Init(s)
    ensures Reaches(s, RefusedRowSteps(), t) && t.handlers == map[] && t.tables == s.tables
    ensures LeakedFiles(t) == {1}
    ensures OwesAfter(s, false, RefusedRowSteps())
  {
    t := RefusedRowRun(s);
    LeakedWhenIdle(t);
  }

  function UpToRollBack(): seq<Step> {
    TwoFiles() + ([COMMIT] + RefusalSteps(0, true))
  }

  /** Before the rollback call the record is there. */
  lemma {:induction false} BeforeRollBack(s: State) returns (t: State)
    requires Init(s)
    ensures Reaches(s, UpToRollBack(), t) && Runs(t, 0) && t.handlers == map[0 := RollingBack(Uncreate(2))]
    ensures 2 in t.tables.records
  {
    var t1 := TwoFilesParsed(s);
    t := CreateUpToRollBack(t1, 0, [UploadOf(File(0)), UploadOf(File(1))], 2, [], "", "", 0, true);
    Join(s, TwoFiles(), t1, [COMMIT] + RefusalSteps(0, true), t);
  }

  lemma {:induction false} RollBackChangesFirst(s: State)
    requires Runs(s, 0) && s.handlers[0] == RollingBack(Uncreate(2)) && 2 in s.tables.records
    ensures Notify.ChangesFirst(s, [RollBack(0, true)])
  {
    assert 2 !in NextRollBack(s, 0).tables.records;
    Single(s, RollBack(0, true));
  }

  /** In this run a client that fetches the list between commit and rollback keeps showing record 2,
      which does not exist, with nothing left to do. */
  lemma {:induction false} RefusedRowLosesTheRefresh(s: Notify.System) returns (moves: seq<Notify.Move>)
    requires Notify.Init(s)
    ensures Notify.Misses(s, RefusedRowSteps(), moves, 0)
    ensures 2 in Notify.After(s, moves).clients[0].shown.records
    ensures Run(s.server, RefusedRowSteps())
    ensures var t := After(s.server, RefusedRowSteps());
            t.handlers == map[] && 2 !in t.tables.records && t == Notify.After(s, moves).server
  {
    var t := RefusedRowRun(s.server);
    var t1 := BeforeRollBack(s.server);
    RollBackChangesFirst(t1);
    moves := Notify.MissesLastOf(s, UpToRollBack(), [RollBack(0, true)]);
    assert InsertSteps(0, 0) == [] && BackOut() == RefusalSteps(0, true) + [RollBack(0, true)];
    assert UpToRollBack() + [RollBack(0, true)] == RefusedRowSteps();
    Notify.ServerRuns(s, moves);
  }

  // ----- A record to start from -----

  const STORE: Step := CommitCreate(0, 9, [], "first", "", 0, true)

  function RecordSteps(items: seq<Item>): seq<Step> {
    [StartCreate(0)] + ItemSteps(0, items) + ([STORE] + (InsertSteps(0, |UploadsOf(items)|) + [Send(0)]))
  }

  function FirstBlob(s: State): Bytes {
    s.cipher.seal([], "first", "")
  }

  lemma {:induction false} RecordedTables(blob: Bytes, us: seq<Upload>)
    ensures var one := map[9 := Record(blob, 0, 0)];
            && InsertRecord(Tables(map[], map[]), 9, blob, 0) == Some(Tables(one, map[]))
            && WithRows(Tables(one, map[]), 9, us, 0).records == one
  {
    WithRowsContents(Tables(map[9 := Record(blob, 0, 0)], map[]), 9, us, 0);
  }

  /** From an empty directory, record 9 is created with these files. */
  lemma {:induction false} Recorded(s: State, items: seq<Item>) returns (t: State)
    requires Init(s) && NewItems(s, items) && 9 !in ItemIds(items)
    ensures Reaches(s, RecordSteps(items), t) && Inv(t) && t.phase.Serving? && t.handlers == map[]
    ensures t.tmp == map[] && t.cipher == s.cipher && t.minted == ItemIds(items) + {9} && Added(map[], items, t.files)
    ensures t.tables.records == map[9 := Record(FirstBlob(s), 0, 0)]
    ensures t.tables == WithRows(Tables(t.tables.records, map[]), 9, UploadsOf(items), 0)
  {
    InitInv(s);
    var t1 := Parsed(s, 0, items);
    t := CreateFinished(t1, 0, UploadsOf(items), 9, [], "first", "", 0);
    Join(s, [StartCreate(0)] + ItemSteps(0, items), t1, [STORE] + (InsertSteps(0, |UploadsOf(items)|) + [Send(0)]), t);
    ReachesInv(s, RecordSteps(items), t);
    RecordedTables(FirstBlob(s), UploadsOf(items));
  }

  // ----- A stamp that cannot be written -----

  /** The row and its file go, the stamp fails. */
  function DetachSteps(): seq<Step> {
    [CommitDetach(0, true)] + ([EraseOne(0, 0, true)] + [TouchRow(0, 0, false)])
  }

  lemma {:induction false} Detached(s: State) returns (t: State)
    requires Inv(s) && s.phase.Serving? && s.handlers == map[0 := Detaching(9, 0)] && Belongs(s.tables, 9, 0)
    ensures Reaches(s, DetachSteps(), t) && t.handlers == map[] && 0 !in t.tables.attachments
  {
    t := DetachIsARun(s, 0, 9, 0, true, 0, false);
    assert [TouchRow(0, 0, false)] + [] == [TouchRow(0, 0, false)];
  }

  /** Nothing changes after the row has gone, and no event is sent. */
  lemma {:induction false} DetachChangesFirst(s: State)
    requires Runs(s, 0) && s.handlers == map[0 := Detaching(9, 0)] && Belongs(s.tables, 9, 0) && Run(s, DetachSteps())
    ensures Notify.ChangesFirst(s, DetachSteps())
  {
    var s1 := NextCommitDetach(s, 0);
    assert 0 !in s1.tables.attachments;
    var rest := [EraseOne(0, 0, true)] + [TouchRow(0, 0, false)];
    assert DetachSteps()[1..] == rest;
    EraseAndFail(s1, rest);
  }

  lemma {:induction false} FailedStamp(s: State, owed: bool)
    requires Run(s, [TouchRow(0, 0, false)])
    ensures OwesAfter(s, owed, [TouchRow(0, 0, false)]) == owed
  {
    assert [TouchRow(0, 0, false)][1..] == [];
    assert Done(s, 0).tables == s.tables;
  }

  lemma {:induction false} EraseAndFail(s: State, steps: seq<Step>)
    requires steps == [EraseOne(0, 0, true)] + [TouchRow(0, 0, false)] && Run(s, steps)
    ensures OwesAfter(s, true, steps) && !OwesAfter(s, false, steps)
  {
    var s1 := NextEraseOne(s, 0, 0, true);
    assert steps[1..] == [TouchRow(0, 0, false)];
    FailedStamp(s1, true);
    FailedStamp(s1, false);
    assert s1.tables == s.tables;
  }

  function UpToDetach(): seq<Step> {
    RecordSteps([File(0)]) + [StartDetach(0, 9, 0)]
  }

  /** Record 9 has attachment 0, and a request to delete it has arrived. */
  lemma {:induction false} BeforeDetach(s: State) returns (t: State)
    requires Init(s)
    ensures Reaches(s, UpToDetach(), t) && Inv(t) && t.phase.Serving? && t.handlers == map[0 := Detaching(9, 0)]
    ensures Belongs(t.tables, 9, 0)
  {
    var items := [File(0)];
    OneFile(0);
    var t1 := Recorded(s, items);
    WithRowsContents(Tables(t1.tables.records, map[]), 9, UploadsOf(items), 0);
    t := Goto(t1, 0, Detaching(9, 0));
    StartInv(t1, 0, Detaching(9, 0));
    Single(t1, StartDetach(0, 9, 0));
    Join(s, RecordSteps(items), t1, [StartDetach(0, 9, 0)], t);
  }

  /** An attachment is deleted and the record's stamp cannot be written: the request ends without
      an event, and a client that was up to date with nothing left to do keeps showing the
      attachment that has gone. */
  lemma {:induction false} StampErrorLosesTheRefresh(s: Notify.System) returns (moves: seq<Notify.Move>)
    requires Notify.Init(s)
    ensures Notify.Misses(s, UpToDetach() + DetachSteps(), moves, 0)
    ensures 0 in Notify.After(s, moves).clients[0].shown.attachments
    ensures Run(s.server, UpToDetach() + DetachSteps())
    ensures var t := After(s.server, UpToDetach() + DetachSteps());
            t.handlers == map[] && 0 !in t.tables.attachments && t == Notify.After(s, moves).server
  {
    var t1 := BeforeDetach(s.server);
    var t := Detached(t1);
    Join(s.server, UpToDetach(), t1, DetachSteps(), t);
    DetachChangesFirst(t1);
    moves := Notify.MissesLastOf(s, UpToDetach(), DetachSteps());
    Notify.ServerRuns(s, moves);
  }

  // ----- Updates -----

  /** An update has passed its check. */
  lemma {:induction false} Checked(s: State, h: Hid) returns (t: State)
    requires Inv(s) && Starts(s, h) && 9 in s.tables.records && Opens(s.cipher, s.tables.records[9].blob)
    ensures var row := s.tables.records[9];
            && Reaches(s, [StartUpdate(h, 9)] + [ReadRow(h, true)], t)
            && t == Goto(s, h, Handler.Parsing(Updating(9, row.blob, row.updatedAt), [], None))
  {
    var s1 := Goto(s, h, Handler.Reading(9));
    Single(s, StartUpdate(h, 9));
    Then(s, [StartUpdate(h, 9)], s1, ReadRow(h, true));
    t := NextReadRow(s1, h, true);
  }

  lemma {:induction false} OneFile(id: Id)
    ensures UploadsOf([File(id)]) == [UploadOf(File(id))] && ItemIds([File(id)]) == {id}
  {
    assert [File(id)][..0] == [];
  }

  function UpdateSteps(h: Hid, id: Id): seq<Step> {
    [StartUpdate(h, 9)] + [ReadRow(h, true)] + ItemSteps(h, [File(id)])
  }

  /** It has parsed a form with this file. */
  lemma {:induction false} CheckedAndParsed(s: State, h: Hid, id: Id) returns (t: State)
    requires Inv(s) && Starts(s, h) && 9 in s.tables.records && Opens(s.cipher, s.tables.records[9].blob)
    requires id !in s.minted + s.tmp.Keys
    ensures Reaches(s, UpdateSteps(h, id), t) && Inv(t)
    ensures var row := s.tables.records[9];
            var goal := Updating(9, row.blob, row.updatedAt);
            AllUploaded(Goto(s, h, Handler.Parsing(goal, [], None)), h, goal, [File(id)], t)
  {
    var row := s.tables.records[9];
    var s1 := Checked(s, h);
    t := ItemsRun(s1, h, Updating(9, row.blob, row.updatedAt), [File(id)]);
    Join(s, [StartUpdate(h, 9)] + [ReadRow(h, true)], s1, ItemSteps(h, [File(id)]), t);
    ReachesInv(s, UpdateSteps(h, id), t);
  }

  lemma {:induction false} FirstOpens(s: State, t: State)
    requires Init(s) && Inv(t) && t.cipher == s.cipher && 9 in t.tables.records
    requires t.tables.records[9].blob == FirstBlob(s)
    ensures Opens(t.cipher, t.tables.records[9].blob)
  {
  }

  function DeletionSteps(h: Hid): seq<Step> {
    [StartDelete(h, 9)] + ([CommitDelete(h, true)] + (EraseSteps(h, [], {}) + [Send(h)]))
  }

  /** Another request deletes the record, which has no attachments. */
  lemma {:induction false} DeletedMeanwhile(s: State, h: Hid) returns (t: State)
    requires Inv(s) && Starts(s, h) && 9 in s.tables.records && ChildrenOf(s.tables, 9) == {}
    ensures Reaches(s, DeletionSteps(h), t) && Inv(t) && t.phase == s.phase && t.cipher == s.cipher
    ensures t.handlers == s.handlers && t.tables == DropRecord(s.tables, 9) && t.files == s.files
  {
    var s1 := Goto(s, h, Deleting(9));
    Single(s, StartDelete(h, 9));
    t := DeleteIsARun(s1, h, 9, [], {});
    Join(s, [StartDelete(h, 9)], s1, [CommitDelete(h, true)] + (EraseSteps(h, [], {}) + [Send(h)]), t);
    ReachesInv(s, DeletionSteps(h), t);
  }

  lemma {:induction false} EmptyRecord(s: State) returns (t: State)
    requires Init(s)
    ensures Reaches(s, RecordSteps([]), t) && Inv(t) && t.phase.Serving? && t.handlers == map[] && t.cipher == s.cipher
    ensures t.tables == Tables(map[9 := Record(FirstBlob(s), 0, 0)], map[]) && t.files == map[]
    ensures t.tmp == map[] && t.minted == {9} && Opens(t.cipher, FirstBlob(s))
  {
    t := Recorded(s, []);
    FirstOpens(s, t);
  }

  /** A record is there and an update of it has parsed a form with file 1. */
  lemma {:induction false} UpdateUnderWay(s: State) returns (t: State)
    requires Init(s)
    ensures Reaches(s, RecordSteps([]) + UpdateSteps(1, 1), t) && Inv(t) && t.phase.Serving? && t.cipher == s.cipher
    ensures t.handlers == map[1 := Handler.Parsing(Updating(9, FirstBlob(s), 0), [UploadOf(File(1))], None)]
    ensures t.tables == Tables(map[9 := Record(FirstBlob(s), 0, 0)], map[]) && t.files.Keys == {1}
  {
    var t1 := EmptyRecord(s);
    OneFile(1);
    t := CheckedAndParsed(t1, 1, 1);
    Join(s, RecordSteps([]), t1, UpdateSteps(1, 1), t);
  }

  const OVERWRITE: Step := CommitUpdate(1, [], "one", "", 1, true)

  /** A record with an update under way, its deletion, then the update's commit. */
  function VanishedSteps(): seq<Step> {
    RecordSteps([]) + UpdateSteps(1, 1) + DeletionSteps(2) + [OVERWRITE]
  }

  /** A record is deleted while an update of it is parsed: the update answers that there is no such
      record and its upload stays behind. */
  lemma {:induction false} VanishedRecordLeavesAFile(s: State) returns (t: State)
    requires Init(s)
    ensures Reaches(s, VanishedSteps(), t) && t.handlers == map[]
    ensures t.tables == Tables(map[], map[]) && LeakedFiles(t) == {1}
  {
    var t1 := UpdateUnderWay(s);
    var t2 := DeletedMeanwhile(t1, 2);
    Join(s, RecordSteps([]) + UpdateSteps(1, 1), t1, DeletionSteps(2), t2);
    t := NextCommitUpdate(t2, 1, t2.cipher.seal([], "one", ""), 1, true);
    Then(s, RecordSteps([]) + UpdateSteps(1, 1) + DeletionSteps(2), t2, OVERWRITE);
    LeakedWhenIdle(t);
  }

  // ----- An accepted update that is overwritten -----

  function SecondBlob(s: State): Bytes {
    s.cipher.seal([], "two", "")
  }

  /** While the first update is under way a second one passes its check. */
  lemma {:induction false} SecondChecked(s: State) returns (t: State)
    requires Init(s)
    ensures Reaches(s, RecordSteps([]) + UpdateSteps(1, 1) + ([StartUpdate(2, 9)] + [ReadRow(2, true)]), t)
    ensures Inv(t) && t.phase.Serving? && t.cipher == s.cipher && 9 in t.tables.records
    ensures t.handlers == map[1 := Handler.Parsing(Updating(9, FirstBlob(s), 0), [UploadOf(File(1))], None),
                              2 := Handler.Parsing(Updating(9, FirstBlob(s), 0), [], None)]
  {
    var t1 := UpdateUnderWay(s);
    FirstOpens(s, t1);
    t := Checked(t1, 2);
    ReachesInv(t1, [StartUpdate(2, 9)] + [ReadRow(2, true)], t);
    Join(s, RecordSteps([]) + UpdateSteps(1, 1), t1, [StartUpdate(2, 9)] + [ReadRow(2, true)], t);
  }

  /** Then the first one commits. */
  lemma {:induction false} TwoUpdates(s: State) returns (t: State)
    requires Init(s)
    ensures Reaches(s, RecordSteps([]) + UpdateSteps(1, 1) + ([StartUpdate(2, 9)] + [ReadRow(2, true)])
                       + [OVERWRITE], t)
    ensures Inv(t) && t.phase.Serving? && t.cipher == s.cipher && 9 in t.tables.records
    ensures t.handlers == map[1 := Inserting(Restore(9, FirstBlob(s), 0), [UploadOf(File(1))], 1),
                              2 := Handler.Parsing(Updating(9, FirstBlob(s), 0), [], None)]
  {
    var t1 := SecondChecked(s);
    Updated(t1, 1, [UploadOf(File(1))], 9, Record(FirstBlob(s), 0, 0), [], "one", "", 1);
    t := Next(t1, OVERWRITE);
    Then(s, RecordSteps([]) + UpdateSteps(1, 1) + ([StartUpdate(2, 9)] + [ReadRow(2, true)]), t1, OVERWRITE);
  }

  function SecondUpdate(): seq<Step> {
    [CommitUpdate(2, [], "two", "", 2, true)] + (InsertSteps(2, 0) + [Send(2)])
  }

  lemma {:induction false} SecondAccepted(s: State, blob: Bytes) returns (t: State)
    requires Inv(s) && s.phase.Serving? && 9 in s.tables.records
    requires s.handlers == map[1 := Inserting(Restore(9, blob, 0), [UploadOf(File(1))], 1),
                               2 := Handler.Parsing(Updating(9, blob, 0), [], None)]
    ensures Reaches(s, SecondUpdate(), t) && Inv(t) && t.phase.Serving?
    ensures t.handlers == map[1 := Inserting(Restore(9, blob, 0), [UploadOf(File(1))], 1)]
    ensures BlobAt(t.tables, 9) == Some(SecondBlob(s))
  {
    t := UpdateFinished(s, 2, [], 9, Record(blob, 0, 0), [], "two", "", 2);
    ReachesInv(s, SecondUpdate(), t);
  }

  /** The second update is written, answered and announced; then the first one's row is refused and
      its rollback puts the old blob over it. */
  lemma {:induction false} RollbackOverwrites(s: State, blob: Bytes) returns (mid: State, t: State)
    requires Inv(s) && s.phase.Serving? && 9 in s.tables.records
    requires s.handlers == map[1 := Inserting(Restore(9, blob, 0), [UploadOf(File(1))], 1),
                               2 := Handler.Parsing(Updating(9, blob, 0), [], None)]
    ensures Reaches(s, SecondUpdate(), mid) && BlobAt(mid.tables, 9) == Some(SecondBlob(s))
    ensures blob != SecondBlob(s) ==> ArmedBy(mid, 1, 9, SecondBlob(s))
    ensures Reaches(mid, InsertSteps(1, 0) + BackOutSteps(1, true, true), t)
    ensures t.handlers == map[] && BlobAt(t.tables, 9) == Some(blob)
  {
    mid := SecondAccepted(s, blob);
    t := RefusedRun(mid, 1, 0, true, true);
  }

  /** A record, a first update with a file, a second one that has passed its check, and the first
      one's commit. */
  function TwoUpdatesSteps(): seq<Step> {
    RecordSteps([]) + UpdateSteps(1, 1) + ([StartUpdate(2, 9)] + [ReadRow(2, true)]) + [OVERWRITE]
  }

  /** An accepted update is lost: after its event its blob is in the table, and once the first one
      has backed out the older blob is again. */
  lemma {:induction false} AcceptedUpdateIsOverwritten(s: State) returns (mid: State, t: State)
    requires Init(s)
    ensures Reaches(s, TwoUpdatesSteps() + SecondUpdate(), mid) && BlobAt(mid.tables, 9) == Some(SecondBlob(s))
    ensures Armed(mid, 9, SecondBlob(s))
    ensures Reaches(mid, InsertSteps(1, 0) + BackOutSteps(1, true, true), t) && t.handlers == map[]
    ensures BlobAt(t.tables, 9) == Some(FirstBlob(s)) && FirstBlob(s) != SecondBlob(s)
  {
    var t1 := TwoUpdates(s);
    mid, t := RollbackOverwrites(t1, FirstBlob(s));
    Join(s, TwoUpdatesSteps(), t1, SecondUpdate(), mid);
    assert s.cipher.open(FirstBlob(s)) != s.cipher.open(SecondBlob(s));
  }
}
