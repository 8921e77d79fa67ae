/** Whole requests as runs of the step system: every exit of the handlers' methods is a run of
    one request with the effect that the method's contract states for it. */
module SoloRequests {
  import opened Wrappers
  import opened Schema
  import opened Crypto
  import opened Uploads
  import opened Effects
  import opened Protocol
  import opened ProtocolInvariant
  import opened ProtocolSolo

  /** The request is over and nothing else in the process has moved. */
  ghost predicate Ends(s: State, t: State, h: Hid) {
    t.handlers == s.handlers - {h} && t.tmp == s.tmp && t.phase == s.phase && t.cipher == s.cipher
  }

  // ----- Cleaning up -----

  function CleanSteps(h: Hid, us: seq<Upload>, left: set<Id>): seq<Step> {
    if us == [] then [CleanEnd(h)] else [CleanOne(h, us[0].id !in left)] + CleanSteps(h, us[1..], left)
  }

  lemma {:induction false} CleanedOne(s: State, h: Hid, ok: bool)
    requires Runs(s, h) && s.handlers[h].Cleaning? && s.handlers[h].uploads != []
    ensures var us := s.handlers[h].uploads;
            var s1 := NextCleanOne(s, h, ok);
            && s1.handlers == s.handlers[h := Cleaning(us[1..])] && s1.tables == s.tables && s1.tmp == s.tmp
            && s1.phase == s.phase && s1.cipher == s.cipher
            && s1.files == (if ok then s.files - {us[0].id} else s.files)
  {
  }

  lemma {:induction false} OneByOne(files: map<Id, Bytes>, us: seq<Upload>, left: set<Id>)
    requires us != [] && Distinct(us)
    ensures files - (Ids(us) - left)
            == (if us[0].id in left then files else files - {us[0].id}) - (Ids(us[1..]) - left)
  {
    IdsTail(us);
  }

  lemma {:induction false} CleanRun(s: State, h: Hid, us: seq<Upload>, left: set<Id>) returns (t: State)
    requires Runs(s, h) && s.handlers[h] == Cleaning(us) && Distinct(us)
    ensures Reaches(s, CleanSteps(h, us, left), t) && Ends(s, t, h)
    ensures t.tables == s.tables && t.files == s.files - (Ids(us) - left)
    decreases |us|
  {
    if us == [] {
      Single(s, CleanEnd(h));
      t := Done(s, h);
    } else {
      var ok := us[0].id !in left;
      var s1 := NextCleanOne(s, h, ok);
      IdsTail(us);
      CleanedOne(s, h, ok);
      Single(s, CleanOne(h, ok));
      t := CleanRun(s1, h, us[1..], left);
      Join(s, [CleanOne(h, ok)], s1, CleanSteps(h, us[1..], left), t);
      OneByOne(s.files, us, left);
    }
  }

  // ----- Backing out -----

  function RefusalSteps(h: Hid, gone: bool): seq<Step> {
    [InsertOne(h, false)] + [UnwindFile(h, gone)]
  }

  /** A refused row, up to the rollback call: its file goes or not, the tables are as they were. */
  lemma {:induction false} RefusalRun(s: State, h: Hid, gone: bool) returns (t: State)
    requires Runs(s, h) && s.handlers[h].Inserting? && s.handlers[h].uploads != []
    requires Distinct(s.handlers[h].uploads) && Ids(s.handlers[h].uploads) <= s.holder.Keys
    ensures Reaches(s, RefusalSteps(h, gone), t)
    ensures t.handlers == s.handlers[h := RollingBack(s.handlers[h].undo)]
    ensures t.tables == s.tables && t.tmp == s.tmp && t.phase == s.phase && t.cipher == s.cipher
    ensures t.files == if gone then s.files - {s.handlers[h].uploads[0].id} else s.files
  {
    var s1 := NextInsertOne(s, h, false);
    Single(s, InsertOne(h, false));
    t := NextUnwindFile(s1, h, gone);
    Then(s, [InsertOne(h, false)], s1, UnwindFile(h, gone));
  }

  function BackOutSteps(h: Hid, gone: bool, undone: bool): seq<Step> {
    RefusalSteps(h, gone) + [RollBack(h, undone)]
  }

  /** A refused row: its file goes, the rollback call goes through or not. */
  lemma {:induction false} BackOutRun(s: State, h: Hid, gone: bool, undone: bool) returns (t: State)
    requires Runs(s, h) && s.handlers[h].Inserting? && s.handlers[h].uploads != []
    requires Distinct(s.handlers[h].uploads) && Ids(s.handlers[h].uploads) <= s.holder.Keys
    ensures Reaches(s, BackOutSteps(h, gone, undone), t) && Ends(s, t, h)
    ensures t.tables == if undone then Undone(s.tables, s.handlers[h].undo) else s.tables
    ensures t.files == if gone then s.files - {s.handlers[h].uploads[0].id} else s.files
  {
    var s1 := RefusalRun(s, h, gone);
    t := RolledBack(s1, h, undone);
    Then(s, RefusalSteps(h, gone), s1, RollBack(h, undone));
  }

  lemma {:induction false} RolledBack(s: State, h: Hid, undone: bool) returns (t: State)
    requires Runs(s, h) && s.handlers[h].RollingBack?
    ensures Enabled(s, RollBack(h, undone)) && t == Next(s, RollBack(h, undone)) && Ends(s, t, h) && t.files == s.files
    ensures t.tables == if undone then Undone(s.tables, s.handlers[h].undo) else s.tables
  {
    t := Next(s, RollBack(h, undone));
  }

  /** From the first row on: all rows and the event, or the rows before a refused one. */
  lemma {:induction false} RowsRun(s: State, h: Hid) returns (t: State)
    requires Inv(s) && Runs(s, h) && s.handlers[h].Inserting? && s.handlers[h].undo.rid in s.tables.records
    ensures var p := s.handlers[h];
            && Reaches(s, InsertSteps(h, |p.uploads|) + [Send(h)], t) && Ends(s, t, h)
            && t.files == s.files && t.minted == s.minted
            && t.tables == WithRows(s.tables, p.undo.rid, p.uploads, p.stamp)
  {
    var n := |s.handlers[h].uploads|;
    InsertRun(s, h, n);
    assert s.handlers[h].uploads[..n] == s.handlers[h].uploads;
    Then(s, InsertSteps(h, n), Inserted(s, h, n), Send(h));
    t := Done(Inserted(s, h, n), h);
  }

  lemma {:induction false} RefusedRun(s: State, h: Hid, k: nat, gone: bool, undone: bool) returns (t: State)
    requires Inv(s) && Runs(s, h) && s.handlers[h].Inserting? && s.handlers[h].undo.rid in s.tables.records
    requires k < |s.handlers[h].uploads|
    ensures Reaches(s, InsertSteps(h, k) + BackOutSteps(h, gone, undone), t) && Ends(s, t, h)
    ensures var p := s.handlers[h];
            var rows := WithRows(s.tables, p.undo.rid, p.uploads[..k], p.stamp);
            && t.tables == (if undone then Undone(rows, p.undo) else rows)
            && t.files == (if gone then s.files - {p.uploads[k].id} else s.files)
  {
    var s1 := Inserted(s, h, k);
    InsertRun(s, h, k);
    RestDistinct(s, h, k);
    t := BackOutRun(s1, h, gone, undone);
    Join(s, InsertSteps(h, k), s1, BackOutSteps(h, gone, undone), t);
  }

  /** The first row is refused. */
  lemma {:induction false} FirstRefused(s: State, h: Hid, gone: bool) returns (t: State)
    requires Inv(s) && Runs(s, h) && s.handlers[h].Inserting? && s.handlers[h].uploads != []
    ensures Reaches(s, RefusalSteps(h, gone), t) && t.phase == s.phase && t.tables == s.tables
    ensures t.handlers == s.handlers[h := RollingBack(s.handlers[h].undo)]
  {
    assert HandlerOk(s, h);
    t := RefusalRun(s, h, gone);
  }

  lemma {:induction false} RestDistinct(s: State, h: Hid, k: nat)
    requires Inv(s) && Runs(s, h) && s.handlers[h].Inserting? && k < |s.handlers[h].uploads|
    ensures var p := Inserted(s, h, k).handlers[h];
            p.Inserting? && p.uploads != [] && p.uploads[0] == s.handlers[h].uploads[k]
            && Distinct(p.uploads) && Ids(p.uploads) <= Inserted(s, h, k).holder.Keys
  {
    var us := s.handlers[h].uploads;
    assert HandlerOk(s, h);
    forall u | u in us[k..] ensures u.id in s.holder {
      assert u in us && u.id in Owned(s.handlers[h]);
    }
  }

  // ----- A create -----

  lemma {:induction false} Sealed(s: State, nonce: Bytes, title: string, content: string)
    requires Inv(s)
    ensures Opens(s.cipher, s.cipher.seal(nonce, title, content))
  {
  }

  /** The uploads of a parsing request have no rows. */
  lemma {:induction false} NoRowsYet(s: State, h: Hid)
    requires Inv(s) && h in s.handlers
    ensures Owned(s.handlers[h]) !! s.tables.attachments.Keys && Distinct(Pending(s.handlers[h]))
  {
    assert HandlerOk(s, h);
    forall id | id in Owned(s.handlers[h]) ensures id !in s.tables.attachments {
      assert IdOk(s, id);
    }
  }

  /** The steps of a create after its parse, for each of its exits. */
  function CreateSteps(h: Hid, us: seq<Upload>, stage: Stage, commit: Step, left: set<Id>): seq<Step> {
    match stage
    case RowRefused(k, undone) => [commit] + (InsertSteps(h, k) + BackOutSteps(h, left == {}, undone))
    case Finished => [commit] + (InsertSteps(h, |us|) + [Send(h)])
    case _ => [commit] + CleanSteps(h, us, left)
  }

  lemma {:induction false} Created(s: State, h: Hid, us: seq<Upload>, rid: Id,
                                   nonce: Bytes, title: string, content: string, now: int)
    requires Inv(s) && Runs(s, h) && s.handlers[h] == Handler.Parsing(Creating, us, None) && rid !in s.minted
    ensures var s1 := Next(s, CommitCreate(h, rid, nonce, title, content, now, true));
            && Inv(s1) && Runs(s1, h) && s1.files == s.files && s1.tmp == s.tmp && s1.cipher == s.cipher
            && s1.handlers == s.handlers[h := Inserting(Uncreate(rid), us, now)] && s1.minted == s.minted + {rid}
            && Some(s1.tables) == InsertRecord(s.tables, rid, s.cipher.seal(nonce, title, content), now)
  {
    Sealed(s, nonce, title, content);
    CommitCreateInv(s, h, rid, s.cipher.seal(nonce, title, content), now, true);
  }

  /** A run after a commit. */
  lemma {:induction false} AfterCommit(s: State, commit: Step, rest: seq<Step>, t: State)
    requires Enabled(s, commit) && Reaches(Next(s, commit), rest, t)
    ensures Reaches(s, [commit] + rest, t)
  {
    Single(s, commit);
    Join(s, [commit], Next(s, commit), rest, t);
  }

  lemma {:induction false} MovedTwice(handlers: map<Hid, Handler>, h: Hid, p: Handler, q: Handler)
    ensures handlers[h := p][h := q] == handlers[h := q]
  {
  }

  /** A create whose first row is refused, up to the rollback call. */
  lemma {:induction false} CreateUpToRollBack(s: State, h: Hid, us: seq<Upload>, rid: Id,
                                              nonce: Bytes, title: string, content: string, now: int, gone: bool)
    returns (t: State)
    requires Inv(s) && Runs(s, h) && s.handlers[h] == Handler.Parsing(Creating, us, None) && rid !in s.minted
    requires us != []
    ensures Reaches(s, [CommitCreate(h, rid, nonce, title, content, now, true)] + RefusalSteps(h, gone), t)
    ensures t.phase == s.phase && t.handlers == s.handlers[h := RollingBack(Uncreate(rid))] && rid in t.tables.records
  {
    var commit := CommitCreate(h, rid, nonce, title, content, now, true);
    var s1 := Next(s, commit);
    Created(s, h, us, rid, nonce, title, content, now);
    t := FirstRefused(s1, h, gone);
    MovedTwice(s.handlers, h, Inserting(Uncreate(rid), us, now), RollingBack(Uncreate(rid)));
    AfterCommit(s, commit, RefusalSteps(h, gone), t);
  }

  lemma {:induction false} UncreatedTables(before: Tables, rid: Id, blob: Bytes, us: seq<Upload>, now: int,
                                           k: nat, undone: bool)
    requires Referential(before) && rid !in before.records && k < |us| && Ids(us) !! before.attachments.Keys
    ensures var rows := WithRows(InsertRecord(before, rid, blob, now).value, rid, us[..k], now);
            CreateEffect(RowRefused(k, undone), before, if undone then Undone(rows, Uncreate(rid)) else rows,
                         rid, blob, us, now)
  {
    assert forall u :: u in us[..k] ==> u in us;
    DropUndoesCreate(before, rid, blob, now, us[..k]);
  }

  lemma {:induction false} RestoredTables(before: Tables, rid: Id, row: Record, blob: Bytes, us: seq<Upload>, now: int,
                                          k: nat, undone: bool)
    requires rid in before.records && k < |us|
    ensures var rows := WithRows(SetBlob(before, rid, blob, now), rid, us[..k], now);
            UpdateEffect(RowRefused(k, undone), before,
                         if undone then Undone(rows, Restore(rid, row.blob, row.updatedAt)) else rows,
                         rid, row, blob, us, now)
  {
    RestoreReplacesUpdate(before, rid, blob, now, us[..k], row);
  }

  lemma {:induction false} CreateFinished(s: State, h: Hid, us: seq<Upload>, rid: Id,
                                          nonce: Bytes, title: string, content: string, now: int)
    returns (t: State)
    requires Inv(s) && Runs(s, h) && s.handlers[h] == Handler.Parsing(Creating, us, None) && rid !in s.minted
    ensures Reaches(s, CreateSteps(h, us, Finished, CommitCreate(h, rid, nonce, title, content, now, true), {}), t)
    ensures Ends(s, t, h) && t.files == s.files && t.minted == s.minted + {rid}
    ensures CreateEffect(Finished, s.tables, t.tables, rid, s.cipher.seal(nonce, title, content), us, now)
  {
    var commit := CommitCreate(h, rid, nonce, title, content, now, true);
    var s1 := Next(s, commit);
    Created(s, h, us, rid, nonce, title, content, now);
    t := RowsRun(s1, h);
    AfterCommit(s, commit, InsertSteps(h, |us|) + [Send(h)], t);
  }

  lemma {:induction false} CreateRefused(s: State, h: Hid, us: seq<Upload>, rid: Id,
                                         nonce: Bytes, title: string, content: string, now: int,
                                         k: nat, undone: bool, left: set<Id>)
    returns (t: State)
    requires Inv(s) && Runs(s, h) && s.handlers[h] == Handler.Parsing(Creating, us, None)
    requires rid !in s.minted && k < |us|
    ensures var commit := CommitCreate(h, rid, nonce, title, content, now, true);
            Reaches(s, CreateSteps(h, us, RowRefused(k, undone), commit, left), t)
    ensures Ends(s, t, h) && t.files == if left == {} then s.files - {us[k].id} else s.files
    ensures CreateEffect(RowRefused(k, undone), s.tables, t.tables, rid, s.cipher.seal(nonce, title, content), us, now)
  {
    var commit := CommitCreate(h, rid, nonce, title, content, now, true);
    Created(s, h, us, rid, nonce, title, content, now);
    t := RefusedRun(Next(s, commit), h, k, left == {}, undone);
    AfterCommit(s, commit, InsertSteps(h, k) + BackOutSteps(h, left == {}, undone), t);
    NoRowsYet(s, h);
    UncreatedTables(s.tables, rid, s.cipher.seal(nonce, title, content), us, now, k, undone);
  }

  lemma {:induction false} CreateCleaned(s: State, h: Hid, us: seq<Upload>, commit: Step, left: set<Id>)
    returns (t: State)
    requires Inv(s) && Runs(s, h) && s.handlers[h] == Handler.Parsing(Creating, us, None)
    requires commit.CommitCreate? && Enabled(s, commit) && commit.h == h && !commit.ok
    ensures Reaches(s, [commit] + CleanSteps(h, us, left), t) && Ends(s, t, h)
    ensures t.tables == s.tables && t.files == s.files - (Ids(us) - left)
  {
    NoRowsYet(s, h);
    t := CleanRun(Next(s, commit), h, us, left);
    AfterCommit(s, commit, CleanSteps(h, us, left), t);
  }

  /** Each exit of a create is a run that ends the request with the effect on the tables and the
      files that the handler's contract gives for that exit; the event is sent at the last only. */
  lemma {:induction false} CreateIsARun(s: State, h: Hid, us: seq<Upload>, rid: Id,
                                        nonce: Bytes, title: string, content: string, now: int,
                                        stage: Stage, left: set<Id>)
    returns (t: State)
    requires Inv(s) && Runs(s, h) && s.handlers[h] == Handler.Parsing(Creating, us, None) && rid !in s.minted
    requires stage.Committing? || stage.RowRefused? || stage.Finished?
    requires stage.Committing? ==> left <= Ids(us)
    requires stage.RowRefused? ==> stage.k < |us|
    ensures var commit := CommitCreate(h, rid, nonce, title, content, now, !stage.Committing?);
            Reaches(s, CreateSteps(h, us, stage, commit, if stage.Finished? then {} else left), t) && Ends(s, t, h)
    ensures CreateEffect(stage, s.tables, t.tables, rid, s.cipher.seal(nonce, title, content), us, now)
    ensures FilesEffect(stage, us, left, s.files, t.files, left != {})
  {
    match stage
    case Finished => t := CreateFinished(s, h, us, rid, nonce, title, content, now);
    case RowRefused(k, undone) => t := CreateRefused(s, h, us, rid, nonce, title, content, now, k, undone, left);
    case Committing =>
      t := CreateCleaned(s, h, us, CommitCreate(h, rid, nonce, title, content, now, false), left);
  }

  // ----- An update -----

  lemma {:induction false} Updated(s: State, h: Hid, us: seq<Upload>, target: Id, row: Record,
                                   nonce: Bytes, title: string, content: string, now: int)
    requires Inv(s) && Runs(s, h)
    requires s.handlers[h] == Handler.Parsing(Updating(target, row.blob, row.updatedAt), us, None)
    requires target in s.tables.records
    ensures var s1 := Next(s, CommitUpdate(h, nonce, title, content, now, true));
            && Inv(s1) && Runs(s1, h) && s1.files == s.files && s1.tmp == s.tmp && s1.cipher == s.cipher
            && s1.minted == s.minted
            && s1.handlers == s.handlers[h := Inserting(Restore(target, row.blob, row.updatedAt), us, now)]
            && s1.tables == SetBlob(s.tables, target, s.cipher.seal(nonce, title, content), now)
  {
    Sealed(s, nonce, title, content);
    CommitUpdateInv(s, h, s.cipher.seal(nonce, title, content), now, true);
  }

  lemma {:induction false} UpdateFinished(s: State, h: Hid, us: seq<Upload>, target: Id, row: Record,
                                          nonce: Bytes, title: string, content: string, now: int)
    returns (t: State)
    requires Inv(s) && Runs(s, h)
    requires s.handlers[h] == Handler.Parsing(Updating(target, row.blob, row.updatedAt), us, None)
    requires target in s.tables.records
    ensures Reaches(s, CreateSteps(h, us, Finished, CommitUpdate(h, nonce, title, content, now, true), {}), t)
    ensures Ends(s, t, h) && t.files == s.files
    ensures UpdateEffect(Finished, s.tables, t.tables, target, row, s.cipher.seal(nonce, title, content), us, now)
  {
    var commit := CommitUpdate(h, nonce, title, content, now, true);
    var s1 := Next(s, commit);
    Updated(s, h, us, target, row, nonce, title, content, now);
    t := RowsRun(s1, h);
    AfterCommit(s, commit, InsertSteps(h, |us|) + [Send(h)], t);
  }

  lemma {:induction false} UpdateRefused(s: State, h: Hid, us: seq<Upload>, target: Id, row: Record,
                                         nonce: Bytes, title: string, content: string, now: int,
                                         k: nat, undone: bool, left: set<Id>)
    returns (t: State)
    requires Inv(s) && Runs(s, h) && k < |us|
    requires s.handlers[h] == Handler.Parsing(Updating(target, row.blob, row.updatedAt), us, None)
    requires target in s.tables.records
    ensures var commit := CommitUpdate(h, nonce, title, content, now, true);
            Reaches(s, CreateSteps(h, us, RowRefused(k, undone), commit, left), t)
    ensures Ends(s, t, h) && t.files == if left == {} then s.files - {us[k].id} else s.files
    ensures UpdateEffect(RowRefused(k, undone), s.tables, t.tables, target, row,
                         s.cipher.seal(nonce, title, content), us, now)
  {
    var commit := CommitUpdate(h, nonce, title, content, now, true);
    Updated(s, h, us, target, row, nonce, title, content, now);
    t := RefusedRun(Next(s, commit), h, k, left == {}, undone);
    AfterCommit(s, commit, InsertSteps(h, k) + BackOutSteps(h, left == {}, undone), t);
    RestoredTables(s.tables, target, row, s.cipher.seal(nonce, title, content), us, now, k, undone);
  }

  lemma {:induction false} UpdateCleaned(s: State, h: Hid, us: seq<Upload>, commit: Step, left: set<Id>)
    returns (t: State)
    requires Inv(s) && Runs(s, h) && s.handlers[h].Parsing? && s.handlers[h].uploads == us
    requires commit.CommitUpdate? && Enabled(s, commit) && commit.h == h && !commit.ok
    ensures Reaches(s, [commit] + CleanSteps(h, us, left), t) && Ends(s, t, h)
    ensures t.tables == s.tables && t.files == s.files - (Ids(us) - left)
  {
    NoRowsYet(s, h);
    t := CleanRun(Next(s, commit), h, us, left);
    AfterCommit(s, commit, CleanSteps(h, us, left), t);
  }

  /** The same for an update, which may also find that its record has gone. */
  lemma {:induction false} UpdateIsARun(s: State, h: Hid, us: seq<Upload>, target: Id, row: Record,
                                        nonce: Bytes, title: string, content: string, now: int,
                                        stage: Stage, left: set<Id>)
    returns (t: State)
    requires Inv(s) && Runs(s, h)
    requires s.handlers[h] == Handler.Parsing(Updating(target, row.blob, row.updatedAt), us, None)
    requires stage.Committing? || stage.Vanished? || stage.RowRefused? || stage.Finished?
    requires stage.Committing? ==> left <= Ids(us)
    requires stage.RowRefused? ==> stage.k < |us|
    requires !stage.Committing? ==> (stage.Vanished? <==> target !in s.tables.records)
    ensures var commit := CommitUpdate(h, nonce, title, content, now, !stage.Committing?);
            if stage.Vanished? then Reaches(s, [commit], t)
            else Reaches(s, CreateSteps(h, us, stage, commit, if stage.Finished? then {} else left), t)
    ensures Ends(s, t, h)
    ensures UpdateEffect(stage, s.tables, t.tables, target, row, s.cipher.seal(nonce, title, content), us, now)
    ensures FilesEffect(stage, us, left, s.files, t.files, left != {})
  {
    match stage
    case Finished => t := UpdateFinished(s, h, us, target, row, nonce, title, content, now);
    case RowRefused(k, undone) =>
      t := UpdateRefused(s, h, us, target, row, nonce, title, content, now, k, undone, left);
    case Vanished =>
      Single(s, CommitUpdate(h, nonce, title, content, now, true));
      t := Next(s, CommitUpdate(h, nonce, title, content, now, true));
    case Committing => t := UpdateCleaned(s, h, us, CommitUpdate(h, nonce, title, content, now, false), left);
  }

  // ----- Deletions -----

  function EraseSteps(h: Hid, ids: seq<Id>, left: set<Id>): seq<Step> {
    if ids == [] then [] else [EraseOne(h, ids[0], ids[0] !in left)] + EraseSteps(h, ids[1..], left)
  }

  predicate NoneTwice(ids: seq<Id>) {
    forall i, j :: 0 <= i < j < |ids| ==> ids[i] != ids[j]
  }

  lemma {:induction false} ElementsTail(files: map<Id, Bytes>, ids: seq<Id>, left: set<Id>)
    requires ids != [] && NoneTwice(ids)
    ensures ids[0] in Elements(ids) && Elements(ids) - {ids[0]} == Elements(ids[1..])
    ensures files - (Elements(ids) - left)
            == (if ids[0] in left then files else files - {ids[0]}) - (Elements(ids[1..]) - left)
  {
    assert ids == [ids[0]] + ids[1..];
    assert Elements(ids) == {ids[0]} + Elements(ids[1..]);
  }

  lemma {:induction false} ErasedOne(s: State, h: Hid, id: Id, ok: bool)
    requires Runs(s, h) && s.handlers[h].Erasing? && id in s.handlers[h].files
    ensures var p := s.handlers[h];
            var s1 := NextEraseOne(s, h, id, ok);
            && s1.handlers == s.handlers[h := Erasing(p.files - {id}, p.touch)] && s1.tables == s.tables
            && s1.tmp == s.tmp && s1.phase == s.phase && s1.cipher == s.cipher
            && s1.files == (if ok then s.files - {id} else s.files)
  {
  }

  lemma {:induction false} EraseRun(s: State, h: Hid, ids: seq<Id>, left: set<Id>) returns (t: State)
    requires Runs(s, h) && s.handlers[h].Erasing? && s.handlers[h].files == Elements(ids) && NoneTwice(ids)
    ensures Reaches(s, EraseSteps(h, ids, left), t) && t.files == s.files - (Elements(ids) - left)
    ensures t.handlers == s.handlers[h := Erasing({}, s.handlers[h].touch)]
    ensures t.tables == s.tables && t.tmp == s.tmp && t.phase == s.phase && t.cipher == s.cipher
    decreases |ids|
  {
    if ids == [] {
      t := s;
      assert s.handlers[h] == Erasing({}, s.handlers[h].touch);
    } else {
      var ok := ids[0] !in left;
      ElementsTail(s.files, ids, left);
      ErasedOne(s, h, ids[0], ok);
      Single(s, EraseOne(h, ids[0], ok));
      t := EraseRun(NextEraseOne(s, h, ids[0], ok), h, ids[1..], left);
      Join(s, [EraseOne(h, ids[0], ok)], NextEraseOne(s, h, ids[0], ok), EraseSteps(h, ids[1..], left), t);
    }
  }

  /** A deletion: the record and its rows, then the files one by one in the order given, then the event. */
  lemma {:induction false} DeleteIsARun(s: State, h: Hid, target: Id, ids: seq<Id>, left: set<Id>) returns (t: State)
    requires Runs(s, h) && s.handlers[h] == Deleting(target) && target in s.tables.records
    requires NoneTwice(ids) && Elements(ids) == ChildrenOf(s.tables, target)
    ensures Reaches(s, [CommitDelete(h, true)] + (EraseSteps(h, ids, left) + [Send(h)]), t) && Ends(s, t, h)
    ensures t.tables == DropRecord(s.tables, target) && t.files == s.files - (ChildrenOf(s.tables, target) - left)
  {
    var s1 := NextCommitDelete(s, h);
    assert s1.handlers[h] == Erasing(Elements(ids), None);
    var s2 := EraseRun(s1, h, ids, left);
    Then(s1, EraseSteps(h, ids, left), s2, Send(h));
    t := Done(s2, h);
    AfterCommit(s, CommitDelete(h, true), EraseSteps(h, ids, left) + [Send(h)], t);
  }

  lemma {:induction false} StampRun(s: State, h: Hid, target: Id, now: int, stamped: bool) returns (t: State)
    requires Runs(s, h) && s.handlers[h] == Erasing({}, Some(target))
    ensures Reaches(s, [TouchRow(h, now, stamped)] + (if stamped then [Send(h)] else []), t) && Ends(s, t, h)
    ensures t.files == s.files && t.tables == if stamped then Touch(s.tables, target, now) else s.tables
  {
    Single(s, TouchRow(h, now, stamped));
    if stamped {
      var s1 := NextTouchRow(s, h, now);
      Then(s, [TouchRow(h, now, true)], s1, Send(h));
      t := Done(s1, h);
    } else {
      t := Done(s, h);
      assert [TouchRow(h, now, stamped)] + [] == [TouchRow(h, now, stamped)];
    }
  }

  /** Deleting an attachment: row, file, stamp, and the event only if the stamp could be written. */
  lemma {:induction false} DetachIsARun(s: State, h: Hid, target: Id, a: Id, gone: bool, now: int, stamped: bool)
    returns (t: State)
    requires Runs(s, h) && s.handlers[h] == Detaching(target, a) && Belongs(s.tables, target, a)
    ensures Reaches(s, [CommitDetach(h, true)] + ([EraseOne(h, a, gone)]
                       + ([TouchRow(h, now, stamped)] + (if stamped then [Send(h)] else []))), t)
    ensures Ends(s, t, h) && t.files == if gone then s.files - {a} else s.files
    ensures var dropped := DropAttachment(s.tables, target, a);
            t.tables == if stamped then Touch(dropped, target, now) else dropped
  {
    var s1 := NextCommitDetach(s, h);
    assert s1.handlers[h] == Erasing({a}, Some(target));
    ErasedOne(s1, h, a, gone);
    var s2 := NextEraseOne(s1, h, a, gone);
    assert s2.handlers[h] == Erasing({}, Some(target));
    t := StampRun(s2, h, target, now, stamped);
    AfterCommit(s1, EraseOne(h, a, gone), [TouchRow(h, now, stamped)] + (if stamped then [Send(h)] else []), t);
    AfterCommit(s, CommitDetach(h, true),
                [EraseOne(h, a, gone)] + ([TouchRow(h, now, stamped)] + (if stamped then [Send(h)] else [])), t);
  }
}
