/** Exactly when the blob a record has now is safe from requests that are already under way. */
module ProtocolSurvival {
  import opened Wrappers
  import opened Schema
  import opened Protocol
  import opened ProtocolInvariant
  import opened ProtocolBlobs
  import opened ProtocolWrites
  import opened ProtocolSolo
  import opened SoloRequests

  /** Request `h` may still write another blob back: it is an update of the record past its
      commit, and it has a row left to insert or is backing out already. */
  predicate ArmedBy(s: State, h: Hid, rid: Id, blob: Bytes) {
    h in s.handlers &&
    match s.handlers[h]
    case Inserting(Restore(r, b, _), us, _) => r == rid && b != blob && us != []
    case Unwinding(Restore(r, b, _), _) => r == rid && b != blob
    case RollingBack(Restore(r, b, _)) => r == rid && b != blob
    case _ => false
  }

  ghost predicate Armed(s: State, rid: Id, blob: Bytes) {
    exists h :: ArmedBy(s, h, rid, blob)
  }

  /** No update overwrites the record. */
  ghost predicate NoOverwrite(s: State, steps: seq<Step>, rid: Id)
    requires Run(s, steps)
    decreases |steps|
  {
    steps != [] ==>
      !(steps[0].CommitUpdate? && Writes(s, steps[0], rid).Some?)
      && NoOverwrite(Next(s, steps[0]), steps[1..], rid)
  }

  // ----- Without a request that is armed the blob stays -----

  /** Request `h` alone moved and did not become armed. */
  ghost predicate StaysUnarmed(s: State, s': State, h: Hid, rid: Id, blob: Bytes) {
    s'.handlers - {h} == s.handlers - {h} && (ArmedBy(s', h, rid, blob) ==> ArmedBy(s, h, rid, blob))
  }

  lemma {:induction false} UnarmedElsewhere(s: State, s': State, h: Hid, rid: Id, blob: Bytes)
    requires StaysUnarmed(s, s', h, rid, blob) && !Armed(s, rid, blob)
    ensures !Armed(s', rid, blob)
  {
    forall g ensures !ArmedBy(s', g, rid, blob) {
      if g != h && g in s'.handlers {
        assert g in s'.handlers - {h};
        assert g in s.handlers && s.handlers[g] == s'.handlers[g];
        assert !ArmedBy(s, g, rid, blob);
      }
    }
  }

  lemma {:induction false} CommitUnarmed(s: State, h: Hid, blob: Bytes, now: int, ok: bool, rid: Id, b: Bytes)
    requires Runs(s, h) && s.handlers[h].Parsing? && s.handlers[h].goal.Updating?
    requires ok && s.handlers[h].goal.target == rid ==> rid !in s.tables.records
    ensures StaysUnarmed(s, NextCommitUpdate(s, h, blob, now, ok), h, rid, b)
  {
  }

  lemma {:induction false} InsertUnarmed(s: State, h: Hid, ok: bool, rid: Id, b: Bytes)
    requires Enabled(s, InsertOne(h, ok))
    ensures StaysUnarmed(s, NextInsertOne(s, h, ok), h, rid, b)
  {
  }

  lemma {:induction false} CreateUnarmed(s: State, h: Hid, r: Id, blob: Bytes, now: int, ok: bool, rid: Id, b: Bytes)
    requires Runs(s, h) && s.handlers[h].Parsing?
    ensures StaysUnarmed(s, NextCommitCreate(s, h, r, blob, now, ok), h, rid, b)
  {
  }

  lemma {:induction false} DeletionUnarmed(s: State, st: Step, rid: Id, b: Bytes)
    requires Enabled(s, st) && (st.CommitDelete? || st.CommitDetach?)
    ensures StaysUnarmed(s, Next(s, st), st.h, rid, b)
  {
    match st
    case CommitDelete(h, ok) =>
    case CommitDetach(h, ok) =>
  }

  lemma {:induction false} OtherCallUnarmed(s: State, st: Step, rid: Id, b: Bytes)
    requires Enabled(s, st) && (st.ReadRow? || st.RollBack? || st.TouchRow?)
    ensures StaysUnarmed(s, Next(s, st), st.h, rid, b)
  {
    match st
    case ReadRow(h, ok) =>
    case RollBack(h, ok) =>
    case TouchRow(h, now, ok) =>
  }

  lemma {:induction false} TablesUnarmed(s: State, st: Step, rid: Id, b: Bytes)
    requires Enabled(s, st) && OnTables(st) && rid in s.tables.records
    requires !(st.CommitUpdate? && Writes(s, st, rid).Some?)
    ensures StaysUnarmed(s, Next(s, st), st.h, rid, b)
  {
    match st
    case CommitCreate(h, r, nonce, title, content, now, ok) =>
      CreateUnarmed(s, h, r, s.cipher.seal(nonce, title, content), now, ok, rid, b);
    case CommitUpdate(h, nonce, title, content, now, ok) =>
      CommitUnarmed(s, h, s.cipher.seal(nonce, title, content), now, ok, rid, b);
    case InsertOne(h, ok) => InsertUnarmed(s, h, ok, rid, b);
    case CommitDelete(_, _) => DeletionUnarmed(s, st, rid, b);
    case CommitDetach(_, _) => DeletionUnarmed(s, st, rid, b);
    case _ => OtherCallUnarmed(s, st, rid, b);
  }

  lemma {:induction false} ParseUnarmed(s: State, st: Step, rid: Id, b: Bytes)
    requires Enabled(s, st) && (st.OpenUpload? || st.WriteChunk? || st.Reject? || st.Finalize?)
    ensures StaysUnarmed(s, Next(s, st), st.h, rid, b)
  {
    match st
    case OpenUpload(h, id, ok) =>
    case WriteChunk(h, chunk, ok, kept) =>
    case Reject(h) =>
    case Finalize(h, filename, mime, ok) =>
  }

  lemma {:induction false} CleanupUnarmed(s: State, st: Step, rid: Id, b: Bytes)
    requires Enabled(s, st) && (st.AbortTemp? || st.CleanOne?)
    ensures StaysUnarmed(s, Next(s, st), st.h, rid, b)
  {
    match st
    case AbortTemp(h, ok) =>
    case CleanOne(h, ok) =>
  }

  lemma {:induction false} ErasureUnarmed(s: State, st: Step, rid: Id, b: Bytes)
    requires Enabled(s, st) && (st.UnwindFile? || st.EraseOne?)
    ensures StaysUnarmed(s, Next(s, st), st.h, rid, b)
  {
    match st
    case UnwindFile(h, ok) =>
    case EraseOne(h, id, ok) =>
  }

  lemma {:induction false} FilesUnarmed(s: State, st: Step, rid: Id, b: Bytes)
    requires Enabled(s, st) && OnFiles(st)
    ensures StaysUnarmed(s, Next(s, st), st.h, rid, b)
  {
    if st.AbortTemp? || st.CleanOne? {
      CleanupUnarmed(s, st, rid, b);
    } else if st.UnwindFile? || st.EraseOne? {
      ErasureUnarmed(s, st, rid, b);
    } else {
      ParseUnarmed(s, st, rid, b);
    }
  }

  lemma {:induction false} OthersUnarmed(s: State, st: Step, rid: Id, b: Bytes)
    requires Enabled(s, st) && !OnTables(st) && !OnFiles(st) && !st.Crash? && !st.ScanTemp? && !st.Restart?
    ensures StaysUnarmed(s, Next(s, st), st.h, rid, b)
  {
  }

  lemma {:induction false} ProcessUnarmed(s: State, st: Step, rid: Id, b: Bytes)
    requires Enabled(s, st) && (st.Crash? || st.ScanTemp? || st.Restart?) && !Armed(s, rid, b)
    ensures !Armed(Next(s, st), rid, b)
  {
    forall h ensures !ArmedBy(Next(s, st), h, rid, b) {
      assert !ArmedBy(s, h, rid, b);
    }
  }

  lemma {:induction false} StepUnarmed(s: State, st: Step, rid: Id, b: Bytes)
    requires Enabled(s, st) && rid in s.tables.records && !Armed(s, rid, b)
    requires !(st.CommitUpdate? && Writes(s, st, rid).Some?)
    ensures !Armed(Next(s, st), rid, b)
  {
    if st.Crash? || st.ScanTemp? || st.Restart? {
      ProcessUnarmed(s, st, rid, b);
    } else {
      if OnTables(st) {
        TablesUnarmed(s, st, rid, b);
      } else if OnFiles(st) {
        FilesUnarmed(s, st, rid, b);
      } else {
        OthersUnarmed(s, st, rid, b);
      }
      UnarmedElsewhere(s, Next(s, st), st.h, rid, b);
    }
  }

  /** The only step left that could write to the record is a rollback, which is not armed. */
  lemma {:induction false} StepKeepsBlob(s: State, st: Step, rid: Id, blob: Bytes)
    requires Enabled(s, st) && BlobAt(s.tables, rid) == Some(blob) && !Armed(s, rid, blob)
    requires !(st.CommitUpdate? && Writes(s, st, rid).Some?)
    ensures BlobAt(Next(s, st).tables, rid) in {None, Some(blob)}
  {
    StepWrites(s, st, rid);
    if st.RollBack? {
      assert !ArmedBy(s, st.h, rid, blob);
    }
  }

  lemma {:induction false} UnarmedSurvives(s: State, steps: seq<Step>, rid: Id, blob: Bytes)
    requires Run(s, steps) && NoOverwrite(s, steps, rid)
    requires rid in s.minted && BlobAt(s.tables, rid) == Some(blob) && !Armed(s, rid, blob)
    ensures BlobAt(After(s, steps).tables, rid) in {None, Some(blob)}
    decreases |steps|
  {
    if steps != [] {
      var s1 := Next(s, steps[0]);
      StepKeepsBlob(s, steps[0], rid, blob);
      MintedGrows(s, steps[0]);
      if rid in s1.tables.records {
        StepUnarmed(s, steps[0], rid, blob);
        UnarmedSurvives(s1, steps[1..], rid, blob);
      } else {
        GoneForGood(s1, steps[1..], rid);
      }
    }
  }

  // ----- A request that is armed can write its blob back -----

  ghost predicate IsQuiet(steps: seq<Step>) {
    forall st :: st in steps ==> !st.CommitUpdate?
  }

  lemma {:induction false} QuietOverwritesNothing(s: State, steps: seq<Step>, rid: Id)
    requires Run(s, steps) && IsQuiet(steps)
    ensures NoOverwrite(s, steps, rid)
    decreases |steps|
  {
    if steps != [] {
      assert steps[0] in steps;
      QuietOverwritesNothing(Next(s, steps[0]), steps[1..], rid);
    }
  }

  /** The last step: the rollback call goes through. */
  lemma {:induction false} WrittenBack(s: State, h: Hid, rid: Id, old': Bytes)
    returns (t: State)
    requires Runs(s, h) && rid in s.tables.records
    requires s.handlers[h].RollingBack? && s.handlers[h].undo.Restore?
    requires s.handlers[h].undo.rid == rid && s.handlers[h].undo.oldBlob == old'
    ensures Reaches(s, [RollBack(h, true)], t) && BlobAt(t.tables, rid) == Some(old')
  {
    Single(s, RollBack(h, true));
    t := NextRollBack(s, h);
    RollBackWrites(s, h, rid);
  }

  lemma {:induction false} UnwoundAndWrittenBack(s: State, h: Hid, rid: Id, old': Bytes)
    returns (t: State)
    requires Runs(s, h) && rid in s.tables.records
    requires s.handlers[h].Unwinding? && s.handlers[h].undo.Restore?
    requires s.handlers[h].undo.rid == rid && s.handlers[h].undo.oldBlob == old'
    ensures Reaches(s, [UnwindFile(h, true)] + [RollBack(h, true)], t) && BlobAt(t.tables, rid) == Some(old')
  {
    var s1 := NextUnwindFile(s, h, true);
    t := WrittenBack(s1, h, rid, old');
    AfterCommit(s, UnwindFile(h, true), [RollBack(h, true)], t);
  }

  lemma {:induction false} RefusedAndWrittenBack(s: State, h: Hid, rid: Id, old': Bytes)
    returns (t: State)
    requires Inv(s) && Runs(s, h) && rid in s.tables.records
    requires s.handlers[h].Inserting? && s.handlers[h].undo.Restore? && s.handlers[h].uploads != []
    requires s.handlers[h].undo.rid == rid && s.handlers[h].undo.oldBlob == old'
    ensures Reaches(s, RefusalSteps(h, true) + [RollBack(h, true)], t) && BlobAt(t.tables, rid) == Some(old')
  {
    var s1 := FirstRefused(s, h, true);
    t := WrittenBack(s1, h, rid, old');
    Join(s, RefusalSteps(h, true), s1, [RollBack(h, true)], t);
  }

  lemma {:induction false} ArmedWritesBack(s: State, h: Hid, rid: Id, blob: Bytes) returns (steps: seq<Step>)
    requires Inv(s) && s.phase.Serving? && rid in s.tables.records && ArmedBy(s, h, rid, blob)
    ensures Run(s, steps) && IsQuiet(steps)
    ensures BlobAt(After(s, steps).tables, rid).Some? && BlobAt(After(s, steps).tables, rid) != Some(blob)
  {
    var b := s.handlers[h].undo.oldBlob;
    var t;
    if s.handlers[h].Inserting? {
      steps := RefusalSteps(h, true) + [RollBack(h, true)];
      t := RefusedAndWrittenBack(s, h, rid, b);
    } else if s.handlers[h].Unwinding? {
      steps := [UnwindFile(h, true)] + [RollBack(h, true)];
      t := UnwoundAndWrittenBack(s, h, rid, b);
    } else {
      steps := [RollBack(h, true)];
      t := WrittenBack(s, h, rid, b);
    }
  }

  // ----- Exactly -----

  /** After this run, without another update of the record, it has the blob or is gone. */
  ghost predicate Survives(s: State, steps: seq<Step>, rid: Id, blob: Bytes) {
    Run(s, steps) && NoOverwrite(s, steps, rid) ==> BlobAt(After(s, steps).tables, rid) in {None, Some(blob)}
  }

  /** What a record holds at some moment, such as when an update of it is answered, survives every
      run without a later update, up to the record's deletion, if and only if at that moment no
      other update of the record is past its commit with rows to insert or backing out, holding
      another blob to write back. */
  lemma {:induction false} BlobSurvivesExactly(s: State, rid: Id, blob: Bytes)
    requires Inv(s) && s.phase.Serving? && BlobAt(s.tables, rid) == Some(blob)
    ensures (forall steps :: Survives(s, steps, rid, blob)) <==> !Armed(s, rid, blob)
  {
    if Armed(s, rid, blob) {
      var h :| ArmedBy(s, h, rid, blob);
      var steps := ArmedWritesBack(s, h, rid, blob);
      QuietOverwritesNothing(s, steps, rid);
      assert !Survives(s, steps, rid, blob);
    } else {
      forall steps ensures Survives(s, steps, rid, blob) {
        if Run(s, steps) && NoOverwrite(s, steps, rid) {
          UnarmedSurvives(s, steps, rid, blob);
        }
      }
    }
  }
}
