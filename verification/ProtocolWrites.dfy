/** Whose write a record ends up with, over all interleavings of creates, updates, rollbacks and deletes. */
module ProtocolWrites {
  import opened Wrappers
  import opened Schema
  import opened Protocol
  import opened ProtocolInvariant
  import opened ProtocolBlobs

  /** The blob that a step writes to the record: its first, an update's, or a rollback's old one. */
  function Writes(s: State, st: Step, rid: Id): Option<Bytes>
    requires Enabled(s, st)
  {
    match st
    case CommitCreate(h, r, nonce, title, content, _, ok) =>
      if ok && r == rid && r !in s.tables.records then Some(s.cipher.seal(nonce, title, content)) else None
    case CommitUpdate(h, nonce, title, content, _, ok) =>
      if ok && s.handlers[h].goal.target == rid && rid in s.tables.records
      then Some(s.cipher.seal(nonce, title, content)) else None
    case RollBack(h, ok) =>
      var undo := s.handlers[h].undo;
      if ok && undo.Restore? && undo.rid == rid && rid in s.tables.records then Some(undo.oldBlob) else None
    case _ => None
  }

  /** The step deletes the record: a delete, or the rollback of its create. */
  predicate Deletes(s: State, st: Step, rid: Id)
    requires Enabled(s, st)
  {
    match st
    case CommitDelete(h, ok) => ok && s.handlers[h].target == rid && rid in s.tables.records
    case RollBack(h, ok) => ok && s.handlers[h].undo == Uncreate(rid) && rid in s.tables.records
    case _ => false
  }

  function BlobAt(t: Tables, rid: Id): Option<Bytes> {
    if rid in t.records then Some(t.records[rid].blob) else None
  }

  function Or(a: Option<Bytes>, b: Option<Bytes>): Option<Bytes> {
    if a.Some? then a else b
  }

  lemma {:induction false} CreateWrites(s: State, h: Hid, r: Id, blob: Bytes, now: int, ok: bool, rid: Id)
    requires Runs(s, h) && s.handlers[h].Parsing?
    ensures BlobAt(NextCommitCreate(s, h, r, blob, now, ok).tables, rid)
            == if ok && r == rid && r !in s.tables.records then Some(blob) else BlobAt(s.tables, rid)
  {
  }

  lemma {:induction false} UpdateWrites(s: State, h: Hid, blob: Bytes, now: int, ok: bool, rid: Id)
    requires Runs(s, h) && s.handlers[h].Parsing? && s.handlers[h].goal.Updating?
    ensures BlobAt(NextCommitUpdate(s, h, blob, now, ok).tables, rid)
            == if ok && s.handlers[h].goal.target == rid && rid in s.tables.records then Some(blob)
               else BlobAt(s.tables, rid)
  {
  }

  lemma {:induction false} RollBackWrites(s: State, h: Hid, rid: Id)
    requires Runs(s, h) && s.handlers[h].RollingBack?
    ensures var undo := s.handlers[h].undo;
            BlobAt(NextRollBack(s, h).tables, rid)
            == if undo.rid != rid || rid !in s.tables.records then BlobAt(s.tables, rid)
               else if undo.Restore? then Some(undo.oldBlob) else None
  {
  }

  lemma {:induction false} DeleteWrites(s: State, h: Hid, rid: Id)
    requires Runs(s, h) && s.handlers[h].Deleting?
    ensures BlobAt(NextCommitDelete(s, h).tables, rid)
            == if s.handlers[h].target == rid then None else BlobAt(s.tables, rid)
  {
  }

  lemma {:induction false} TouchWrites(s: State, h: Hid, now: int, rid: Id)
    requires Enabled(s, TouchRow(h, now, true))
    ensures BlobAt(NextTouchRow(s, h, now).tables, rid) == BlobAt(s.tables, rid)
  {
  }

  predicate IsWriter(st: Step) {
    st.CommitCreate? || st.CommitUpdate? || st.RollBack?
  }

  lemma {:induction false} WriterStep(s: State, st: Step, rid: Id)
    requires Enabled(s, st) && IsWriter(st)
    ensures BlobAt(Next(s, st).tables, rid)
            == if Deletes(s, st, rid) then None else Or(Writes(s, st, rid), BlobAt(s.tables, rid))
  {
    match st
    case CommitCreate(h, r, nonce, title, content, now, ok) =>
      CreateWrites(s, h, r, s.cipher.seal(nonce, title, content), now, ok, rid);
    case CommitUpdate(h, nonce, title, content, now, ok) =>
      UpdateWrites(s, h, s.cipher.seal(nonce, title, content), now, ok, rid);
    case RollBack(h, ok) => if ok { RollBackWrites(s, h, rid); }
  }

  lemma {:induction false} DeleteOrTouchStep(s: State, st: Step, rid: Id)
    requires Enabled(s, st) && (st.CommitDelete? || st.TouchRow?)
    ensures BlobAt(Next(s, st).tables, rid)
            == if Deletes(s, st, rid) then None else Or(Writes(s, st, rid), BlobAt(s.tables, rid))
  {
    match st
    case CommitDelete(h, ok) => if ok { DeleteWrites(s, h, rid); }
    case TouchRow(h, now, ok) => if ok { TouchWrites(s, h, now, rid); }
  }

  /** A step leaves the record deleted, with the blob it writes, or with the blob it had. */
  lemma {:induction false} StepWrites(s: State, st: Step, rid: Id)
    requires Enabled(s, st)
    ensures BlobAt(Next(s, st).tables, rid)
            == if Deletes(s, st, rid) then None else Or(Writes(s, st, rid), BlobAt(s.tables, rid))
  {
    if IsWriter(st) {
      WriterStep(s, st, rid);
    } else if st.CommitDelete? || st.TouchRow? {
      DeleteOrTouchStep(s, st, rid);
    } else if OnTables(st) {
      AttachmentStepRecords(s, st);
    } else {
      FileStepTables(s, st);
    }
  }

  /** The last write to the record over a run. */
  ghost function LastWrite(s: State, steps: seq<Step>, rid: Id): Option<Bytes>
    requires Run(s, steps)
    decreases |steps|
  {
    if steps == [] then None
    else Or(LastWrite(Next(s, steps[0]), steps[1..], rid), Writes(s, steps[0], rid))
  }

  ghost predicate DeletedOver(s: State, steps: seq<Step>, rid: Id)
    requires Run(s, steps)
    decreases |steps|
  {
    steps != [] && (Deletes(s, steps[0], rid) || DeletedOver(Next(s, steps[0]), steps[1..], rid))
  }

  /** At the end of a run a record that was there is gone if and only if a step deleted it, and
      otherwise has the blob of the last write. */
  lemma {:induction false} LastWriteWins(s: State, steps: seq<Step>, rid: Id)
    requires Run(s, steps) && rid in s.tables.records && rid in s.minted
    ensures BlobAt(After(s, steps).tables, rid)
            == if DeletedOver(s, steps, rid) then None else Or(LastWrite(s, steps, rid), BlobAt(s.tables, rid))
    decreases |steps|
  {
    if steps != [] {
      StepWrites(s, steps[0], rid);
      MintedGrows(s, steps[0]);
      if Deletes(s, steps[0], rid) {
        GoneForGood(Next(s, steps[0]), steps[1..], rid);
      } else {
        LastWriteWins(Next(s, steps[0]), steps[1..], rid);
      }
    }
  }

  /** The blob of an update that went through is the record's at the end of a run if and only if
      no later step deletes the record and the last later write, if any, is of the same blob.
      Rollbacks of other updates are such writes. */
  lemma {:induction false} UpdateSurvivesExactly(s: State, st: Step, steps: seq<Step>, rid: Id, blob: Bytes)
    requires Inv(s) && Enabled(s, st) && st.CommitUpdate? && Writes(s, st, rid) == Some(blob)
    requires Run(Next(s, st), steps)
    ensures BlobAt(After(Next(s, st), steps).tables, rid) == Some(blob)
            <==> !DeletedOver(Next(s, st), steps, rid)
                 && LastWrite(Next(s, st), steps, rid) in {None, Some(blob)}
  {
    StepWrites(s, st, rid);
    MintedGrows(s, st);
    LastWriteWins(Next(s, st), steps, rid);
  }
}
