/** Runs without the failures that end a request silently: none of their changes stays
    unannounced, however deletions and inserts of rows interleave. */
module ProtocolUndisturbed {
  import opened Schema
  import opened Protocol
  import opened ProtocolInvariant
  import opened ProtocolNotify

  /** The two calls after a commit whose errors end the request do not fail, and nobody is
      dropped who has an event to send.  Everything else may: crashes and restarts, errors of
      files and of all other calls, drops before the commit, rows refused by the foreign key. */
  predicate Undisturbed(s: State, st: Step)
    requires st.Drop? ==> st.h in s.handlers
  {
    && (st.InsertOne? ==> st.ok)
    && (st.TouchRow? ==> st.ok)
    && (st.Drop? ==> !WillSend(s.handlers[st.h]))
  }

  ghost predicate UndisturbedRun(s: State, steps: seq<Step>)
    requires Run(s, steps)
    decreases |steps|
  {
    steps != [] ==> Undisturbed(s, steps[0]) && UndisturbedRun(Next(s, steps[0]), steps[1..])
  }

  // ----- Who answers for the latest change -----

  /** The request will send its event unless its record is deleted, by somebody who then answers. */
  predicate Vouches(s: State, h: Hid) {
    h in s.handlers
    && (s.handlers[h].Erasing? || (s.handlers[h].Inserting? && s.handlers[h].undo.rid in s.tables.records))
  }

  ghost predicate Vouched(s: State, owed: bool) {
    owed ==> exists h :: Vouches(s, h)
  }

  /** A request backs out only because its record has gone. */
  predicate BacksOutRightly(s: State, h: Hid) {
    h in s.handlers && (s.handlers[h].Unwinding? || s.handlers[h].RollingBack?) ==>
      s.handlers[h].undo.rid in s.minted && s.handlers[h].undo.rid !in s.tables.records
  }

  ghost predicate AllBackOutRightly(s: State) {
    forall h :: BacksOutRightly(s, h)
  }

  /** What an undisturbed step of request `h` does: it answers for its change, goes on answering
      unless it sends, and brings no record back. */
  ghost predicate Answers(s: State, s': State, h: Hid, sent: bool) {
    && s'.handlers - {h} == s.handlers - {h} && s.minted <= s'.minted
    && (s'.tables != s.tables ==> Vouches(s', h))
    && (!sent && Vouches(s, h) ==> Vouches(s', h))
    && BacksOutRightly(s', h)
    && (forall r :: r in s.minted && r in s'.tables.records ==> r in s.tables.records)
  }

  lemma {:induction false} AnswersKeeps(s: State, s': State, h: Hid, sent: bool, owed: bool)
    requires Answers(s, s', h, sent) && AllBackOutRightly(s) && Vouched(s, owed)
    ensures AllBackOutRightly(s')
    ensures !sent ==> Vouched(s', owed || s'.tables != s.tables)
  {
    forall g | g != h && g in s'.handlers ensures g in s.handlers && s'.handlers[g] == s.handlers[g] {
      assert g in s'.handlers - {h};
    }
    forall g ensures BacksOutRightly(s', g) {
      if g != h && g in s'.handlers {
        assert BacksOutRightly(s, g);
      }
    }
    if !sent && owed && s'.tables == s.tables {
      var g :| Vouches(s, g);
      if g != h {
        assert g in s.handlers - {h};
        assert Vouches(s', g);
      }
    }
  }

  // ----- Step by step -----

  lemma {:induction false} CommitCreateAnswers(s: State, h: Hid, rid: Id, blob: Bytes, now: int, ok: bool)
    requires Runs(s, h) && s.handlers[h].Parsing? && rid !in s.minted
    ensures Answers(s, NextCommitCreate(s, h, rid, blob, now, ok), h, false)
  {
  }

  lemma {:induction false} CommitUpdateAnswers(s: State, h: Hid, blob: Bytes, now: int, ok: bool)
    requires Runs(s, h) && s.handlers[h].Parsing? && s.handlers[h].goal.Updating?
    ensures Answers(s, NextCommitUpdate(s, h, blob, now, ok), h, false)
  {
  }

  /** A row goes in, or the foreign key refuses it because the record has gone. */
  lemma {:induction false} InsertOneAnswers(s: State, h: Hid)
    requires Inv(s) && Enabled(s, InsertOne(h, true))
    ensures Answers(s, NextInsertOne(s, h, true), h, false)
  {
    assert HandlerOk(s, h);
    if !RowGoesIn(s, h, true) {
      RefusedByForeignKey(s, h);
    }
  }

  /** Backing out of a record that has gone changes nothing. */
  lemma {:induction false} RollBackAnswers(s: State, h: Hid)
    requires Inv(s) && BacksOutRightly(s, h) && Enabled(s, RollBack(h, true))
    ensures Answers(s, NextRollBack(s, h), h, false)
  {
    RollBackChangesNothing(s, h);
  }

  lemma {:induction false} CommitDeleteAnswers(s: State, h: Hid)
    requires Runs(s, h) && s.handlers[h].Deleting?
    ensures Answers(s, NextCommitDelete(s, h), h, false)
  {
  }

  lemma {:induction false} CommitDetachAnswers(s: State, h: Hid)
    requires Runs(s, h) && s.handlers[h].Detaching?
    ensures Answers(s, NextCommitDetach(s, h), h, false)
  {
  }

  lemma {:induction false} TouchRowAnswers(s: State, h: Hid, now: int)
    requires Enabled(s, TouchRow(h, now, true))
    ensures Answers(s, NextTouchRow(s, h, now), h, false)
  {
  }

  lemma {:induction false} ReadRowAnswers(s: State, h: Hid, ok: bool)
    requires Enabled(s, ReadRow(h, ok))
    ensures Answers(s, NextReadRow(s, h, ok), h, false)
  {
  }

  lemma {:induction false} DoneAnswers(s: State, h: Hid, sent: bool)
    requires h in s.handlers && (sent || !WillSend(s.handlers[h]))
    ensures Answers(s, Done(s, h), h, sent)
  {
  }

  lemma {:induction false} TablesStepAnswers(s: State, st: Step)
    requires Inv(s) && Enabled(s, st) && OnTables(st) && Undisturbed(s, st) && BacksOutRightly(s, st.h)
    ensures Answers(s, Next(s, st), st.h, false)
  {
    match st
    case ReadRow(h, ok) => ReadRowAnswers(s, h, ok);
    case CommitCreate(h, rid, nonce, title, content, now, ok) =>
      CommitCreateAnswers(s, h, rid, s.cipher.seal(nonce, title, content), now, ok);
    case CommitUpdate(h, nonce, title, content, now, ok) =>
      CommitUpdateAnswers(s, h, s.cipher.seal(nonce, title, content), now, ok);
    case InsertOne(h, ok) => InsertOneAnswers(s, h);
    case RollBack(h, ok) => if ok { RollBackAnswers(s, h); } else { DoneAnswers(s, h, false); }
    case CommitDelete(h, ok) => if ok { CommitDeleteAnswers(s, h); } else { DoneAnswers(s, h, false); }
    case CommitDetach(h, ok) => if ok { CommitDetachAnswers(s, h); } else { DoneAnswers(s, h, false); }
    case TouchRow(h, now, ok) => TouchRowAnswers(s, h, now);
  }

  lemma {:induction false} ParseStepAnswers(s: State, st: Step)
    requires Enabled(s, st) && (st.OpenUpload? || st.WriteChunk? || st.Reject? || st.Finalize?)
    ensures Answers(s, Next(s, st), st.h, false)
  {
    match st
    case OpenUpload(h, id, ok) =>
    case WriteChunk(h, chunk, ok, kept) =>
    case Reject(h) =>
    case Finalize(h, filename, mime, ok) =>
  }

  lemma {:induction false} CleanupAnswers(s: State, st: Step)
    requires Enabled(s, st) && (st.AbortTemp? || st.CleanOne?)
    ensures Answers(s, Next(s, st), st.h, false)
  {
    match st
    case AbortTemp(h, ok) =>
    case CleanOne(h, ok) =>
  }

  lemma {:induction false} ErasureAnswers(s: State, st: Step)
    requires Enabled(s, st) && (st.UnwindFile? || st.EraseOne?) && BacksOutRightly(s, st.h)
    ensures Answers(s, Next(s, st), st.h, false)
  {
    match st
    case UnwindFile(h, ok) =>
    case EraseOne(h, id, ok) =>
  }

  lemma {:induction false} ArrivalAnswers(s: State, st: Step)
    requires Enabled(s, st) && !OnTables(st) && !OnFiles(st) && !st.Crash? && !st.ScanTemp? && !st.Restart?
    requires Undisturbed(s, st)
    ensures Answers(s, Next(s, st), st.h, st.Send?)
  {
  }

  lemma {:induction false} StepAnswers(s: State, st: Step)
    requires Inv(s) && Enabled(s, st) && Undisturbed(s, st) && AllBackOutRightly(s)
    requires !st.Crash? && !st.ScanTemp? && !st.Restart?
    ensures Answers(s, Next(s, st), st.h, st.Send?)
  {
    assert BacksOutRightly(s, st.h);
    if OnTables(st) {
      TablesStepAnswers(s, st);
    } else if st.AbortTemp? || st.CleanOne? {
      CleanupAnswers(s, st);
    } else if st.UnwindFile? || st.EraseOne? {
      ErasureAnswers(s, st);
    } else if OnFiles(st) {
      ParseStepAnswers(s, st);
    } else {
      ArrivalAnswers(s, st);
    }
  }

  lemma {:induction false} ProcessStepKeeps(s: State, st: Step, owed: bool)
    requires Enabled(s, st) && (st.Crash? || st.ScanTemp? || st.Restart?)
    requires AllBackOutRightly(s) && Vouched(s, owed)
    ensures AllBackOutRightly(Next(s, st)) && Vouched(Next(s, st), Owes(s, owed, st))
  {
    var s' := Next(s, st);
    if !st.Crash? {
      StartupKeepsAll(s, st);
      assert s'.minted == s.minted;
      forall h ensures BacksOutRightly(s', h) {
        assert BacksOutRightly(s, h);
      }
      if owed {
        var h :| Vouches(s, h);
        assert Vouches(s', h);
      }
    }
  }

  /** An undisturbed step leaves every change with somebody to announce it. */
  lemma {:induction false} UndisturbedStep(s: State, st: Step, owed: bool)
    requires Inv(s) && Enabled(s, st) && Undisturbed(s, st) && AllBackOutRightly(s) && Vouched(s, owed)
    ensures AllBackOutRightly(Next(s, st)) && Vouched(Next(s, st), Owes(s, owed, st))
  {
    if st.Crash? || st.ScanTemp? || st.Restart? {
      ProcessStepKeeps(s, st, owed);
    } else {
      StepAnswers(s, st);
      AnswersKeeps(s, Next(s, st), st.h, st.Send?, owed);
    }
  }

  lemma {:induction false} VouchedIsNotLost(s: State, owed: bool)
    requires Vouched(s, owed)
    ensures !Lost(s, owed)
  {
    if owed {
      var h :| Vouches(s, h);
      assert Sends(s, h);
    }
  }

  lemma {:induction false} UndisturbedKeeps(s: State, owed: bool, steps: seq<Step>)
    requires Inv(s) && AllBackOutRightly(s) && Vouched(s, owed)
    requires Run(s, steps) && UndisturbedRun(s, steps)
    ensures !Lost(After(s, steps), OwesAfter(s, owed, steps))
    decreases |steps|
  {
    if steps == [] {
      VouchedIsNotLost(s, owed);
    } else {
      UndisturbedStep(s, steps[0], owed);
      StepInv(s, steps[0]);
      UndisturbedKeeps(Next(s, steps[0]), Owes(s, owed, steps[0]), steps[1..]);
    }
  }

  /** In an undisturbed run from an empty directory no change is ever lost. */
  lemma {:induction false} UndisturbedRunsLoseNothing(s: State, steps: seq<Step>)
    requires Init(s) && Run(s, steps) && UndisturbedRun(s, steps)
    ensures !LosesAfter(s, false, false, steps)
  {
    InitInv(s);
    UndisturbedKeeps(s, false, steps);
    RunLosesExactly(s, false, steps);
  }
}
