/** Which changes of the tables are announced, and exactly at which steps one stops being. */
module ProtocolNotify {
  import opened Schema
  import opened Protocol
  import opened ProtocolInvariant

  /** Past its commit and bound for `events.send`. */
  predicate WillSend(p: Handler) {
    p.Inserting? || p.Erasing?
  }

  predicate Sends(s: State, h: Hid) {
    h in s.handlers && WillSend(s.handlers[h])
  }

  /** Some request has an event to send. */
  ghost predicate Pledged(s: State) {
    exists h :: Sends(s, h)
  }

  /** No other request has. */
  ghost predicate Alone(s: State, h: Hid) {
    forall g :: Sends(s, g) ==> g == h
  }

  /** Whether the tables have changed since the last event.  A crash cuts every
      stream, so nobody is left to wait for one. */
  ghost predicate Owes(s: State, owed: bool, st: Step)
    requires Enabled(s, st)
  {
    !st.Send? && !st.Crash? && (owed || Next(s, st).tables != s.tables)
  }

  /** A change that nobody is going to announce. */
  ghost predicate Lost(s: State, owed: bool) {
    owed && !Pledged(s)
  }

  /** The exits past a commit that send no event: the request is dropped, a row is
      refused, the stamp cannot be written, or a rollback changes the tables again. */
  ghost predicate SilentExit(s: State, st: Step)
    requires Enabled(s, st)
  {
    match st
    case Drop(h) => WillSend(s.handlers[h])
    case InsertOne(h, ok) => !RowGoesIn(s, h, ok)
    case TouchRow(_, _, ok) => !ok
    case RollBack(h, ok) => ok && Undone(s.tables, s.handlers[h].undo) != s.tables
    case _ => false
  }

  /** The step loses a change: a silent exit with a change to announce and nobody else to do it. */
  ghost predicate Loses(s: State, owed: bool, st: Step)
    requires Enabled(s, st)
  {
    SilentExit(s, st) && Alone(s, st.h) && Owes(s, owed, st)
  }

  /** The step takes a request past a commit, so that an event will follow. */
  ghost predicate Commits(s: State, st: Step)
    requires Enabled(s, st)
  {
    match st
    case CommitCreate(_, rid, _, _, _, _, ok) => ok && rid !in s.tables.records
    case CommitUpdate(h, _, _, _, _, ok) => ok && s.handlers[h].goal.target in s.tables.records
    case CommitDelete(h, ok) => ok && s.handlers[h].target in s.tables.records
    case CommitDetach(h, ok) => ok && Belongs(s.tables, s.handlers[h].target, s.handlers[h].attachment)
    case _ => false
  }

  // ----- What one step does to the pledges -----

  /** Only request `h` moved.  It keeps its pledge unless it sends or leaves silently, and
      gains one exactly by committing; a change without a pledge is silent. */
  ghost predicate Shape(s: State, s': State, h: Hid, sent: bool, silent: bool, commits: bool) {
    && s'.handlers - {h} == s.handlers - {h}
    && (!sent && !silent ==> (Sends(s', h) <==> Sends(s, h) || commits))
    && (sent || silent ==> !Sends(s', h) && !commits)
    && (!silent && !Sends(s', h) ==> s'.tables == s.tables)
    && (sent ==> s'.tables == s.tables)
  }

  lemma {:induction false} CommitCreateShape(s: State, h: Hid, rid: Id, blob: Bytes, now: int, ok: bool)
    requires Runs(s, h) && s.handlers[h].Parsing?
    ensures Shape(s, NextCommitCreate(s, h, rid, blob, now, ok), h, false, false, ok && rid !in s.tables.records)
  {
  }

  lemma {:induction false} CommitUpdateShape(s: State, h: Hid, blob: Bytes, now: int, ok: bool)
    requires Runs(s, h) && s.handlers[h].Parsing? && s.handlers[h].goal.Updating?
    ensures Shape(s, NextCommitUpdate(s, h, blob, now, ok), h, false, false,
                  ok && s.handlers[h].goal.target in s.tables.records)
  {
  }

  lemma {:induction false} InsertOneShape(s: State, h: Hid, ok: bool)
    requires Enabled(s, InsertOne(h, ok))
    ensures Shape(s, NextInsertOne(s, h, ok), h, false, !RowGoesIn(s, h, ok), false)
  {
  }

  lemma {:induction false} RollBackShape(s: State, h: Hid)
    requires Runs(s, h) && s.handlers[h].RollingBack?
    ensures Shape(s, NextRollBack(s, h), h, false, Undone(s.tables, s.handlers[h].undo) != s.tables, false)
  {
  }

  lemma {:induction false} CommitDeleteShape(s: State, h: Hid)
    requires Runs(s, h) && s.handlers[h].Deleting?
    ensures Shape(s, NextCommitDelete(s, h), h, false, false, s.handlers[h].target in s.tables.records)
  {
  }

  lemma {:induction false} CommitDetachShape(s: State, h: Hid)
    requires Runs(s, h) && s.handlers[h].Detaching?
    ensures Shape(s, NextCommitDetach(s, h), h, false, false,
                  Belongs(s.tables, s.handlers[h].target, s.handlers[h].attachment))
  {
  }

  lemma {:induction false} TouchRowShape(s: State, h: Hid, now: int)
    requires Enabled(s, TouchRow(h, now, true))
    ensures Shape(s, NextTouchRow(s, h, now), h, false, false, false)
  {
  }

  lemma {:induction false} ReadRowShape(s: State, h: Hid, ok: bool)
    requires Enabled(s, ReadRow(h, ok))
    ensures Shape(s, NextReadRow(s, h, ok), h, false, false, false)
  {
  }

  lemma {:induction false} DoneShape(s: State, h: Hid, sent: bool)
    requires h in s.handlers
    ensures Shape(s, Done(s, h), h, sent && Sends(s, h), !sent && Sends(s, h), false)
  {
  }

  lemma {:induction false} TablesShape(s: State, st: Step)
    requires Enabled(s, st) && OnTables(st)
    ensures Shape(s, Next(s, st), st.h, false, SilentExit(s, st), Commits(s, st))
  {
    match st
    case ReadRow(h, ok) => ReadRowShape(s, h, ok);
    case CommitCreate(h, rid, nonce, title, content, now, ok) =>
      CommitCreateShape(s, h, rid, s.cipher.seal(nonce, title, content), now, ok);
    case CommitUpdate(h, nonce, title, content, now, ok) =>
      CommitUpdateShape(s, h, s.cipher.seal(nonce, title, content), now, ok);
    case InsertOne(h, ok) => InsertOneShape(s, h, ok);
    case RollBack(h, ok) => if ok { RollBackShape(s, h); } else { DoneShape(s, h, false); }
    case CommitDelete(h, ok) => if ok { CommitDeleteShape(s, h); } else { DoneShape(s, h, false); }
    case CommitDetach(h, ok) => if ok { CommitDetachShape(s, h); } else { DoneShape(s, h, false); }
    case TouchRow(h, now, ok) => if ok { TouchRowShape(s, h, now); } else { DoneShape(s, h, false); }
  }

  lemma {:induction false} ParseShape(s: State, st: Step)
    requires Enabled(s, st) && (st.OpenUpload? || st.WriteChunk? || st.Reject? || st.Finalize?)
    ensures Shape(s, Next(s, st), st.h, false, false, false)
  {
    match st
    case OpenUpload(h, id, ok) =>
    case WriteChunk(h, chunk, ok, kept) =>
    case Reject(h) =>
    case Finalize(h, filename, mime, ok) =>
  }

  lemma {:induction false} CleanupShape(s: State, st: Step)
    requires Enabled(s, st) && (st.AbortTemp? || st.CleanOne?)
    ensures Shape(s, Next(s, st), st.h, false, false, false)
  {
    match st
    case AbortTemp(h, ok) =>
    case CleanOne(h, ok) =>
  }

  lemma {:induction false} ErasureShape(s: State, st: Step)
    requires Enabled(s, st) && (st.UnwindFile? || st.EraseOne?)
    ensures Shape(s, Next(s, st), st.h, false, false, false)
  {
    match st
    case UnwindFile(h, ok) =>
    case EraseOne(h, id, ok) =>
  }

  lemma {:induction false} ArrivalShape(s: State, st: Step)
    requires Enabled(s, st) && !OnTables(st) && !OnFiles(st) && !st.Crash? && !st.ScanTemp? && !st.Restart?
    ensures Shape(s, Next(s, st), st.h, st.Send?, SilentExit(s, st), false)
  {
  }

  lemma {:induction false} StepShape(s: State, st: Step)
    requires Enabled(s, st) && !st.Crash? && !st.ScanTemp? && !st.Restart?
    ensures Shape(s, Next(s, st), st.h, st.Send?, SilentExit(s, st), Commits(s, st))
  {
    if OnTables(st) {
      TablesShape(s, st);
    } else if st.AbortTemp? || st.CleanOne? {
      CleanupShape(s, st);
    } else if st.UnwindFile? || st.EraseOne? {
      ErasureShape(s, st);
    } else if OnFiles(st) {
      ParseShape(s, st);
    } else {
      ArrivalShape(s, st);
    }
  }

  /** Who has an event to send after a step of request `h`. */
  lemma {:induction false} PledgedAfter(s: State, s': State, h: Hid)
    requires s'.handlers - {h} == s.handlers - {h}
    ensures Pledged(s') <==> Sends(s', h) || !Alone(s, h)
  {
    forall g | g != h ensures Sends(s', g) <==> Sends(s, g) {
      assert g in s'.handlers <==> g in s'.handlers - {h};
      assert g in s.handlers <==> g in s.handlers - {h};
    }
    if Pledged(s') && !Sends(s', h) {
      var g :| Sends(s', g);
      assert Sends(s, g) && g != h;
    }
    if !Alone(s, h) {
      var g :| Sends(s, g) && g != h;
      assert Sends(s', g);
    }
  }

  lemma {:induction false} PledgedBefore(s: State, h: Hid)
    ensures Pledged(s) <==> Sends(s, h) || !Alone(s, h)
  {
    if Pledged(s) && !Sends(s, h) {
      var g :| Sends(s, g);
      assert g != h;
    }
  }

  // ----- Exactly where a change is lost -----

  /** The sweep and the restart move no row and no request. */
  lemma {:induction false} StartupKeepsAll(s: State, st: Step)
    requires Enabled(s, st) && (st.ScanTemp? || st.Restart?)
    ensures Next(s, st).tables == s.tables && Next(s, st).handlers == s.handlers
  {
  }

  /** From a state in which every change has somebody to announce it, a step leads to
      one in which a change has nobody if and only if it is a silent exit, no other
      request has an event to send, and the tables have changed since the last event. */
  lemma {:induction false} LosesExactly(s: State, owed: bool, st: Step)
    requires Enabled(s, st) && !Lost(s, owed)
    ensures Lost(Next(s, st), Owes(s, owed, st)) <==> Loses(s, owed, st)
  {
    if st.ScanTemp? || st.Restart? {
      StartupKeepsAll(s, st);
      assert Pledged(s) ==> Pledged(Next(s, st)) by {
        if Pledged(s) {
          var h :| Sends(s, h);
          assert Sends(Next(s, st), h);
        }
      }
    } else if !st.Crash? {
      StepShape(s, st);
      PledgedBefore(s, st.h);
      PledgedAfter(s, Next(s, st), st.h);
    }
  }

  /** A lost change stays lost until a request commits, whose event covers it, or the
      process crashes, after which every list is fetched again. */
  lemma {:induction false} RecoversExactly(s: State, owed: bool, st: Step)
    requires Enabled(s, st) && Lost(s, owed)
    ensures !Lost(Next(s, st), Owes(s, owed, st)) <==> st.Crash? || Commits(s, st)
  {
    if st.ScanTemp? || st.Restart? {
      StartupKeepsAll(s, st);
      assert !Pledged(Next(s, st)) by {
        if Pledged(Next(s, st)) {
          var h :| Sends(Next(s, st), h);
          assert Sends(s, h);
        }
      }
    } else if !st.Crash? {
      assert !Sends(s, st.h);
      StepShape(s, st);
      PledgedAfter(s, Next(s, st), st.h);
    }
  }

  /** When the database itself does not fail, a row is refused only because its record was
      deleted meanwhile. */
  lemma {:induction false} RefusedByForeignKey(s: State, h: Hid)
    requires Inv(s) && Enabled(s, InsertOne(h, true)) && !RowGoesIn(s, h, true)
    ensures s.handlers[h].undo.rid !in s.tables.records
  {
    var id := s.handlers[h].uploads[0].id;
    assert id in Owned(s.handlers[h]) && HandlerOk(s, h) && IdOk(s, id);
  }

  /** The rollback after such a refusal changes nothing, so it is not a silent exit. */
  lemma {:induction false} RollBackChangesNothing(s: State, h: Hid)
    requires Inv(s) && Enabled(s, RollBack(h, true)) && s.handlers[h].undo.rid !in s.tables.records
    ensures NextRollBack(s, h).tables == s.tables && !SilentExit(s, RollBack(h, true))
  {
    assert ChildrenOf(s.tables, s.handlers[h].undo.rid) == {};
    assert s.tables.records - {s.handlers[h].undo.rid} == s.tables.records;
  }

  // ----- Over whole runs -----

  /** Whether the run ends with a change since the last event. */
  ghost predicate OwesAfter(s: State, owed: bool, steps: seq<Step>)
    requires Run(s, steps)
    decreases |steps|
  {
    if steps == [] then owed else OwesAfter(Next(s, steps[0]), Owes(s, owed, steps[0]), steps[1..])
  }

  /** Whether the last step that loses a change is followed by no commit and no crash. */
  ghost predicate LosesAfter(s: State, owed: bool, lost: bool, steps: seq<Step>)
    requires Run(s, steps)
    decreases |steps|
  {
    if steps == [] then lost
    else
      var st := steps[0];
      var lost' := if lost then !st.Crash? && !Commits(s, st) else Loses(s, owed, st);
      LosesAfter(Next(s, st), Owes(s, owed, st), lost', steps[1..])
  }

  /** A run ends with a change that nobody will announce if and only if a step lost one
      and no commit and no crash came after it. */
  lemma {:induction false} RunLosesExactly(s: State, owed: bool, steps: seq<Step>)
    requires Run(s, steps)
    ensures Lost(After(s, steps), OwesAfter(s, owed, steps)) <==> LosesAfter(s, owed, Lost(s, owed), steps)
    decreases |steps|
  {
    if steps != [] {
      var st := steps[0];
      if Lost(s, owed) {
        RecoversExactly(s, owed, st);
      } else {
        LosesExactly(s, owed, st);
      }
      RunLosesExactly(Next(s, st), Owes(s, owed, st), steps[1..]);
    }
  }
}
