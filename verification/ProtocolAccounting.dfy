/** Exact accounting of leaked files and stranded temp files: which step leaves which behind. */
module ProtocolAccounting {
  import opened Wrappers
  import opened Schema
  import opened Uploads
  import opened Protocol
  import opened ProtocolInvariant
  import opened ProtocolTheorems

  predicate LeakedAt(s: State, id: Id) {
    id in s.holder && s.holder[id].Leaked?
  }

  predicate StaleAt(s: State, id: Id) {
    id in s.holder && s.holder[id].Stale?
  }

  ghost predicate OpenBySome(s: State, id: Id) {
    exists h :: h in s.handlers && OpenTemp(s.handlers[h]) == Some(id)
  }

  /** Temp files that no running request is writing. */
  ghost function StrandedTemps(s: State): set<Id> {
    set id | id in s.tmp && !OpenBySome(s, id)
  }

  function OpenTemps(p: Handler): set<Id> {
    if OpenTemp(p).Some? then {OpenTemp(p).value} else {}
  }

  /** The temp files a step leaves without a request. */
  ghost function Strands(s: State, st: Step): set<Id>
    requires Enabled(s, st)
  {
    match st
    case AbortTemp(h, false) => {s.handlers[h].temp}
    case Drop(h) => OpenTemps(s.handlers[h])
    case Crash => set h, id | h in s.handlers && id in OpenTemps(s.handlers[h]) :: id
    case _ => {}
  }

  function Swept(st: Step): set<Id> {
    match st
    case ScanTemp(id, true) => {id}
    case _ => {}
  }

  // ----- One step in the ledger -----

  /** At this id the ledger gained exactly these leaks and these strandings. */
  predicate Gains(s: State, s': State, id: Id, leaks: set<Id>, strands: set<Id>) {
    && (LeakedAt(s', id) <==> LeakedAt(s, id) || id in leaks)
    && (StaleAt(s', id) <==> StaleAt(s, id) || id in strands)
  }

  lemma {:induction false} CommitUpdateGains(s: State, h: Hid, blob: Bytes, now: int, ok: bool, id: Id)
    requires Runs(s, h) && s.handlers[h].Parsing? && s.handlers[h].goal.Updating? && HandlerOk(s, h)
    ensures Gains(s, NextCommitUpdate(s, h, blob, now, ok), id,
                  if ok && s.handlers[h].goal.target !in s.tables.records then Ids(s.handlers[h].uploads) else {}, {})
  {
  }

  lemma {:induction false} InsertOneGains(s: State, h: Hid, ok: bool, id: Id)
    requires Enabled(s, InsertOne(h, ok)) && HandlerOk(s, h)
    ensures Gains(s, NextInsertOne(s, h, ok), id,
                  if RowGoesIn(s, h, ok) then {} else Ids(s.handlers[h].uploads[1..]), {})
  {
    IdsTail(s.handlers[h].uploads);
    assert s.handlers[h].uploads[0].id in Owned(s.handlers[h]);
  }

  lemma {:induction false} RollBackGains(s: State, h: Hid, id: Id)
    requires Runs(s, h) && s.handlers[h].RollingBack? && IdOk(s, id)
    ensures var undo := s.handlers[h].undo;
            Gains(s, NextRollBack(s, h), id, if undo.Uncreate? then ChildrenOf(s.tables, undo.rid) else {}, {})
  {
  }

  lemma {:induction false} CommitDeleteGains(s: State, h: Hid, id: Id)
    requires Runs(s, h) && s.handlers[h].Deleting? && IdOk(s, id)
    ensures Gains(s, NextCommitDelete(s, h), id, {}, {})
  {
  }

  lemma {:induction false} CommitDetachGains(s: State, h: Hid, id: Id)
    requires Runs(s, h) && s.handlers[h].Detaching? && IdOk(s, id)
    ensures Gains(s, NextCommitDetach(s, h), id, {}, {})
  {
  }

  /** A step on the database leaks what it abandons and nothing else. */
  lemma {:induction false} TablesStepGains(s: State, st: Step, id: Id)
    requires Enabled(s, st) && OnTables(st) && HandlerOk(s, st.h) && IdOk(s, id)
    ensures Gains(s, Next(s, st), id, Leaks(s, st), {})
  {
    match st
    case CommitUpdate(h, nonce, title, content, now, ok) =>
      CommitUpdateGains(s, h, s.cipher.seal(nonce, title, content), now, ok, id);
    case InsertOne(h, ok) => InsertOneGains(s, h, ok, id);
    case RollBack(h, ok) => if ok { RollBackGains(s, h, id); }
    case CommitDelete(h, ok) => if ok { CommitDeleteGains(s, h, id); }
    case CommitDetach(h, ok) => if ok { CommitDetachGains(s, h, id); }
    case _ =>
  }

  lemma {:induction false} UnlinkGains(s: State, h: Hid, file: Id, ok: bool, p: Handler, id: Id)
    requires file in s.holder && s.holder[file] == Held(h)
    ensures Gains(s, Goto(Unlink(s, file, ok), h, p), id, if ok then {} else {file}, {})
  {
  }

  /** Failing to remove a file leaks it. */
  lemma {:induction false} RemovalGains(s: State, st: Step, id: Id)
    requires Enabled(s, st) && (st.CleanOne? || st.UnwindFile? || st.EraseOne?) && HandlerOk(s, st.h)
    ensures Gains(s, Next(s, st), id, Leaks(s, st), {})
  {
    match st
    case CleanOne(h, ok) =>
      var us := s.handlers[h].uploads;
      UnlinkGains(s, h, us[0].id, ok, Cleaning(us[1..]), id);
    case UnwindFile(h, ok) =>
      UnlinkGains(s, h, s.handlers[h].failed, ok, RollingBack(s.handlers[h].undo), id);
    case EraseOne(h, i, ok) =>
      UnlinkGains(s, h, i, ok, Erasing(s.handlers[h].files - {i}, s.handlers[h].touch), id);
  }

  /** Failing to remove a temp file strands it. */
  lemma {:induction false} AbortTempGains(s: State, h: Hid, ok: bool, id: Id)
    requires Enabled(s, AbortTemp(h, ok)) && HandlerOk(s, h)
    ensures Gains(s, NextAbortTemp(s, h, ok), id, {}, if ok then {} else {s.handlers[h].temp})
  {
  }

  /** The other steps of an upload lose nothing. */
  lemma {:induction false} UploadGains(s: State, st: Step, id: Id)
    requires Enabled(s, st) && (st.OpenUpload? || st.WriteChunk? || st.Reject? || st.Finalize? || st.AbortTemp?)
    requires HandlerOk(s, st.h) && IdOk(s, id)
    ensures Gains(s, Next(s, st), id, {}, Strands(s, st))
  {
    match st
    case OpenUpload(_, _, _) =>
    case WriteChunk(_, _, _, _) =>
    case Reject(_) =>
    case Finalize(_, _, _, _) =>
    case AbortTemp(h, ok) => AbortTempGains(s, h, ok, id);
  }

  /** A dropped request leaks the files it held and strands its temp file. */
  lemma {:induction false} DropGains(s: State, h: Hid, id: Id)
    requires Runs(s, h) && HandlerOk(s, h)
    ensures Gains(s, NextDrop(s, h), id, Owned(s.handlers[h]), OpenTemps(s.handlers[h]))
  {
  }

  /** So does a crash with every request. */
  lemma {:induction false} CrashGains(s: State, id: Id)
    requires Inv(s)
    ensures Gains(s, NextCrash(s), id, Leaks(s, Crash), Strands(s, Crash))
  {
    assert IdOk(s, id);
    forall h | h in s.handlers
      ensures id in Owned(s.handlers[h]) ==> s.holder[id] == Held(h)
      ensures id in OpenTemps(s.handlers[h]) ==> s.holder[id] == Temp(h)
    {
      assert HandlerOk(s, h);
    }
    if id in s.holder && s.holder[id].Temp? {
      assert id in OpenTemps(s.handlers[s.holder[id].h]);
    }
  }

  lemma {:induction false} ScanGains(s: State, st: Step, id: Id)
    requires Inv(s) && Enabled(s, st) && (st.ScanTemp? || st.Restart?)
    ensures LeakedAt(Next(s, st), id) <==> LeakedAt(s, id)
    ensures StaleAt(Next(s, st), id) <==> StaleAt(s, id) && id !in Swept(st)
  {
    assert IdOk(s, id);
    if st.ScanTemp? {
      assert IdOk(s, st.id);
    }
  }

  /** A step of a request gains exactly its leaks and strandings. */
  lemma {:induction false} RequestGains(s: State, st: Step, id: Id)
    requires Enabled(s, st) && !st.Crash? && !st.ScanTemp? && !st.Restart?
    requires st.h in s.handlers && HandlerOk(s, st.h) && IdOk(s, id)
    ensures Gains(s, Next(s, st), id, Leaks(s, st), Strands(s, st))
  {
    if OnTables(st) {
      TablesStepGains(s, st, id);
    } else if st.CleanOne? || st.UnwindFile? || st.EraseOne? {
      RemovalGains(s, st, id);
    } else if OnFiles(st) {
      UploadGains(s, st, id);
    } else if st.Drop? {
      DropGains(s, st.h, id);
    }
  }

  lemma {:induction false} StartGains(s: State, st: Step, id: Id)
    requires Enabled(s, st) && !st.Crash? && !st.ScanTemp? && !st.Restart? && st.h !in s.handlers
    ensures Gains(s, Next(s, st), id, {}, {}) && Leaks(s, st) == {} && Strands(s, st) == {}
  {
  }

  /** A step of a request or a crash. */
  lemma {:induction false} ServingGains(s: State, st: Step, id: Id)
    requires Inv(s) && Enabled(s, st) && !st.ScanTemp? && !st.Restart?
    ensures Gains(s, Next(s, st), id, Leaks(s, st), Strands(s, st))
  {
    assert IdOk(s, id);
    if st.Crash? {
      CrashGains(s, id);
    } else if st.h in s.handlers {
      assert HandlerOk(s, st.h);
      RequestGains(s, st, id);
    } else {
      StartGains(s, st, id);
    }
  }

  /** What a step does to the ledger at one id. */
  lemma {:induction false} StepGains(s: State, st: Step, id: Id)
    requires Inv(s) && Enabled(s, st)
    ensures LeakedAt(Next(s, st), id) <==> LeakedAt(s, id) || id in Leaks(s, st)
    ensures StaleAt(Next(s, st), id) <==> (StaleAt(s, id) || id in Strands(s, st)) && id !in Swept(st)
  {
    if st.ScanTemp? || st.Restart? {
      ScanGains(s, st, id);
    } else {
      ServingGains(s, st, id);
    }
  }

  // ----- Leaked files -----

  lemma {:induction false} LeaksAreHeldOrRows(s: State, st: Step, id: Id)
    requires Inv(s) && Enabled(s, st) && id in Leaks(s, st)
    ensures !LeakedAt(s, id)
  {
    assert IdOk(s, id);
    if st.Crash? {
      var h :| h in s.handlers && id in Owned(s.handlers[h]);
      assert HandlerOk(s, h);
    } else {
      assert HandlerOk(s, st.h);
      if st.InsertOne? {
        IdsTail(s.handlers[st.h].uploads);
      }
    }
  }

  /** Each step adds to the leaked files exactly `Leaks`, and none takes any away. */
  lemma {:induction false} StepLeaksExactly(s: State, st: Step)
    requires Inv(s) && Enabled(s, st)
    ensures LeakedFiles(Next(s, st)) == LeakedFiles(s) + Leaks(s, st)
    ensures LeakedFiles(s) !! Leaks(s, st)
  {
    StepInv(s, st);
    forall id
      ensures id in LeakedFiles(Next(s, st)) <==> id in LeakedFiles(s) || id in Leaks(s, st)
      ensures id in Leaks(s, st) ==> id !in LeakedFiles(s)
    {
      LeakedIsLeaked(s, id);
      LeakedIsLeaked(Next(s, st), id);
      StepGains(s, st, id);
      if id in Leaks(s, st) {
        LeaksAreHeldOrRows(s, st, id);
      }
    }
  }

  ghost function LeaksOver(s: State, steps: seq<Step>): set<Id>
    requires Run(s, steps)
    decreases |steps|
  {
    if steps == [] then {} else Leaks(s, steps[0]) + LeaksOver(Next(s, steps[0]), steps[1..])
  }

  lemma {:induction false} RunLeaksExactly(s: State, steps: seq<Step>)
    requires Inv(s) && Run(s, steps)
    ensures LeakedFiles(After(s, steps)) == LeakedFiles(s) + LeaksOver(s, steps)
    decreases |steps|
  {
    if steps != [] {
      StepInv(s, steps[0]);
      StepLeaksExactly(s, steps[0]);
      RunLeaksExactly(Next(s, steps[0]), steps[1..]);
    }
  }

  // ----- Stranded temp files -----

  lemma {:induction false} StrandedIsStale(s: State, id: Id)
    requires Inv(s)
    ensures id in StrandedTemps(s) <==> StaleAt(s, id)
  {
    assert IdOk(s, id);
    if OpenBySome(s, id) {
      var h :| h in s.handlers && OpenTemp(s.handlers[h]) == Some(id);
      assert HandlerOk(s, h);
    }
  }

  /** Each step adds to the stranded temp files exactly `Strands`, and only the startup
      scan takes any away. */
  lemma {:induction false} StepStrandsExactly(s: State, st: Step)
    requires Inv(s) && Enabled(s, st)
    ensures StrandedTemps(Next(s, st)) == StrandedTemps(s) + Strands(s, st) - Swept(st)
  {
    StepInv(s, st);
    forall id ensures id in StrandedTemps(Next(s, st)) <==> id in StrandedTemps(s) + Strands(s, st) - Swept(st) {
      StrandedIsStale(s, id);
      StrandedIsStale(Next(s, st), id);
      StepGains(s, st, id);
    }
  }

  /** The temp files stranded over a run and not swept since, beside those of before. */
  ghost function StrandedOver(s: State, before: set<Id>, steps: seq<Step>): set<Id>
    requires Run(s, steps)
    decreases |steps|
  {
    if steps == [] then before
    else StrandedOver(Next(s, steps[0]), before + Strands(s, steps[0]) - Swept(steps[0]), steps[1..])
  }

  lemma {:induction false} RunStrandsExactly(s: State, steps: seq<Step>)
    requires Inv(s) && Run(s, steps)
    ensures StrandedTemps(After(s, steps)) == StrandedOver(s, StrandedTemps(s), steps)
    decreases |steps|
  {
    if steps != [] {
      StepInv(s, steps[0]);
      StepStrandsExactly(s, steps[0]);
      RunStrandsExactly(Next(s, steps[0]), steps[1..]);
    }
  }

  // ----- Runs that end clean -----

  lemma {:induction false} NothingAtFirst(s: State)
    requires Init(s)
    ensures LeakedFiles(s) == {} && StrandedTemps(s) == {}
  {
  }

  /** Once idle, the directory equals the attachment rows if and only if no step of the run
      leaked a file, and the temp files are exactly those stranded and not swept since. */
  lemma {:induction false} EndsCleanExactly(s: State, steps: seq<Step>)
    requires Init(s) && Run(s, steps) && After(s, steps).handlers == map[]
    ensures After(s, steps).files.Keys == After(s, steps).tables.attachments.Keys <==> LeaksOver(s, steps) == {}
    ensures After(s, steps).files.Keys == After(s, steps).tables.attachments.Keys + LeaksOver(s, steps)
    ensures After(s, steps).tmp.Keys == StrandedOver(s, {}, steps)
  {
    var s' := After(s, steps);
    InitInv(s);
    NothingAtFirst(s);
    RunInv(s, steps);
    RunLeaksExactly(s, steps);
    RunStrandsExactly(s, steps);
    forall id
      ensures id in s'.files <==> id in s'.tables.attachments || id in LeakedFiles(s')
      ensures id in s'.tables.attachments ==> id !in LeakedFiles(s')
    {
      assert IdOk(s', id);
    }
    forall id ensures id in s'.tmp <==> id in StrandedTemps(s') {
      assert IdOk(s', id);
    }
  }

  /** The exits at which a file may be left behind: a crash, a dropped request, a
      failed removal, a refused row with uploads after it, the rollback of a
      create that had inserted rows, and an update whose record has gone. */
  ghost predicate LossyExit(s: State, st: Step)
    requires Enabled(s, st)
  {
    match st
    case Crash => true
    case Drop(_) => true
    case AbortTemp(_, ok) => !ok
    case CleanOne(_, ok) => !ok
    case UnwindFile(_, ok) => !ok
    case EraseOne(_, _, ok) => !ok
    case InsertOne(h, ok) => !RowGoesIn(s, h, ok) && |s.handlers[h].uploads| > 1
    case RollBack(h, ok) =>
      ok && s.handlers[h].undo.Uncreate? && ChildrenOf(s.tables, s.handlers[h].undo.rid) != {}
    case CommitUpdate(h, _, _, _, _, ok) =>
      ok && s.handlers[h].goal.target !in s.tables.records && s.handlers[h].uploads != []
    case _ => false
  }

  ghost predicate LossyRun(s: State, steps: seq<Step>)
    requires Run(s, steps)
    decreases |steps|
  {
    steps != [] && (LossyExit(s, steps[0]) || LossyRun(Next(s, steps[0]), steps[1..]))
  }

  /** A file is leaked, or a temp file stranded, at a lossy exit or not at all. */
  lemma {:induction false} OnlyLossyExitsLose(s: State, st: Step)
    requires Enabled(s, st) && !LossyExit(s, st)
    ensures Leaks(s, st) == {} && Strands(s, st) == {}
  {
  }

  lemma {:induction false} LosslessRunLosesNothing(s: State, steps: seq<Step>)
    requires Run(s, steps) && !LossyRun(s, steps)
    ensures LeaksOver(s, steps) == {} && StrandedOver(s, {}, steps) == {}
    decreases |steps|
  {
    if steps != [] {
      OnlyLossyExitsLose(s, steps[0]);
      LosslessRunLosesNothing(Next(s, steps[0]), steps[1..]);
      assert {} + Strands(s, steps[0]) - Swept(steps[0]) == {};
    }
  }

  /** A run without lossy exits ends, once idle, with the directory equal to the
      attachment rows and no temp file. */
  lemma {:induction false} LosslessRunEndsClean(s: State, steps: seq<Step>)
    requires Init(s) && Run(s, steps) && !LossyRun(s, steps)
    requires After(s, steps).handlers == map[]
    ensures After(s, steps).files.Keys == After(s, steps).tables.attachments.Keys
    ensures After(s, steps).tmp == map[]
  {
    EndsCleanExactly(s, steps);
    LosslessRunLosesNothing(s, steps);
    assert After(s, steps).tmp.Keys == {};
  }

  // ----- Starting up -----

  /** When every removal succeeds, starting up empties the temp directory and
      leaves the rows and the final files alone. */
  lemma {:induction false} SweepEmptiesTemp(s: State, steps: seq<Step>)
    requires s.phase == Starting(s.tmp.Keys) && Run(s, steps)
    requires forall i :: 0 <= i < |steps| ==> steps[i].ScanTemp? && steps[i].ok
    ensures var s' := After(s, steps);
            s'.phase == Starting(s'.tmp.Keys) && s'.files == s.files && s'.tables == s.tables
            && |s'.tmp| == |s.tmp| - |steps|
    decreases |steps|
  {
    if steps != [] {
      var s1 := Next(s, steps[0]);
      assert s1.phase == Starting(s1.tmp.Keys);
      assert s1.tmp.Keys == s.tmp.Keys - {steps[0].id};
      SweepEmptiesTemp(s1, steps[1..]);
    }
  }
}
