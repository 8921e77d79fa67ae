/** What the attachment protocol guarantees over whole runs. */
module ProtocolTheorems {
  import opened Schema
  import opened Uploads
  import opened Protocol
  import opened ProtocolInvariant

  lemma {:induction false} RunInv(s: State, steps: seq<Step>)
    requires Inv(s) && Run(s, steps)
    ensures Inv(After(s, steps))
    decreases |steps|
  {
    if steps != [] {
      StepInv(s, steps[0]);
      RunInv(Next(s, steps[0]), steps[1..]);
    }
  }

  // ----- A row always has its parent and its file -----

  /** The bytes a step receives for an upload. */
  ghost function Arrival(s: State, st: Step, id: Id): Bytes
    requires Enabled(s, st)
  {
    if st.WriteChunk? && s.handlers[st.h].open.value.id == id then st.chunk else []
  }

  /** The chunks that arrived for an upload over a run, concatenated in order. */
  ghost function Received(s: State, steps: seq<Step>, id: Id): Bytes
    requires Run(s, steps)
    decreases |steps|
  {
    if steps == [] then []
    else Arrival(s, steps[0], id) + Received(Next(s, steps[0]), steps[1..], id)
  }

  lemma {:induction false} TablesStepSendsNothing(s: State, st: Step)
    requires Enabled(s, st) && OnTables(st)
    ensures Next(s, st).sent == s.sent
  {
  }

  /** Only opening an upload and receiving a chunk change what was sent. */
  lemma {:induction false} SentElsewhere(s: State, st: Step)
    requires Enabled(s, st) && !st.OpenUpload? && !st.WriteChunk?
    ensures Next(s, st).sent == s.sent
  {
    if OnTables(st) {
      TablesStepSendsNothing(s, st);
    }
  }

  lemma {:induction false} SentStep(s: State, st: Step, id: Id)
    requires IdOk(s, id) && Enabled(s, st)
    ensures SentSoFar(Next(s, st), id) == SentSoFar(s, id) + Arrival(s, st, id)
  {
    match st
    case OpenUpload(_, _, _) =>
    case WriteChunk(_, _, _, _) =>
    case _ => SentElsewhere(s, st);
  }

  lemma {:induction false} Assoc(a: Bytes, b: Bytes, c: Bytes)
    ensures (a + b) + c == a + (b + c)
  {
  }

  lemma {:induction false} SentIsReceived(s: State, steps: seq<Step>, id: Id)
    requires Inv(s) && Run(s, steps)
    ensures SentSoFar(After(s, steps), id) == SentSoFar(s, id) + Received(s, steps, id)
    decreases |steps|
  {
    if steps != [] {
      var s1 := Next(s, steps[0]);
      StepInv(s, steps[0]);
      assert IdOk(s, id);
      SentStep(s, steps[0], id);
      SentIsReceived(s1, steps[1..], id);
      Assoc(SentSoFar(s, id), Arrival(s, steps[0], id), Received(s1, steps[1..], id));
    }
  }

  /** In every reachable state each attachment row has a live parent record and
      a final file under its id, holding exactly the chunks received for it,
      and the row states that length. */
  lemma {:induction false} RowsHaveTheirFiles(s: State, steps: seq<Step>, a: Id)
    requires Init(s) && Run(s, steps)
    requires a in After(s, steps).tables.attachments
    ensures var s' := After(s, steps);
            && s'.tables.attachments[a].recordId in s'.tables.records
            && a in s'.files
            && s'.files[a] == Received(s, steps, a)
            && s'.tables.attachments[a].size == |s'.files[a]|
  {
    InitInv(s);
    RunInv(s, steps);
    assert IdOk(After(s, steps), a);
    SentIsReceived(s, steps, a);
  }

  // ----- Where every file belongs -----

  ghost predicate HeldBySome(s: State, id: Id) {
    exists h :: h in s.handlers && id in Owned(s.handlers[h])
  }

  /** Final files that neither a row nor a running request accounts for. */
  ghost function LeakedFiles(s: State): set<Id> {
    set id | id in s.files && id !in s.tables.attachments && !HeldBySome(s, id)
  }

  /** The files a step leaves without an owner. */
  ghost function Leaks(s: State, st: Step): set<Id>
    requires Enabled(s, st)
  {
    match st
    case CleanOne(h, false) => {s.handlers[h].uploads[0].id}
    case UnwindFile(h, false) => {s.handlers[h].failed}
    case EraseOne(_, id, false) => {id}
    case CommitUpdate(h, _, _, _, _, true) =>
      if s.handlers[h].goal.target in s.tables.records then {} else Ids(s.handlers[h].uploads)
    case InsertOne(h, ok) => if RowGoesIn(s, h, ok) then {} else Ids(s.handlers[h].uploads[1..])
    case RollBack(h, true) =>
      if s.handlers[h].undo.Uncreate? then ChildrenOf(s.tables, s.handlers[h].undo.rid) else {}
    case Drop(h) => Owned(s.handlers[h])
    case Crash => set h, id | h in s.handlers && id in Owned(s.handlers[h]) :: id
    case _ => {}
  }

  lemma {:induction false} LeakedIsLeaked(s: State, id: Id)
    requires Inv(s)
    ensures id in LeakedFiles(s) <==> id in s.holder && s.holder[id].Leaked?
  {
    assert IdOk(s, id);
    if HeldBySome(s, id) {
      var h :| h in s.handlers && id in Owned(s.handlers[h]);
      assert HandlerOk(s, h);
    }
  }

  /** A file has one owner at most: a row, one request, or nobody. */
  lemma {:induction false} OneOwner(s: State, h: Hid, id: Id)
    requires Inv(s) && h in s.handlers && id in Owned(s.handlers[h])
    ensures id in s.files && id !in s.tables.attachments && id !in LeakedFiles(s)
    ensures forall g :: g in s.handlers && id in Owned(s.handlers[g]) ==> g == h
  {
    assert HandlerOk(s, h) && IdOk(s, id);
    forall g | g in s.handlers && id in Owned(s.handlers[g]) ensures g == h {
      assert HandlerOk(s, g);
    }
  }

  /** At every reachable state the final files are the disjoint union of those
      with a row, those held by exactly one running request, and the leaked. */
  lemma {:induction false} FilesAreAccountedFor(s: State, steps: seq<Step>, id: Id)
    requires Init(s) && Run(s, steps)
    ensures var s' := After(s, steps);
            && (id in s'.files <==> id in s'.tables.attachments || HeldBySome(s', id) || id in LeakedFiles(s'))
            && !(id in s'.tables.attachments && HeldBySome(s', id))
            && (forall g, h | g in s'.handlers && h in s'.handlers ::
                  id in Owned(s'.handlers[g]) && id in Owned(s'.handlers[h]) ==> g == h)
  {
    InitInv(s);
    RunInv(s, steps);
    var s' := After(s, steps);
    assert IdOk(s', id);
    forall h | h in s'.handlers && id in Owned(s'.handlers[h])
      ensures id in s'.files && id !in s'.tables.attachments
      ensures forall g :: g in s'.handlers && id in Owned(s'.handlers[g]) ==> g == h
    {
      OneOwner(s', h, id);
    }
  }
}
