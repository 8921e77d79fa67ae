/** A blob that does not decrypt is never overwritten within one process run. */
module ProtocolBlobs {
  import opened Schema
  import opened Crypto
  import opened Protocol
  import opened ProtocolInvariant

  /** A run of one process: no crash and no restart. */
  predicate OneProcess(steps: seq<Step>) {
    forall i :: 0 <= i < |steps| ==> !steps[i].Crash? && !steps[i].Restart?
  }

  /** The blob stays, or goes from readable to readable. */
  ghost predicate BlobKept(c: Cipher, t: Tables, t': Tables, rid: Id) {
    rid in t.records && rid in t'.records ==>
      t'.records[rid].blob == t.records[rid].blob
      || (Opens(c, t.records[rid].blob) && Opens(c, t'.records[rid].blob))
  }

  lemma {:induction false} CommitUpdateBlob(s: State, h: Hid, blob: Bytes, now: int, ok: bool, rid: Id)
    requires Runs(s, h) && s.handlers[h].Parsing? && s.handlers[h].goal.Updating?
    requires MayWrite(s, s.handlers[h]) && Opens(s.cipher, blob)
    ensures BlobKept(s.cipher, s.tables, NextCommitUpdate(s, h, blob, now, ok).tables, rid)
  {
  }

  lemma {:induction false} RollBackBlob(s: State, h: Hid, rid: Id)
    requires Runs(s, h) && s.handlers[h].RollingBack? && MayWrite(s, s.handlers[h])
    ensures BlobKept(s.cipher, s.tables, NextRollBack(s, h).tables, rid)
  {
  }

  lemma {:induction false} CommitCreateBlob(s: State, h: Hid, rid: Id, blob: Bytes, now: int, ok: bool, r: Id)
    requires Runs(s, h) && s.handlers[h].Parsing?
    ensures BlobKept(s.cipher, s.tables, NextCommitCreate(s, h, rid, blob, now, ok).tables, r)
  {
  }

  lemma {:induction false} CommitDeleteBlob(s: State, h: Hid, rid: Id)
    requires Runs(s, h) && s.handlers[h].Deleting?
    ensures BlobKept(s.cipher, s.tables, NextCommitDelete(s, h).tables, rid)
  {
  }

  lemma {:induction false} TouchRowBlob(s: State, h: Hid, now: int, rid: Id)
    requires Enabled(s, TouchRow(h, now, true))
    ensures BlobKept(s.cipher, s.tables, NextTouchRow(s, h, now).tables, rid)
  {
  }

  /** The other calls leave the records alone. */
  lemma {:induction false} AttachmentStepRecords(s: State, st: Step)
    requires Enabled(s, st) && (st.ReadRow? || st.InsertOne? || st.CommitDetach?)
    ensures Next(s, st).tables.records == s.tables.records
  {
    match st
    case ReadRow(h, ok) =>
    case InsertOne(h, ok) =>
    case CommitDetach(h, ok) =>
  }

  lemma {:induction false} TablesStepBlob(s: State, st: Step, rid: Id)
    requires Enabled(s, st) && OnTables(st) && Lawful(s.cipher) && MayWrite(s, s.handlers[st.h])
    ensures BlobKept(s.cipher, s.tables, Next(s, st).tables, rid)
  {
    match st
    case CommitCreate(h, r, nonce, title, content, now, ok) =>
      CommitCreateBlob(s, h, r, s.cipher.seal(nonce, title, content), now, ok, rid);
    case CommitUpdate(h, nonce, title, content, now, ok) =>
      CommitUpdateBlob(s, h, s.cipher.seal(nonce, title, content), now, ok, rid);
    case RollBack(h, ok) => if ok { RollBackBlob(s, h, rid); }
    case CommitDelete(h, ok) => if ok { CommitDeleteBlob(s, h, rid); }
    case TouchRow(h, now, ok) => if ok { TouchRowBlob(s, h, now, rid); }
    case _ => AttachmentStepRecords(s, st);
  }

  lemma {:induction false} OnFilesTables(s: State, st: Step)
    requires Enabled(s, st) && OnFiles(st)
    ensures Next(s, st).tables == s.tables && Next(s, st).cipher == s.cipher
  {
  }

  lemma {:induction false} FileStepTables(s: State, st: Step)
    requires Enabled(s, st) && !OnTables(st)
    ensures Next(s, st).tables == s.tables
    ensures !st.Restart? ==> Next(s, st).cipher == s.cipher
  {
    if OnFiles(st) {
      OnFilesTables(s, st);
    }
  }

  /** A record's blob changes only from something readable to something readable. */
  lemma {:induction false} StepBlob(s: State, st: Step, rid: Id)
    requires Inv(s) && Enabled(s, st) && !st.Restart?
    ensures Next(s, st).cipher == s.cipher
    ensures BlobKept(s.cipher, s.tables, Next(s, st).tables, rid)
  {
    if OnTables(st) {
      assert HandlerOk(s, st.h);
      TablesStepBlob(s, st, rid);
    } else {
      FileStepTables(s, st);
    }
  }

  lemma {:induction false} TablesStepAbsent(s: State, st: Step, rid: Id)
    requires Enabled(s, st) && OnTables(st)
    requires rid in s.minted && rid !in s.tables.records
    ensures rid in Next(s, st).minted && rid !in Next(s, st).tables.records
  {
    match st
    case CommitUpdate(h, nonce, title, content, now, ok) =>
    case InsertOne(h, ok) =>
    case RollBack(h, ok) =>
    case _ =>
  }

  /** A deleted record never comes back under the same id. */
  lemma {:induction false} GoneForGood(s: State, steps: seq<Step>, rid: Id)
    requires Run(s, steps)
    requires rid in s.minted && rid !in s.tables.records
    ensures rid !in After(s, steps).tables.records
    decreases |steps|
  {
    if steps != [] {
      if OnTables(steps[0]) {
        TablesStepAbsent(s, steps[0], rid);
      } else {
        FileStepTables(s, steps[0]);
      }
      GoneForGood(Next(s, steps[0]), steps[1..], rid);
    }
  }

  /** Within one process run, whatever the interleaving: a record that cannot be
      decrypted keeps its blob byte for byte until it is deleted, and one that can
      be decrypted stays so, through rollbacks too. */
  lemma {:induction false} UnreadableIsNeverOverwritten(s: State, steps: seq<Step>, rid: Id)
    requires Inv(s) && Run(s, steps) && OneProcess(steps)
    requires rid in s.tables.records && rid in After(s, steps).tables.records
    ensures After(s, steps).cipher == s.cipher
    ensures !Opens(s.cipher, s.tables.records[rid].blob) ==>
              After(s, steps).tables.records[rid].blob == s.tables.records[rid].blob
    ensures Opens(s.cipher, s.tables.records[rid].blob) ==>
              Opens(s.cipher, After(s, steps).tables.records[rid].blob)
    decreases |steps|
  {
    if steps != [] {
      var s1 := Next(s, steps[0]);
      StepInv(s, steps[0]);
      if rid !in s1.tables.records {
        MintedGrows(s, steps[0]);
        GoneForGood(s1, steps[1..], rid);
      } else {
        StepBlob(s, steps[0], rid);
        UnreadableIsNeverOverwritten(s1, steps[1..], rid);
      }
    }
  }

  lemma {:induction false} TablesStepMinted(s: State, st: Step)
    requires Enabled(s, st) && OnTables(st)
    ensures s.minted <= Next(s, st).minted
  {
    match st
    case CommitCreate(_, _, _, _, _, _, _) =>
    case InsertOne(h, ok) =>
    case _ =>
  }

  /** Ids are never taken back. */
  lemma {:induction false} MintedGrows(s: State, st: Step)
    requires Enabled(s, st)
    ensures s.minted <= Next(s, st).minted
  {
    if OnTables(st) {
      TablesStepMinted(s, st);
    }
  }
}
