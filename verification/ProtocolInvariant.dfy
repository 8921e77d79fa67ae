/** What every step of the attachment protocol keeps. */
module ProtocolInvariant {
  import opened Wrappers
  import opened Schema
  import opened Crypto
  import opened Uploads
  import opened Protocol

  predicate OnDisk(x: Holder) {
    x.Row? || x.Held? || x.Leaked?
  }

  /** One id: the ledger says where it is and who holds it, and a final file
      holds the bytes received for it. */
  ghost predicate IdOk(s: State, id: Id) {
    && (id in s.files <==> id in s.holder && OnDisk(s.holder[id]))
    && (id in s.tmp <==> id in s.holder && !OnDisk(s.holder[id]))
    && (id in s.tables.attachments <==> id in s.holder && s.holder[id].Row?)
    && (id in s.holder || id in s.sent ==> id in s.minted)
    && (id in s.holder && s.holder[id].Held? ==>
          s.holder[id].h in s.handlers && id in Owned(s.handlers[s.holder[id].h]))
    && (id in s.holder && s.holder[id].Temp? ==>
          s.holder[id].h in s.handlers && OpenTemp(s.handlers[s.holder[id].h]) == Some(id))
    && (id in s.files ==> id in s.sent && s.files[id] == s.sent[id])
    && (id in s.tables.attachments ==> id in s.sent && s.tables.attachments[id].size == |s.sent[id]|)
  }

  ghost predicate Sized(sent: map<Id, Bytes>, us: seq<Upload>) {
    forall u :: u in us ==> u.id in sent && u.size == |sent[u.id]|
  }

  function Pending(p: Handler): seq<Upload> {
    match p
    case Parsing(_, us, _) => us
    case Aborting(_, us) => us
    case Cleaning(us) => us
    case Inserting(_, us, _) => us
    case _ => []
  }

  /** The record a request has already seen or written. */
  function Known(p: Handler): Option<Id> {
    match p
    case Parsing(Updating(id, _, _), _, _) => Some(id)
    case Inserting(u, _, _) => Some(u.rid)
    case Unwinding(u, _) => Some(u.rid)
    case RollingBack(u) => Some(u.rid)
    case _ => None
  }

  /** The blob an updater would write back. */
  function OldBlob(p: Handler): Option<Bytes> {
    match p
    case Parsing(Updating(_, blob, _), _, _) => Some(blob)
    case Inserting(Restore(_, blob, _), _, _) => Some(blob)
    case Unwinding(Restore(_, blob, _), _) => Some(blob)
    case RollingBack(Restore(_, blob, _)) => Some(blob)
    case _ => None
  }

  ghost predicate HoldsFiles(s: State, h: Hid, p: Handler) {
    && (forall id :: id in Owned(p) ==> id in s.holder && s.holder[id] == Held(h))
    && (OpenTemp(p).Some? ==> OpenTemp(p).value in s.holder && s.holder[OpenTemp(p).value] == Temp(h))
  }

  ghost predicate CountsRight(s: State, p: Handler) {
    && Distinct(Pending(p))
    && Sized(s.sent, Pending(p))
    && (p.Parsing? && p.open.Some? ==>
          var o := p.open.value;
          o.id in s.sent && o.id in s.tmp && s.tmp[o.id] == s.sent[o.id] && o.size == |s.sent[o.id]|)
  }

  /** An updater got past the check, so its record can be decrypted as long as it exists. */
  ghost predicate MayWrite(s: State, p: Handler) {
    && (Known(p).Some? ==> Known(p).value in s.minted)
    && (OldBlob(p).Some? ==>
          && Known(p).Some?
          && Opens(s.cipher, OldBlob(p).value)
          && (Known(p).value in s.tables.records ==> Opens(s.cipher, s.tables.records[Known(p).value].blob)))
  }

  /** One request and what it holds. */
  ghost predicate HandlerOk(s: State, h: Hid)
    requires h in s.handlers
  {
    HoldsFiles(s, h, s.handlers[h]) && CountsRight(s, s.handlers[h]) && MayWrite(s, s.handlers[h])
  }

  ghost predicate Inv(s: State) {
    && Lawful(s.cipher)
    && (s.phase.Starting? ==> s.handlers == map[] && s.phase.sweep <= s.tmp.Keys)
    && Referential(s.tables)
    && s.tables.records.Keys <= s.minted
    && (forall id :: IdOk(s, id))
    && (forall h :: h in s.handlers ==> HandlerOk(s, h))
  }

  // ----- Local change -----

  function Look<T>(m: map<Id, T>, id: Id): Option<T> {
    if id in m then Some(m[id]) else None
  }

  predicate SameAt(s: State, s': State, id: Id) {
    && Look(s.holder, id) == Look(s'.holder, id)
    && Look(s.tmp, id) == Look(s'.tmp, id)
    && Look(s.files, id) == Look(s'.files, id)
    && Look(s.sent, id) == Look(s'.sent, id)
    && Look(s.tables.attachments, id) == Look(s'.tables.attachments, id)
  }

  /** The only requests concerned with the id are `h` or nobody. */
  predicate FreeFor(s: State, h: Hid, id: Id) {
    id in s.holder && (s.holder[id].Held? || s.holder[id].Temp?) ==> s.holder[id].h == h
  }

  /** Request `h` acted on the touched ids and on nothing else that others rely on. */
  ghost predicate Local(s: State, s': State, h: Hid, touched: set<Id>) {
    && s'.phase == s.phase && s'.cipher == s.cipher && s.minted <= s'.minted
    && s'.handlers - {h} == s.handlers - {h}
    && (forall id :: id !in touched ==> SameAt(s, s', id))
    && (forall id :: id in touched ==> FreeFor(s, h, id))
    && Referential(s'.tables)
    && s'.tables.records.Keys <= s'.minted
    && (forall r :: r in s'.tables.records ==>
          Opens(s.cipher, s'.tables.records[r].blob)
          || (r in s.tables.records && s'.tables.records[r].blob == s.tables.records[r].blob))
    && (forall r :: r in s'.tables.records && r !in s.tables.records ==> r !in s.minted)
  }

  /** What `h` held and did not touch, it still holds. */
  ghost predicate Keeps(s: State, s': State, h: Hid, touched: set<Id>) {
    h in s.handlers ==>
      && (forall id :: id in Owned(s.handlers[h]) && id !in touched ==>
            h in s'.handlers && id in Owned(s'.handlers[h]))
      && (OpenTemp(s.handlers[h]).Some? && OpenTemp(s.handlers[h]).value !in touched ==>
            h in s'.handlers && OpenTemp(s'.handlers[h]) == OpenTemp(s.handlers[h]))
  }

  /** A local change keeps the invariant when it does so at the touched ids and at `h`. */
  lemma {:induction false} LocalInv(s: State, s': State, h: Hid, touched: set<Id>)
    requires Inv(s) && s.phase.Serving? && Local(s, s', h, touched)
    requires forall id :: id in touched ==> IdOk(s', id)
    requires Keeps(s, s', h, touched)
    requires h in s'.handlers ==> HandlerOk(s', h)
    ensures Inv(s')
  {
    forall id ensures IdOk(s', id) {
      if id !in touched {
        assert SameAt(s, s', id);
        assert IdOk(s, id);
        if id in s.holder && (s.holder[id].Held? || s.holder[id].Temp?) && s.holder[id].h != h {
          var g := s.holder[id].h;
          assert g in s'.handlers - {h} && s'.handlers[g] == s.handlers[g];
        }
      }
    }
    forall g | g in s'.handlers ensures HandlerOk(s', g) {
      if g != h {
        assert g in s'.handlers - {h} && s'.handlers[g] == s.handlers[g];
        OtherHandler(s, s', h, touched, g);
      }
    }
  }

  lemma {:induction false} OtherHandler(s: State, s': State, h: Hid, touched: set<Id>, g: Hid)
    requires Inv(s) && Local(s, s', h, touched)
    requires g != h && g in s.handlers && g in s'.handlers && s'.handlers[g] == s.handlers[g]
    ensures HandlerOk(s', g)
  {
    var p := s.handlers[g];
    assert HandlerOk(s, g);
    forall id | id in Owned(p) ensures id !in touched && SameAt(s, s', id) {
      assert s.holder[id] == Held(g);
    }
    if OpenTemp(p).Some? {
      assert OpenTemp(p).value !in touched;
      assert SameAt(s, s', OpenTemp(p).value);
    }
    forall u | u in Pending(p) ensures u.id in s'.sent && u.size == |s'.sent[u.id]| {
      assert u.id in Owned(p);
    }
  }

  /** A step that moves no file. */
  lemma {:induction false} StillInv(s: State, s': State, h: Hid)
    requires Inv(s) && s.phase.Serving?
    requires s' == s.(tables := s.tables.(records := s'.tables.records), handlers := s'.handlers,
                      minted := s'.minted)
    requires s.minted <= s'.minted && s'.handlers - {h} == s.handlers - {h} && Keeps(s, s', h, {})
    requires s.tables.records.Keys <= s'.tables.records.Keys <= s'.minted
    requires forall r :: r in s'.tables.records ==>
               Opens(s.cipher, s'.tables.records[r].blob)
               || (r in s.tables.records && s'.tables.records[r].blob == s.tables.records[r].blob)
    requires forall r :: r in s'.tables.records && r !in s.tables.records ==> r !in s.minted
    requires h in s'.handlers ==> HandlerOk(s', h)
    ensures Inv(s')
  {
    forall id ensures SameAt(s, s', id) {
    }
    LocalInv(s, s', h, {});
  }

  /** A step that touches one id, which no other request is concerned with. */
  lemma {:induction false} TouchInv(s: State, s': State, h: Hid, id: Id)
    requires Inv(s) && s.phase.Serving? && FreeFor(s, h, id)
    requires s'.phase == s.phase && s'.cipher == s.cipher && s'.tables.records == s.tables.records
    requires s.minted <= s'.minted && s'.handlers - {h} == s.handlers - {h} && Keeps(s, s', h, {id})
    requires s'.holder - {id} == s.holder - {id} && s'.sent - {id} == s.sent - {id}
    requires s'.tmp - {id} == s.tmp - {id} && s'.files - {id} == s.files - {id}
    requires s'.tables.attachments - {id} == s.tables.attachments - {id} && Referential(s'.tables)
    requires IdOk(s', id)
    requires h in s'.handlers ==> HandlerOk(s', h)
    ensures Inv(s')
  {
    forall i | i != id ensures SameAt(s, s', i) {
      assert Look(s.holder - {id}, i) == Look(s.holder, i) && Look(s'.holder - {id}, i) == Look(s'.holder, i);
      assert Look(s.sent - {id}, i) == Look(s.sent, i) && Look(s'.sent - {id}, i) == Look(s'.sent, i);
      assert Look(s.tmp - {id}, i) == Look(s.tmp, i) && Look(s'.tmp - {id}, i) == Look(s'.tmp, i);
      assert Look(s.files - {id}, i) == Look(s.files, i) && Look(s'.files - {id}, i) == Look(s'.files, i);
      assert Look(s.tables.attachments - {id}, i) == Look(s.tables.attachments, i);
      assert Look(s'.tables.attachments - {id}, i) == Look(s'.tables.attachments, i);
    }
    LocalInv(s, s', h, {id});
  }

  /** Removing one file that the request holds, or failing to. */
  lemma {:induction false} UnlinkInv(s: State, h: Hid, id: Id, ok: bool, p: Handler)
    requires Inv(s) && Runs(s, h) && id in Owned(s.handlers[h])
    requires Owned(p) == Owned(s.handlers[h]) - {id} && OpenTemp(p) == OpenTemp(s.handlers[h]) && !p.Parsing?
    requires CountsRight(s, p) && MayWrite(s, p)
    ensures Inv(Goto(Unlink(s, id, ok), h, p))
  {
    var s' := Goto(Unlink(s, id, ok), h, p);
    assert HandlerOk(s, h) && IdOk(s, id);
    TouchInv(s, s', h, id);
  }

  /** Handing files over to nobody, when the request no longer claims them. */
  lemma {:induction false} AllLeakedInv(s: State, s': State, h: Hid, ids: set<Id>)
    requires Inv(s) && Runs(s, h)
    requires forall id :: id in ids ==> id in s.holder && (s.holder[id] == Held(h) || s.holder[id] == Row)
    requires s'.tables.records.Keys <= s.tables.records.Keys
    requires forall r :: r in s'.tables.records ==> s'.tables.records[r] == s.tables.records[r]
    requires s'.tables.attachments == s.tables.attachments - ids && Referential(s'.tables)
    requires s' == s.(tables := s'.tables, handlers := s'.handlers,
                      holder := Hand(s.holder, ids, Leaked))
    requires s'.handlers - {h} == s.handlers - {h} && Keeps(s, s', h, ids)
    requires h in s'.handlers ==> HandlerOk(s', h)
    ensures Inv(s')
  {
    forall id | id in ids ensures IdOk(s', id) {
      assert IdOk(s, id);
    }
    forall id | id !in ids ensures SameAt(s, s', id) {
    }
    LocalInv(s, s', h, ids);
  }

  /** Abandoning files the request holds. */
  lemma {:induction false} AbandonInv(s: State, s': State, h: Hid, ids: set<Id>)
    requires Inv(s) && Runs(s, h) && ids <= Owned(s.handlers[h])
    requires s' == s.(handlers := s'.handlers, holder := Hand(s.holder, ids, Leaked))
    requires s'.handlers - {h} == s.handlers - {h} && Keeps(s, s', h, ids)
    requires h in s'.handlers ==> HandlerOk(s', h)
    ensures Inv(s')
  {
    assert HandlerOk(s, h);
    forall id | id in ids ensures id !in s.tables.attachments {
      assert IdOk(s, id);
    }
    assert s.tables.attachments - ids == s.tables.attachments;
    AllLeakedInv(s, s', h, ids);
  }

  // ----- One lemma a step -----

  lemma {:induction false} InitInv(s: State)
    requires Init(s)
    ensures Inv(s)
  {
  }

  lemma {:induction false} StartInv(s: State, h: Hid, p: Handler)
    requires Inv(s) && Starts(s, h)
    requires p == Parsing(Creating, [], None) || p.Reading? || p.Deleting? || p.Detaching?
    ensures Inv(Goto(s, h, p))
  {
    StillInv(s, Goto(s, h, p), h);
  }

  lemma {:induction false} DoneInv(s: State, h: Hid)
    requires Inv(s) && Runs(s, h) && Owned(s.handlers[h]) == {} && OpenTemp(s.handlers[h]).None?
    ensures Inv(Done(s, h))
  {
    StillInv(s, Done(s, h), h);
  }

  lemma {:induction false} ReadRowInv(s: State, h: Hid, ok: bool)
    requires Inv(s) && Enabled(s, ReadRow(h, ok))
    ensures Inv(NextReadRow(s, h, ok))
    ensures var target := s.handlers[h].target;
            h in NextReadRow(s, h, ok).handlers ==>
              && target in s.tables.records && Opens(s.cipher, s.tables.records[target].blob)
              && OldBlob(NextReadRow(s, h, ok).handlers[h]) == Some(s.tables.records[target].blob)
  {
    StillInv(s, NextReadRow(s, h, ok), h);
  }

  lemma {:induction false} OpenUploadInv(s: State, h: Hid, id: Id, ok: bool)
    requires Inv(s) && Enabled(s, OpenUpload(h, id, ok))
    ensures Inv(NextOpenUpload(s, h, id, ok))
  {
    assert HandlerOk(s, h) && IdOk(s, id);
    TouchInv(s, NextOpenUpload(s, h, id, ok), h, id);
  }

  lemma {:induction false} WriteChunkHandler(s: State, h: Hid, chunk: Bytes, ok: bool, kept: nat)
    requires Inv(s) && Enabled(s, WriteChunk(h, chunk, ok, kept))
    ensures HandlerOk(NextWriteChunk(s, h, chunk, ok, kept), h)
  {
    assert HandlerOk(s, h);
    forall u | u in s.handlers[h].uploads ensures u.id != s.handlers[h].open.value.id {
      assert u.id in Owned(s.handlers[h]);
    }
  }

  lemma {:induction false} WriteChunkInv(s: State, h: Hid, chunk: Bytes, ok: bool, kept: nat)
    requires Inv(s) && Enabled(s, WriteChunk(h, chunk, ok, kept))
    ensures Inv(NextWriteChunk(s, h, chunk, ok, kept))
  {
    var id := s.handlers[h].open.value.id;
    assert HandlerOk(s, h) && IdOk(s, id);
    WriteChunkHandler(s, h, chunk, ok, kept);
    TouchInv(s, NextWriteChunk(s, h, chunk, ok, kept), h, id);
  }

  lemma {:induction false} RejectInv(s: State, h: Hid)
    requires Inv(s) && Enabled(s, Reject(h))
    ensures Inv(NextReject(s, h))
  {
    StillInv(s, NextReject(s, h), h);
  }

  lemma {:induction false} RenamedHandler(s: State, h: Hid, filename: string, mime: string)
    requires Inv(s) && Enabled(s, Finalize(h, filename, mime, true))
    ensures var s' := NextFinalize(s, h, filename, mime, true);
            HandlerOk(s', h) && Owned(s'.handlers[h]) == Owned(s.handlers[h]) + {s.handlers[h].open.value.id}
  {
    var p := s.handlers[h];
    var id := p.open.value.id;
    assert HandlerOk(s, h) && IdOk(s, id);
    IdsAppend(p.uploads, Upload(id, filename, mime, p.open.value.size));
  }

  lemma {:induction false} RenamedId(s: State, h: Hid, filename: string, mime: string)
    requires Inv(s) && Enabled(s, Finalize(h, filename, mime, true))
    ensures var id := s.handlers[h].open.value.id;
            FreeFor(s, h, id) && id !in s.tables.attachments && IdOk(NextFinalize(s, h, filename, mime, true), id)
  {
    var id := s.handlers[h].open.value.id;
    assert HandlerOk(s, h) && IdOk(s, id);
    RenamedHandler(s, h, filename, mime);
  }

  lemma {:induction false} RenamedInv(s: State, h: Hid, filename: string, mime: string)
    requires Inv(s) && Enabled(s, Finalize(h, filename, mime, true))
    ensures Inv(NextFinalize(s, h, filename, mime, true))
  {
    RenamedHandler(s, h, filename, mime);
    RenamedId(s, h, filename, mime);
    TouchInv(s, NextFinalize(s, h, filename, mime, true), h, s.handlers[h].open.value.id);
  }

  lemma {:induction false} FinalizeInv(s: State, h: Hid, filename: string, mime: string, ok: bool)
    requires Inv(s) && Enabled(s, Finalize(h, filename, mime, ok))
    ensures Inv(NextFinalize(s, h, filename, mime, ok))
  {
    if ok {
      RenamedInv(s, h, filename, mime);
    } else {
      StillInv(s, NextFinalize(s, h, filename, mime, ok), h);
    }
  }

  lemma {:induction false} AbortTempInv(s: State, h: Hid, ok: bool)
    requires Inv(s) && Enabled(s, AbortTemp(h, ok))
    ensures Inv(NextAbortTemp(s, h, ok)) && (s.handlers[h].temp in NextAbortTemp(s, h, ok).tmp <==> !ok)
  {
    var id := s.handlers[h].temp;
    assert HandlerOk(s, h) && IdOk(s, id);
    TouchInv(s, NextAbortTemp(s, h, ok), h, id);
  }

  lemma {:induction false} CleanOneInv(s: State, h: Hid, ok: bool)
    requires Inv(s) && Enabled(s, CleanOne(h, ok))
    ensures Inv(NextCleanOne(s, h, ok))
  {
    var us := s.handlers[h].uploads;
    assert HandlerOk(s, h);
    IdsTail(us);
    UnlinkInv(s, h, us[0].id, ok, Cleaning(us[1..]));
  }

  lemma {:induction false} CreatedHandler(s: State, h: Hid, rid: Id, blob: Bytes, now: int, ok: bool)
    requires Inv(s) && Runs(s, h) && s.handlers[h].Parsing? && s.handlers[h].open.None?
    requires rid !in s.minted
    ensures HandlerOk(NextCommitCreate(s, h, rid, blob, now, ok), h)
  {
    assert HandlerOk(s, h);
  }

  lemma {:induction false} CommitCreateInv(s: State, h: Hid, rid: Id, blob: Bytes, now: int, ok: bool)
    requires Inv(s) && Runs(s, h) && s.handlers[h].Parsing? && s.handlers[h].open.None?
    requires rid !in s.minted && Opens(s.cipher, blob)
    ensures Inv(NextCommitCreate(s, h, rid, blob, now, ok))
    ensures ok <==> h in NextCommitCreate(s, h, rid, blob, now, ok).handlers
                    && NextCommitCreate(s, h, rid, blob, now, ok).handlers[h].Inserting?
  {
    CreatedHandler(s, h, rid, blob, now, ok);
    StillInv(s, NextCommitCreate(s, h, rid, blob, now, ok), h);
  }

  lemma {:induction false} UpdatedInv(s: State, h: Hid, blob: Bytes, now: int)
    requires Inv(s) && Runs(s, h) && s.handlers[h].Parsing? && s.handlers[h].open.None? && s.handlers[h].goal.Updating?
    requires Opens(s.cipher, blob) && s.handlers[h].goal.target in s.tables.records
    ensures Inv(NextCommitUpdate(s, h, blob, now, true))
  {
    var s' := NextCommitUpdate(s, h, blob, now, true);
    assert HandlerOk(s, h);
    assert HandlerOk(s', h);
    StillInv(s, s', h);
  }

  lemma {:induction false} CommitUpdateInv(s: State, h: Hid, blob: Bytes, now: int, ok: bool)
    requires Inv(s) && Runs(s, h) && s.handlers[h].Parsing? && s.handlers[h].open.None? && s.handlers[h].goal.Updating?
    requires Opens(s.cipher, blob)
    ensures Inv(NextCommitUpdate(s, h, blob, now, ok))
    ensures var target := s.handlers[h].goal.target;
            target in s.tables.records ==> Opens(s.cipher, s.tables.records[target].blob)
    ensures ok && s.handlers[h].goal.target !in s.tables.records ==>
              forall u :: u in s.handlers[h].uploads ==>
                u.id in NextCommitUpdate(s, h, blob, now, ok).holder
                && NextCommitUpdate(s, h, blob, now, ok).holder[u.id] == Leaked
  {
    var p := s.handlers[h];
    assert HandlerOk(s, h);
    if !ok {
      StillInv(s, NextCommitUpdate(s, h, blob, now, ok), h);
    } else if p.goal.target !in s.tables.records {
      AbandonInv(s, NextCommitUpdate(s, h, blob, now, ok), h, Ids(p.uploads));
    } else {
      UpdatedInv(s, h, blob, now);
    }
  }

  lemma {:induction false} RowAcceptedHandler(s: State, h: Hid)
    requires Inv(s) && Enabled(s, InsertOne(h, true))
    requires RowGoesIn(s, h, true)
    ensures HandlerOk(NextInsertOne(s, h, true), h)
  {
    assert HandlerOk(s, h);
    IdsTail(s.handlers[h].uploads);
  }

  lemma {:induction false} RowAcceptedId(s: State, h: Hid)
    requires Inv(s) && Enabled(s, InsertOne(h, true))
    requires RowGoesIn(s, h, true)
    ensures var id := s.handlers[h].uploads[0].id;
            Distinct(s.handlers[h].uploads) && FreeFor(s, h, id) && IdOk(NextInsertOne(s, h, true), id)
  {
    var u := s.handlers[h].uploads[0];
    assert HandlerOk(s, h) && IdOk(s, u.id);
    assert u in s.handlers[h].uploads;
  }

  lemma {:induction false} RowAcceptedInv(s: State, h: Hid)
    requires Inv(s) && Enabled(s, InsertOne(h, true))
    requires RowGoesIn(s, h, true)
    ensures Inv(NextInsertOne(s, h, true))
  {
    RowAcceptedHandler(s, h);
    RowAcceptedId(s, h);
    IdsTail(s.handlers[h].uploads);
    TouchInv(s, NextInsertOne(s, h, true), h, s.handlers[h].uploads[0].id);
  }

  lemma {:induction false} RowRefusedHandler(s: State, h: Hid, ok: bool)
    requires Inv(s) && Enabled(s, InsertOne(h, ok)) && !RowGoesIn(s, h, ok)
    ensures HandlerOk(NextInsertOne(s, h, ok), h)
  {
    var p := s.handlers[h];
    assert HandlerOk(s, h);
    IdsTail(p.uploads);
    assert p.uploads[0] in p.uploads;
  }

  lemma {:induction false} RowRefusedInv(s: State, h: Hid, ok: bool)
    requires Inv(s) && Enabled(s, InsertOne(h, ok))
    requires !RowGoesIn(s, h, ok)
    ensures Inv(NextInsertOne(s, h, ok))
  {
    var p := s.handlers[h];
    assert HandlerOk(s, h);
    IdsTail(p.uploads);
    RowRefusedHandler(s, h, ok);
    AbandonInv(s, NextInsertOne(s, h, ok), h, Ids(p.uploads[1..]));
  }

  lemma {:induction false} InsertOneInv(s: State, h: Hid, ok: bool)
    requires Inv(s) && Enabled(s, InsertOne(h, ok))
    ensures Inv(NextInsertOne(s, h, ok))
  {
    if RowGoesIn(s, h, ok) {
      RowAcceptedInv(s, h);
    } else {
      RowRefusedInv(s, h, ok);
    }
  }

  lemma {:induction false} UnwindFileInv(s: State, h: Hid, ok: bool)
    requires Inv(s) && Enabled(s, UnwindFile(h, ok))
    ensures Inv(NextUnwindFile(s, h, ok))
  {
    var p := s.handlers[h];
    assert HandlerOk(s, h);
    UnlinkInv(s, h, p.failed, ok, RollingBack(p.undo));
  }

  lemma {:induction false} RollBackInv(s: State, h: Hid)
    requires Inv(s) && Runs(s, h) && s.handlers[h].RollingBack?
    ensures Inv(NextRollBack(s, h))
  {
    var u := s.handlers[h].undo;
    assert HandlerOk(s, h);
    if u.Uncreate? {
      forall id | id in ChildrenOf(s.tables, u.rid) ensures id in s.holder && s.holder[id] == Row {
        assert IdOk(s, id);
      }
      AllLeakedInv(s, NextRollBack(s, h), h, ChildrenOf(s.tables, u.rid));
    } else {
      assert NextRollBack(s, h).holder == s.holder;
      StillInv(s, NextRollBack(s, h), h);
    }
  }

  lemma {:induction false} DeletedId(s: State, h: Hid, id: Id)
    requires Inv(s) && Runs(s, h) && s.handlers[h].Deleting? && s.handlers[h].target in s.tables.records
    ensures var s' := NextCommitDelete(s, h);
            if id in ChildrenOf(s.tables, s.handlers[h].target) then FreeFor(s, h, id) && IdOk(s', id)
            else SameAt(s, s', id)
  {
    assert IdOk(s, id);
  }

  lemma {:induction false} CommitDeleteInv(s: State, h: Hid)
    requires Inv(s) && Runs(s, h) && s.handlers[h].Deleting?
    ensures Inv(NextCommitDelete(s, h))
  {
    assert HandlerOk(s, h);
    var s' := NextCommitDelete(s, h);
    if s.handlers[h].target !in s.tables.records {
      DoneInv(s, h);
    } else {
      var ids := ChildrenOf(s.tables, s.handlers[h].target);
      forall id
        ensures id in ids ==> FreeFor(s, h, id) && IdOk(s', id)
        ensures id !in ids ==> SameAt(s, s', id)
      {
        DeletedId(s, h, id);
      }
      LocalInv(s, s', h, ids);
    }
  }

  lemma {:induction false} CommitDetachInv(s: State, h: Hid)
    requires Inv(s) && Runs(s, h) && s.handlers[h].Detaching?
    ensures Inv(NextCommitDetach(s, h))
  {
    var id := s.handlers[h].attachment;
    assert HandlerOk(s, h) && IdOk(s, id);
    if Belongs(s.tables, s.handlers[h].target, id) {
      TouchInv(s, NextCommitDetach(s, h), h, id);
    } else {
      DoneInv(s, h);
    }
  }

  lemma {:induction false} EraseOneInv(s: State, h: Hid, id: Id, ok: bool)
    requires Inv(s) && Enabled(s, EraseOne(h, id, ok))
    ensures Inv(NextEraseOne(s, h, id, ok))
  {
    var p := s.handlers[h];
    assert HandlerOk(s, h);
    UnlinkInv(s, h, id, ok, Erasing(p.files - {id}, p.touch));
  }

  lemma {:induction false} TouchRowInv(s: State, h: Hid, now: int)
    requires Inv(s) && Enabled(s, TouchRow(h, now, true))
    ensures Inv(NextTouchRow(s, h, now))
  {
    assert HandlerOk(s, h);
    StillInv(s, NextTouchRow(s, h, now), h);
  }

  lemma {:induction false} DropInv(s: State, h: Hid)
    requires Inv(s) && Runs(s, h)
    ensures Inv(NextDrop(s, h))
  {
    var p := s.handlers[h];
    var touched := Owned(p) + if OpenTemp(p).Some? then {OpenTemp(p).value} else {};
    assert HandlerOk(s, h);
    forall id | id in touched ensures IdOk(NextDrop(s, h), id) {
      assert IdOk(s, id);
    }
    LocalInv(s, NextDrop(s, h), h, touched);
  }

  lemma {:induction false} CrashInv(s: State)
    requires Inv(s)
    ensures Inv(NextCrash(s))
  {
    forall id ensures IdOk(NextCrash(s), id) {
      assert IdOk(s, id);
    }
  }

  lemma {:induction false} ScanTempInv(s: State, id: Id, ok: bool)
    requires Inv(s) && Enabled(s, ScanTemp(id, ok))
    ensures Inv(NextScanTemp(s, id, ok))
    ensures NextScanTemp(s, id, ok).files == s.files && NextScanTemp(s, id, ok).tables == s.tables
  {
    forall i ensures IdOk(NextScanTemp(s, id, ok), i) {
      assert IdOk(s, i);
    }
  }

  lemma {:induction false} RestartInv(s: State, cipher: Cipher)
    requires Inv(s) && Enabled(s, Restart(cipher))
    ensures Inv(Next(s, Restart(cipher)))
  {
    forall id ensures IdOk(Next(s, Restart(cipher)), id) {
      assert IdOk(s, id);
    }
  }

  /** The steps that read or change the tables. */
  lemma {:induction false} TablesStepInv(s: State, st: Step)
    requires Inv(s) && Enabled(s, st)
    requires OnTables(st)
    ensures Inv(Next(s, st))
  {
    match st
    case ReadRow(h, ok) => ReadRowInv(s, h, ok);
    case CommitCreate(h, rid, nonce, title, content, now, ok) =>
      CommitCreateInv(s, h, rid, s.cipher.seal(nonce, title, content), now, ok);
    case CommitUpdate(h, nonce, title, content, now, ok) =>
      CommitUpdateInv(s, h, s.cipher.seal(nonce, title, content), now, ok);
    case InsertOne(h, ok) => InsertOneInv(s, h, ok);
    case RollBack(h, ok) => if ok { RollBackInv(s, h); } else { DoneInv(s, h); }
    case CommitDelete(h, ok) => if ok { CommitDeleteInv(s, h); } else { DoneInv(s, h); }
    case CommitDetach(h, ok) => if ok { CommitDetachInv(s, h); } else { DoneInv(s, h); }
    case TouchRow(h, now, ok) => if ok { TouchRowInv(s, h, now); } else { DoneInv(s, h); }
  }

  /** The steps that move files. */
  predicate OnFiles(st: Step) {
    st.OpenUpload? || st.WriteChunk? || st.Reject? || st.Finalize? || st.AbortTemp?
    || st.CleanOne? || st.UnwindFile? || st.EraseOne?
  }

  lemma {:induction false} FileStepInv(s: State, st: Step)
    requires Inv(s) && Enabled(s, st) && OnFiles(st)
    ensures Inv(Next(s, st))
  {
    match st
    case OpenUpload(h, id, ok) => OpenUploadInv(s, h, id, ok);
    case WriteChunk(h, chunk, ok, kept) => WriteChunkInv(s, h, chunk, ok, kept);
    case Reject(h) => RejectInv(s, h);
    case Finalize(h, filename, mime, ok) => FinalizeInv(s, h, filename, mime, ok);
    case AbortTemp(h, ok) => AbortTempInv(s, h, ok);
    case CleanOne(h, ok) => CleanOneInv(s, h, ok);
    case UnwindFile(h, ok) => UnwindFileInv(s, h, ok);
    case EraseOne(h, id, ok) => EraseOneInv(s, h, id, ok);
  }

  /** Requests come and go, and so does the process. */
  lemma {:induction false} ComingAndGoingInv(s: State, st: Step)
    requires Inv(s) && Enabled(s, st) && !OnTables(st) && !OnFiles(st)
    ensures Inv(Next(s, st))
  {
    match st
    case StartCreate(h) => StartInv(s, h, Parsing(Creating, [], None));
    case StartUpdate(h, target) => StartInv(s, h, Reading(target));
    case StartDelete(h, target) => StartInv(s, h, Deleting(target));
    case StartDetach(h, target, attachment) => StartInv(s, h, Detaching(target, attachment));
    case CleanEnd(h) => DoneInv(s, h);
    case Send(h) => DoneInv(s, h);
    case Drop(h) => DropInv(s, h);
    case Crash => CrashInv(s);
    case ScanTemp(id, ok) => ScanTempInv(s, id, ok);
    case Restart(cipher) => RestartInv(s, cipher);
  }

  /** Every step of every request, and every crash and restart, keeps the invariant. */
  lemma {:induction false} StepInv(s: State, st: Step)
    requires Inv(s) && Enabled(s, st)
    ensures Inv(Next(s, st))
  {
    if OnTables(st) {
      TablesStepInv(s, st);
    } else if OnFiles(st) {
      FileStepInv(s, st);
    } else {
      ComingAndGoingInv(s, st);
    }
  }
}
