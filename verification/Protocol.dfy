/** The attachment protocol as a step system: any number of create, update,
    delete-record and delete-attachment requests interleave at their awaits,
    over one database, one directory of temp files and one of final files.
    Every step may meet an error, any request may be dropped, and the process
    may crash and start again. */
module Protocol {
  import opened Wrappers
  import opened Schema
  import opened Crypto
  import opened Uploads

  /** Names a running request. */
  type Hid = nat

  /** The temp file being written, with the bytes counted so far. */
  datatype Open = Open(id: Id, size: nat)

  datatype Goal = Creating | Updating(target: Id, oldBlob: Bytes, oldStamp: int)

  /** What a request does to its record when an attachment row cannot be inserted. */
  datatype Undo = Uncreate(rid: Id) | Restore(rid: Id, oldBlob: Bytes, oldStamp: int)

  /** Where a request stands, with its local variables. */
  datatype Handler =
    | Reading(target: Id)                                               // update: before get_record
    | Parsing(goal: Goal, uploads: seq<Upload>, open: Option<Open>)     // in parse_record_form
    | Aborting(temp: Id, uploads: seq<Upload>)                          // before abort_upload
    | Cleaning(uploads: seq<Upload>)                                    // in cleanup_uploads
    | Inserting(undo: Undo, uploads: seq<Upload>, stamp: int)           // in insert_uploads
    | Unwinding(undo: Undo, failed: Id)                                 // row refused: its file goes
    | RollingBack(undo: Undo)                                           // before the rollback call
    | Deleting(target: Id)                                              // before delete_record
    | Detaching(target: Id, attachment: Id)                             // before delete_attachment
    | Erasing(files: set<Id>, touch: Option<Id>)                        // rows gone, files to erase

  /** Who answers for a file.  The steps write this ledger and never read it. */
  datatype Holder = Row | Held(h: Hid) | Leaked | Temp(h: Hid) | Stale

  /** Serving requests, or starting up with these temp files still to be swept. */
  datatype Phase = Serving | Starting(sweep: set<Id>)

  /** `minted`, `sent` and `holder` are history: every id generated so far, the bytes
      received for each upload, and the ledger of files. */
  datatype State = State(
    tables: Tables,
    tmp: map<Id, Bytes>,
    files: map<Id, Bytes>,
    handlers: map<Hid, Handler>,
    phase: Phase,
    cipher: Cipher,
    minted: set<Id>,
    sent: map<Id, Bytes>,
    holder: map<Id, Holder>)

  datatype Step =
    | StartCreate(h: Hid)
    | StartUpdate(h: Hid, target: Id)
    | StartDelete(h: Hid, target: Id)
    | StartDetach(h: Hid, target: Id, attachment: Id)
    | ReadRow(h: Hid, ok: bool)
    | OpenUpload(h: Hid, id: Id, ok: bool)
    | WriteChunk(h: Hid, chunk: Bytes, ok: bool, kept: nat)
    | Reject(h: Hid)
    | Finalize(h: Hid, filename: string, mime: string, ok: bool)
    | AbortTemp(h: Hid, ok: bool)
    | CleanOne(h: Hid, ok: bool)
    | CleanEnd(h: Hid)
    | CommitCreate(h: Hid, rid: Id, nonce: Bytes, title: string, content: string, now: int, ok: bool)
    | CommitUpdate(h: Hid, nonce: Bytes, title: string, content: string, now: int, ok: bool)
    | InsertOne(h: Hid, ok: bool)
    | UnwindFile(h: Hid, ok: bool)
    | RollBack(h: Hid, ok: bool)
    | CommitDelete(h: Hid, ok: bool)
    | CommitDetach(h: Hid, ok: bool)
    | EraseOne(h: Hid, id: Id, ok: bool)
    | TouchRow(h: Hid, now: int, ok: bool)
    | Send(h: Hid)
    | Drop(h: Hid)
    | Crash
    | ScanTemp(id: Id, ok: bool)
    | Restart(cipher: Cipher)

  // ----- Vocabulary -----

  /** The steps that call the database. */
  predicate OnTables(st: Step) {
    st.ReadRow? || st.CommitCreate? || st.CommitUpdate? || st.InsertOne? || st.RollBack?
    || st.CommitDelete? || st.CommitDetach? || st.TouchRow?
  }

  /** The final files a request is responsible for. */
  function Owned(p: Handler): set<Id> {
    match p
    case Parsing(_, us, _) => Ids(us)
    case Aborting(_, us) => Ids(us)
    case Cleaning(us) => Ids(us)
    case Inserting(_, us, _) => Ids(us)
    case Unwinding(_, id) => {id}
    case Erasing(ids, _) => ids
    case _ => {}
  }

  /** The temp file a request is responsible for. */
  function OpenTemp(p: Handler): Option<Id> {
    match p
    case Parsing(_, _, Some(o)) => Some(o.id)
    case Aborting(id, _) => Some(id)
    case _ => None
  }

  /** The bytes received for an upload. */
  function SentSoFar(s: State, id: Id): Bytes {
    if id in s.sent then s.sent[id] else []
  }

  function Goto(s: State, h: Hid, p: Handler): State {
    s.(handlers := s.handlers[h := p])
  }

  function Done(s: State, h: Hid): State {
    s.(handlers := s.handlers - {h})
  }

  /** Hands the files over to a new holder. */
  function Hand(holder: map<Id, Holder>, ids: set<Id>, to: Holder): map<Id, Holder> {
    map id | id in holder.Keys + ids :: if id in ids then to else holder[id]
  }

  /** Removes a final file, or leaves it behind when the removal fails. */
  function Unlink(s: State, id: Id, ok: bool): State {
    if ok then s.(files := s.files - {id}, holder := s.holder - {id})
    else s.(holder := s.holder[id := Leaked])
  }

  // ----- The steps -----

  /** The step moved no byte on disk. */
  ghost predicate DiskKept(s: State, s': State) {
    s'.tmp == s.tmp && s'.files == s.files && s'.sent == s.sent && s'.phase == s.phase && s'.cipher == s.cipher
  }

  predicate Runs(s: State, h: Hid) {
    s.phase.Serving? && h in s.handlers
  }

  predicate Starts(s: State, h: Hid) {
    s.phase.Serving? && h !in s.handlers
  }

  /** An open temp file is always there: requests of one process share no temp file. */
  ghost predicate Enabled(s: State, st: Step) {
    match st
    case StartCreate(h) => Starts(s, h)
    case StartUpdate(h, _) => Starts(s, h)
    case StartDelete(h, _) => Starts(s, h)
    case StartDetach(h, _, _) => Starts(s, h)
    case ReadRow(h, _) => Runs(s, h) && s.handlers[h].Reading?
    case OpenUpload(h, id, _) => Runs(s, h) && s.handlers[h].Parsing? && s.handlers[h].open.None? && id !in s.minted
    case WriteChunk(h, chunk, _, kept) =>
      Runs(s, h) && s.handlers[h].Parsing? && s.handlers[h].open.Some? && s.handlers[h].open.value.id in s.tmp
      && kept <= |chunk|
    case Reject(h) => Runs(s, h) && s.handlers[h].Parsing?
    case Finalize(h, _, _, _) =>
      Runs(s, h) && s.handlers[h].Parsing? && s.handlers[h].open.Some? && s.handlers[h].open.value.id in s.tmp
    case AbortTemp(h, _) => Runs(s, h) && s.handlers[h].Aborting?
    case CleanOne(h, _) => Runs(s, h) && s.handlers[h].Cleaning? && s.handlers[h].uploads != []
    case CleanEnd(h) => Runs(s, h) && s.handlers[h].Cleaning? && s.handlers[h].uploads == []
    case CommitCreate(h, rid, _, _, _, _, _) =>
      Runs(s, h) && s.handlers[h].Parsing? && s.handlers[h].open.None? && s.handlers[h].goal.Creating?
      && rid !in s.minted
    case CommitUpdate(h, _, _, _, _, _) =>
      Runs(s, h) && s.handlers[h].Parsing? && s.handlers[h].open.None? && s.handlers[h].goal.Updating?
    case InsertOne(h, _) => Runs(s, h) && s.handlers[h].Inserting? && s.handlers[h].uploads != []
    case UnwindFile(h, _) => Runs(s, h) && s.handlers[h].Unwinding?
    case RollBack(h, _) => Runs(s, h) && s.handlers[h].RollingBack?
    case CommitDelete(h, _) => Runs(s, h) && s.handlers[h].Deleting?
    case CommitDetach(h, _) => Runs(s, h) && s.handlers[h].Detaching?
    case EraseOne(h, id, _) => Runs(s, h) && s.handlers[h].Erasing? && id in s.handlers[h].files
    case TouchRow(h, _, _) =>
      Runs(s, h) && s.handlers[h].Erasing? && s.handlers[h].files == {} && s.handlers[h].touch.Some?
    case Send(h) =>
      Runs(s, h) && (s.handlers[h] == Erasing({}, None) || (s.handlers[h].Inserting? && s.handlers[h].uploads == []))
    case Drop(h) => Runs(s, h)
    case Crash => true
    case ScanTemp(id, _) => s.phase.Starting? && id in s.phase.sweep
    case Restart(cipher) => s.phase == Starting({}) && Lawful(cipher)
  }

  function Next(s: State, st: Step): State
    requires Enabled(s, st)
  {
    match st
    case StartCreate(h) => Goto(s, h, Parsing(Creating, [], None))
    case StartUpdate(h, target) => Goto(s, h, Reading(target))
    case StartDelete(h, target) => Goto(s, h, Deleting(target))
    case StartDetach(h, target, attachment) => Goto(s, h, Detaching(target, attachment))
    case ReadRow(h, ok) => NextReadRow(s, h, ok)
    case OpenUpload(h, id, ok) => NextOpenUpload(s, h, id, ok)
    case WriteChunk(h, chunk, ok, kept) => NextWriteChunk(s, h, chunk, ok, kept)
    case Reject(h) => NextReject(s, h)
    case Finalize(h, filename, mime, ok) => NextFinalize(s, h, filename, mime, ok)
    case AbortTemp(h, ok) => NextAbortTemp(s, h, ok)
    case CleanOne(h, ok) => NextCleanOne(s, h, ok)
    case CleanEnd(h) => Done(s, h)
    case CommitCreate(h, rid, nonce, title, content, now, ok) =>
      NextCommitCreate(s, h, rid, s.cipher.seal(nonce, title, content), now, ok)
    case CommitUpdate(h, nonce, title, content, now, ok) =>
      NextCommitUpdate(s, h, s.cipher.seal(nonce, title, content), now, ok)
    case InsertOne(h, ok) => NextInsertOne(s, h, ok)
    case UnwindFile(h, ok) => NextUnwindFile(s, h, ok)
    case RollBack(h, ok) => if ok then NextRollBack(s, h) else Done(s, h)
    case CommitDelete(h, ok) => if ok then NextCommitDelete(s, h) else Done(s, h)
    case CommitDetach(h, ok) => if ok then NextCommitDetach(s, h) else Done(s, h)
    case EraseOne(h, id, ok) => NextEraseOne(s, h, id, ok)
    case TouchRow(h, now, ok) => if ok then NextTouchRow(s, h, now) else Done(s, h)
    case Send(h) => Done(s, h)
    case Drop(h) => NextDrop(s, h)
    case Crash => NextCrash(s)
    case ScanTemp(id, ok) => NextScanTemp(s, id, ok)
    case Restart(cipher) => s.(phase := Serving, cipher := cipher)
  }

  /** A missing or undecryptable row ends the request. */
  function NextReadRow(s: State, h: Hid, ok: bool): (s': State)
    requires Enabled(s, ReadRow(h, ok))
    ensures DiskKept(s, s')
    ensures s'.tables == s.tables && s'.minted == s.minted
  {
    var target := s.handlers[h].target;
    if ok && target in s.tables.records && Opens(s.cipher, s.tables.records[target].blob) then
      var row := s.tables.records[target];
      Goto(s, h, Parsing(Updating(target, row.blob, row.updatedAt), [], None))
    else Done(s, h)
  }

  function NextOpenUpload(s: State, h: Hid, id: Id, ok: bool): State
    requires Enabled(s, OpenUpload(h, id, ok))
  {
    var p := s.handlers[h];
    var s1 := s.(minted := s.minted + {id});
    if ok then
      Goto(s1.(tmp := s.tmp[id := []], sent := s.sent[id := []], holder := s.holder[id := Temp(h)]),
           h, Parsing(p.goal, p.uploads, Some(Open(id, 0))))
    else Goto(s1, h, Cleaning(p.uploads))
  }

  /** A failed write may leave a prefix of the chunk in the temp file. */
  function NextWriteChunk(s: State, h: Hid, chunk: Bytes, ok: bool, kept: nat): State
    requires Enabled(s, WriteChunk(h, chunk, ok, kept))
  {
    var p := s.handlers[h];
    var o := p.open.value;
    var s1 := s.(sent := s.sent[o.id := SentSoFar(s, o.id) + chunk]);
    if ok then
      Goto(s1.(tmp := s.tmp[o.id := s.tmp[o.id] + chunk]),
           h, Parsing(p.goal, p.uploads, Some(Open(o.id, o.size + |chunk|))))
    else
      Goto(s1.(tmp := s.tmp[o.id := s.tmp[o.id] + chunk[..kept]]), h, Aborting(o.id, p.uploads))
  }

  /** A limit, a malformed part or a broken stream ends the parse. */
  function NextReject(s: State, h: Hid): State
    requires Enabled(s, Reject(h))
  {
    var p := s.handlers[h];
    Goto(s, h, if p.open.Some? then Aborting(p.open.value.id, p.uploads) else Cleaning(p.uploads))
  }

  function NextFinalize(s: State, h: Hid, filename: string, mime: string, ok: bool): State
    requires Enabled(s, Finalize(h, filename, mime, ok))
  {
    var p := s.handlers[h];
    var o := p.open.value;
    if ok then
      Goto(s.(tmp := s.tmp - {o.id}, files := s.files[o.id := s.tmp[o.id]], holder := s.holder[o.id := Held(h)]),
           h, Parsing(p.goal, p.uploads + [Upload(o.id, filename, mime, o.size)], None))
    else Goto(s, h, Aborting(o.id, p.uploads))
  }

  function NextAbortTemp(s: State, h: Hid, ok: bool): State
    requires Enabled(s, AbortTemp(h, ok))
  {
    var p := s.handlers[h];
    var s1 := if ok then s.(tmp := s.tmp - {p.temp}, holder := s.holder - {p.temp})
              else s.(holder := s.holder[p.temp := Stale]);
    Goto(s1, h, Cleaning(p.uploads))
  }

  function NextCleanOne(s: State, h: Hid, ok: bool): State
    requires Enabled(s, CleanOne(h, ok))
  {
    var us := s.handlers[h].uploads;
    Goto(Unlink(s, us[0].id, ok), h, Cleaning(us[1..]))
  }

  function NextCommitCreate(s: State, h: Hid, rid: Id, blob: Bytes, now: int, ok: bool): (s': State)
    requires Runs(s, h) && s.handlers[h].Parsing?
    ensures DiskKept(s, s')
    ensures s'.minted == s.minted + {rid}
    ensures s'.tables == s.tables || Some(s'.tables) == InsertRecord(s.tables, rid, blob, now)
  {
    var p := s.handlers[h];
    var s1 := s.(minted := s.minted + {rid});
    var t := InsertRecord(s.tables, rid, blob, now);
    if ok && t.Some? then
      Goto(s1.(tables := t.value), h, Inserting(Uncreate(rid), p.uploads, now))
    else Goto(s1, h, Cleaning(p.uploads))
  }

  /** When the record has gone meanwhile the request ends without erasing its uploads. */
  function NextCommitUpdate(s: State, h: Hid, blob: Bytes, now: int, ok: bool): (s': State)
    requires Runs(s, h) && s.handlers[h].Parsing? && s.handlers[h].goal.Updating?
    ensures DiskKept(s, s')
    ensures s'.minted == s.minted
    ensures s'.tables == s.tables || s'.tables == SetBlob(s.tables, s.handlers[h].goal.target, blob, now)
  {
    var p := s.handlers[h];
    var g := p.goal;
    if !ok then Goto(s, h, Cleaning(p.uploads))
    else if g.target !in s.tables.records then
      Done(s.(holder := Hand(s.holder, Ids(p.uploads), Leaked)), h)
    else
      Goto(s.(tables := SetBlob(s.tables, g.target, blob, now)),
           h, Inserting(Restore(g.target, g.oldBlob, g.oldStamp), p.uploads, now))
  }

  /** A refused row abandons the uploads after it. */
  function NextInsertOne(s: State, h: Hid, ok: bool): (s': State)
    requires Enabled(s, InsertOne(h, ok))
    ensures DiskKept(s, s')
    ensures s'.minted == s.minted && s'.tables.records == s.tables.records
  {
    var p := s.handlers[h];
    var u := p.uploads[0];
    var t := InsertAttachment(s.tables, u.id, RowOf(p.undo.rid, u, p.stamp));
    if ok && t.Some? then
      Goto(s.(tables := t.value, holder := s.holder[u.id := Row]),
           h, Inserting(p.undo, p.uploads[1..], p.stamp))
    else
      Goto(s.(holder := Hand(s.holder, Ids(p.uploads[1..]), Leaked)), h, Unwinding(p.undo, u.id))
  }

  function NextUnwindFile(s: State, h: Hid, ok: bool): State
    requires Enabled(s, UnwindFile(h, ok))
  {
    var p := s.handlers[h];
    Goto(Unlink(s, p.failed, ok), h, RollingBack(p.undo))
  }

  /** The row of the next upload is inserted. */
  predicate RowGoesIn(s: State, h: Hid, ok: bool)
    requires h in s.handlers && s.handlers[h].Inserting? && s.handlers[h].uploads != []
  {
    var p := s.handlers[h];
    ok && InsertAttachment(s.tables, p.uploads[0].id, RowOf(p.undo.rid, p.uploads[0], p.stamp)).Some?
  }

  /** The rollback call: drop the created record, or write the old blob back. */
  function Undone(t: Tables, undo: Undo): Tables {
    match undo
    case Uncreate(rid) => DropRecord(t, rid)
    case Restore(rid, blob, stamp) => SetBlob(t, rid, blob, stamp)
  }

  /** Undoing a create discards the ids of the rows that cascade. */
  function NextRollBack(s: State, h: Hid): (s': State)
    requires Runs(s, h) && s.handlers[h].RollingBack?
    ensures DiskKept(s, s')
    ensures s'.minted == s.minted && s'.tables == Undone(s.tables, s.handlers[h].undo)
  {
    var u := s.handlers[h].undo;
    var lost := if u.Uncreate? then ChildrenOf(s.tables, u.rid) else {};
    Done(s.(tables := Undone(s.tables, u),
            holder := Hand(s.holder, lost, Leaked)), h)
  }

  function NextCommitDelete(s: State, h: Hid): (s': State)
    requires Runs(s, h) && s.handlers[h].Deleting?
    ensures DiskKept(s, s')
    ensures s'.minted == s.minted
    ensures s'.tables == s.tables || s'.tables == DropRecord(s.tables, s.handlers[h].target)
  {
    var target := s.handlers[h].target;
    var ids := ChildrenOf(s.tables, target);
    if target !in s.tables.records then Done(s, h)
    else
      Goto(s.(tables := DropRecord(s.tables, target), holder := Hand(s.holder, ids, Held(h))),
           h, Erasing(ids, None))
  }

  function NextCommitDetach(s: State, h: Hid): (s': State)
    requires Runs(s, h) && s.handlers[h].Detaching?
    ensures DiskKept(s, s')
    ensures s'.minted == s.minted && s'.tables.records == s.tables.records
  {
    var target, id := s.handlers[h].target, s.handlers[h].attachment;
    if !Belongs(s.tables, target, id) then Done(s, h)
    else
      Goto(s.(tables := DropAttachment(s.tables, target, id), holder := s.holder[id := Held(h)]),
           h, Erasing({id}, Some(target)))
  }

  function NextEraseOne(s: State, h: Hid, id: Id, ok: bool): State
    requires Enabled(s, EraseOne(h, id, ok))
  {
    var p := s.handlers[h];
    Goto(Unlink(s, id, ok), h, Erasing(p.files - {id}, p.touch))
  }

  function NextTouchRow(s: State, h: Hid, now: int): (s': State)
    requires Enabled(s, TouchRow(h, now, true))
    ensures DiskKept(s, s')
    ensures s'.minted == s.minted && s'.tables == Touch(s.tables, s.handlers[h].touch.value, now)
  {
    Goto(s.(tables := Touch(s.tables, s.handlers[h].touch.value, now)), h, Erasing({}, None))
  }

  function NextDrop(s: State, h: Hid): State
    requires Runs(s, h)
  {
    var p := s.handlers[h];
    var left := Hand(s.holder, Owned(p), Leaked);
    Done(s.(holder := if OpenTemp(p).Some? then left[OpenTemp(p).value := Stale] else left), h)
  }

  /** Every request vanishes; what it held stays on disk. */
  function NextCrash(s: State): State {
    s.(handlers := map[], phase := Starting(s.tmp.Keys),
       holder := map id | id in s.holder ::
         match s.holder[id] case Row => Row case Held(_) => Leaked case Leaked => Leaked case _ => Stale)
  }

  function NextScanTemp(s: State, id: Id, ok: bool): State
    requires s.phase.Starting?
  {
    var s1 := s.(phase := Starting(s.phase.sweep - {id}));
    if ok then s1.(tmp := s.tmp - {id}, holder := s.holder - {id}) else s1
  }

  // ----- Runs -----

  /** An empty data directory and a process that serves. */
  ghost predicate Init(s: State) {
    && s.tables == Tables(map[], map[])
    && s.tmp == map[] && s.files == map[] && s.handlers == map[] && s.phase == Serving
    && s.minted == {} && s.sent == map[] && s.holder == map[]
    && Lawful(s.cipher)
  }

  ghost predicate Run(s: State, steps: seq<Step>)
    decreases |steps|
  {
    steps == [] || (Enabled(s, steps[0]) && Run(Next(s, steps[0]), steps[1..]))
  }

  ghost function After(s: State, steps: seq<Step>): State
    requires Run(s, steps)
    decreases |steps|
  {
    if steps == [] then s else After(Next(s, steps[0]), steps[1..])
  }
}
