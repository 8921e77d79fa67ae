/** The write handlers run alone, statement by statement, with their rollback paths. */
module Handlers {
  import opened Wrappers
  import opened Schema
  import opened Crypto
  import opened Uploads
  import opened Effects
  import opened Files
  import opened Database
  import opened Parser
  import opened ParserMeaning
  import Render

  datatype Reply = Accepted | NotFound | Refused(refusal: Refusal) | Failed

  /** Which answer goes with which stage; `fault` says that a file operation failed. */
  predicate Fits(reply: Reply, stage: Stage, cfg: Config, form: Form, fault: bool) {
    match stage
    case Reading => !reply.Accepted?
    case Parsing => reply.Refused? && ParseRefused(cfg, form, reply.refusal, fault)
    case Committing => reply.Failed?
    case Vanished => reply.NotFound?
    case RowRefused(_, _) => reply.Failed?
    case Finished => reply.Accepted?
  }

  /** The tables and the disk hold what the form says: the record as `row`, and for each file
      part, in order, its row and its bytes; all else is as before. */
  ghost predicate Holds(cfg: Config, form: Form, before: Tables, after: Tables, disk: map<Id, Bytes>,
                        id: Id, row: Record, uploads: seq<Upload>, now: int) {
    var files := FilesIn(cfg, form.parts);
    && after.records == before.records[id := row]
    && after.attachments.Keys == before.attachments.Keys + Ids(uploads)
    && (forall a :: a in before.attachments && a !in Ids(uploads) ==> after.attachments[a] == before.attachments[a])
    && |uploads| == |files|
    && (forall i :: 0 <= i < |files| ==>
          && uploads[i].id in after.attachments && uploads[i].id in disk
          && after.attachments[uploads[i].id]
             == Attachment(id, files[i].filename, |files[i].bytes|, files[i].mime, now)
          && disk[uploads[i].id] == files[i].bytes)
  }

  lemma {:induction false} SavedHolds(cfg: Config, form: Form, before: Tables, after: Tables, disk: map<Id, Bytes>,
                                      id: Id, row: Record, uploads: seq<Upload>, now: int)
    requires Accept(cfg, form).Some? && Stored(uploads, Accept(cfg, form).value.files, disk)
    requires after == WithRows(before.(records := before.records[id := row]), id, uploads, now)
    ensures Holds(cfg, form, before, after, disk, id, row, uploads, now)
  {
    var saved := before.(records := before.records[id := row]);
    AcceptedSays(cfg, form);
    WithRowsContents(saved, id, uploads, now);
    RowsOfUploads(saved, id, uploads, now);
  }

  // ----- The handlers -----

  /** Inserts rows in order.  At the first refusal that upload's file is removed and
      the uploads after it are abandoned. */
  method InsertUploads(db: Db, store: FileStore, record: Id, uploads: seq<Upload>, stamp: int)
    returns (ok: bool, ghost k: nat, ghost gone: bool)
    requires db.Valid() && store.Valid() && Distinct(uploads) && Ids(uploads) !! db.attachments.Keys
    modifies db, store
    ensures db.Valid() && store.Valid() && store.tmp == old(store.tmp) && store.minted == old(store.minted)
    ensures db.faults >= old(db.faults) && (ok ==> db.faults == old(db.faults))
    ensures db.faults == old(db.faults) ==> (ok <==> uploads == [] || record in old(db.records))
    ensures k <= |uploads| && db.View() == WithRows(old(db.View()), record, uploads[..k], stamp)
    ensures RowsSay(db.View(), record, uploads[..k], stamp)
    ensures ok ==> k == |uploads| && store.attachments == old(store.attachments)
    ensures !ok ==> k < |uploads|
                    && store.attachments == old(store.attachments) - (if gone then {uploads[k].id} else {})
                    && (!gone ==> store.unremoved > old(store.unremoved))
    ensures store.unremoved >= old(store.unremoved)
  {
    k, gone := 0, false;
    for i := 0 to |uploads|
      invariant db.Valid() && store.Valid() && store.tmp == old(store.tmp) && store.minted == old(store.minted)
      invariant store.attachments == old(store.attachments) && db.faults == old(db.faults)
      invariant store.unremoved == old(store.unremoved) && (i > 0 ==> record in old(db.records))
      invariant k == i && db.View() == WithRows(old(db.View()), record, uploads[..i], stamp)
    {
      var u := uploads[i];
      WithRowsContents(old(db.View()), record, uploads[..i], stamp);
      IdsNext(uploads, i);
      assert u in uploads;
      var inserted := db.InsertAttachment(u.id, RowOf(record, u, stamp));
      if !inserted {
        RowsOfUploads(old(db.View()), record, uploads[..i], stamp);
        gone := store.DeleteAttachment(u.id);
        return false, i, gone;
      }
      assert uploads[..i + 1][..i] == uploads[..i];
      k := i + 1;
    }
    assert uploads[..|uploads|] == uploads;
    RowsOfUploads(old(db.View()), record, uploads, stamp);
    return true, |uploads|, false;
  }

  class App {
    const db: Db
    const store: FileStore
    const cfg: Config
    const cipher: Cipher
    /** Events sent so far. */
    var sent: nat

    constructor (db: Db, store: FileStore, cfg: Config, cipher: Cipher)
      ensures this.db == db && this.store == store && this.cfg == cfg && this.cipher == cipher && sent == 0
    {
      this.db, this.store, this.cfg, this.cipher, sent := db, store, cfg, cipher, 0;
    }

    /** What an accepted form is encrypted to. */
    function BlobOf(form: Form, nonce: Bytes): Bytes {
      match Accept(cfg, form)
      case Some(d) => cipher.seal(nonce, d.title, d.content)
      case None => []
    }

    /** The last title, as it is stored, and the last content of the form, encrypted. */
    function TextBlob(form: Form, nonce: Bytes): Bytes {
      cipher.seal(nonce, Render.SaveTitle(LastText(cfg, form.parts, "title")), LastText(cfg, form.parts, "content"))
    }

    lemma {:induction false} BlobSaysText(form: Form, nonce: Bytes)
      requires Accept(cfg, form).Some?
      ensures BlobOf(form, nonce) == TextBlob(form, nonce)
      ensures Lawful(cipher) ==>
                cipher.open(BlobOf(form, nonce)) ==
                  Some((Render.SaveTitle(LastText(cfg, form.parts, "title")), LastText(cfg, form.parts, "content")))
    {
      AcceptedSays(cfg, form);
    }

    /** Both stores are in order, and no id of a row is handed out again. */
    ghost predicate Valid()
      reads this, db, store
    {
      db.Valid() && store.Valid() && db.attachments.Keys + db.records.Keys <= store.minted
    }

    /** The record is in; now its rows, or back out. */
    method FinishCreate(id: Id, uploads: seq<Upload>, now: int, ghost before: Tables, ghost blob: Bytes)
      returns (ok: bool, ghost k: nat, ghost undone: bool)
      requires db.Valid() && store.Valid() && Distinct(uploads) && Ids(uploads) !! before.attachments.Keys
      requires Referential(before) && Some(db.View()) == InsertRecord(before, id, blob, now)
      modifies db, store
      ensures db.Valid() && store.Valid() && store.minted == old(store.minted) && store.tmp == old(store.tmp)
      ensures ok ==> db.View() == WithRows(old(db.View()), id, uploads, now)
      ensures ok ==> store.attachments == old(store.attachments)
      ensures db.faults >= old(db.faults) && (db.faults == old(db.faults) ==> ok)
      ensures store.unremoved >= old(store.unremoved)
      ensures !ok ==> k < |uploads| && OneLess(old(store.attachments), store.attachments, uploads[k].id)
                      && (store.unremoved == old(store.unremoved) ==> uploads[k].id !in store.attachments)
      ensures !ok && undone ==> db.View() == before
      ensures !ok && !undone ==> db.View() == WithRows(old(db.View()), id, uploads[..k], now)
    {
      var inserted, n, gone := InsertUploads(db, store, id, uploads, now);
      ok, k, undone := inserted, n, false;
      if !inserted {
        assert uploads[k] in uploads;
        WithRowsContents(old(db.View()), id, uploads[..k], now);
        DropUndoesCreate(before, id, blob, now, uploads[..k]);
        var undo := db.DeleteRecord(id);
        undone := !undo.NotDone?;
      } else {
        assert uploads[..k] == uploads;
      }
    }

    /** After the parse of a create: insert the record, then its rows, or back out. */
    method StoreCreated(p: Parsed, nonce: Bytes, now: int)
      returns (ghost stage: Stage, ok: bool, ghost id: Id, ghost left: set<Id>)
      requires Valid() && Distinct(p.uploads) && Ids(p.uploads) !! db.attachments.Keys && Ids(p.uploads) <= store.minted
      modifies db, store
      ensures Valid() && store.tmp == old(store.tmp)
      ensures (ok <==> stage.Finished?) && (db.faults == old(db.faults) ==> ok)
      ensures CreateEffect(stage, old(db.View()), db.View(), id, cipher.seal(nonce, p.title, p.content), p.uploads, now)
      ensures FilesEffect(stage, p.uploads, left, old(store.attachments), store.attachments,
                          store.unremoved > old(store.unremoved))
      ensures store.unremoved >= old(store.unremoved)
    {
      left := {};
      var rid := store.NewId();
      id := rid;
      ok := db.CreateRecord(rid, cipher.seal(nonce, p.title, p.content), now);
      if !ok {
        left := CleanupUploads(store, p.uploads);
        return Committing, false, id, left;
      }
      ghost var created := db.View();
      ghost var k, undone;
      ok, k, undone := FinishCreate(rid, p.uploads, now, old(db.View()), cipher.seal(nonce, p.title, p.content));
      WithRowsContents(created, id, if ok then p.uploads else p.uploads[..k], now);
      stage := if ok then Finished else RowRefused(k, undone);
      if !ok {
        assert Ids(p.uploads[..k]) <= Ids(p.uploads);
      }
    }

    /** A refused form or a failed first insert leaves both tables alone.  When a row is
        refused, whichever it is, and the rollback call goes through, both tables are as
        before; otherwise the record and the rows before the refused one remain. */
    method CreateRecord(form: Form, nonce: Bytes, now: int)
      returns (reply: Reply, ghost stage: Stage, ghost id: Id, ghost uploads: seq<Upload>, ghost left: set<Id>)
      requires Valid()
      modifies this, db, store
      ensures Valid()
      ensures sent == old(sent) + if reply.Accepted? then 1 else 0
      ensures Fits(reply, stage, cfg, form, store.faults > old(store.faults)) && !stage.Reading?
      ensures db.faults == old(db.faults) ==> stage.Parsing? || stage.Finished?
      ensures db.faults == old(db.faults) && store.faults == old(store.faults) ==>
                (reply.Accepted? <==> Accept(cfg, form).Some?)
      ensures DiskEffect(stage, uploads, left, old(store.tmp), store.tmp, old(store.attachments), store.attachments)
      ensures (stage.Parsing? || stage.Committing?) && store.unremoved == old(store.unremoved) ==> left == {}
      ensures stage.RowRefused? && store.unremoved == old(store.unremoved) ==> uploads[stage.k].id !in store.attachments
      ensures stage.RowRefused? || stage.Finished? ==> Accept(cfg, form).Some?
      ensures CreateEffect(stage, old(db.View()), db.View(), id, BlobOf(form, nonce), uploads, now)
      ensures stage.Finished? ==> Stored(uploads, Accept(cfg, form).value.files, store.attachments)
      ensures reply.Accepted? ==>
                id !in old(db.records)
                && Holds(cfg, form, old(db.View()), db.View(), store.attachments, id,
                         Record(TextBlob(form, nonce), now, now), uploads, now)
    {
      uploads, id := [], 0;
      var parsed, kept := ParseRecordForm(store, cfg, form);
      left := kept;
      if parsed.Err? {
        return Refused(parsed.error), Parsing, id, [], left;
      }
      var p := parsed.value;
      uploads := p.uploads;
      var ok;
      ghost var files := store.attachments;
      stage, ok, id, left := StoreCreated(p, nonce, now);
      DiskAfterParse(stage, uploads, left, old(store.tmp), old(store.attachments), files, store.attachments,
                     store.unremoved > old(store.unremoved));
      if !ok {
        return Failed, stage, id, uploads, left;
      }
      BlobSaysText(form, nonce);
      SavedHolds(cfg, form, old(db.View()), db.View(), store.attachments, id,
                 Record(TextBlob(form, nonce), now, now), uploads, now);
      sent := sent + 1;
      return Accepted, stage, id, uploads, left;
    }

    /** The record is overwritten; now its new rows, or the old blob back. */
    method FinishUpdate(id: Id, uploads: seq<Upload>, now: int, row: Record, ghost before: Tables, ghost blob: Bytes)
      returns (ok: bool, ghost k: nat, ghost undone: bool)
      requires db.Valid() && store.Valid() && Distinct(uploads) && Ids(uploads) !! before.attachments.Keys
      requires id in before.records && db.View() == SetBlob(before, id, blob, now)
      modifies db, store
      ensures db.Valid() && store.Valid() && store.minted == old(store.minted) && store.tmp == old(store.tmp)
      ensures db.faults >= old(db.faults) && (db.faults == old(db.faults) ==> ok)
      ensures ok ==> db.View() == WithRows(old(db.View()), id, uploads, now)
      ensures ok ==> store.attachments == old(store.attachments)
      ensures store.unremoved >= old(store.unremoved)
      ensures !ok ==> k < |uploads| && OneLess(old(store.attachments), store.attachments, uploads[k].id)
                      && (store.unremoved == old(store.unremoved) ==> uploads[k].id !in store.attachments)
      ensures !ok && undone ==>
                db.View() == WithRows(SetBlob(before, id, row.blob, row.updatedAt), id, uploads[..k], now)
      ensures !ok && !undone ==> db.View() == WithRows(old(db.View()), id, uploads[..k], now)
    {
      var inserted, n, gone := InsertUploads(db, store, id, uploads, now);
      ok, k, undone := inserted, n, false;
      if !inserted {
        assert uploads[k] in uploads;
        RestoreReplacesUpdate(before, id, blob, now, uploads[..k], row);
        var undo := db.UpdateRecord(id, row.blob, row.updatedAt);
        undone := undo.Some?;
      } else {
        assert uploads[..k] == uploads;
      }
    }

    /** After the parse of an update: overwrite the record, then insert rows, or back out.
        When the record has gone meanwhile nothing is written and the uploads stay behind. */
    method StoreUpdated(id: Id, row: Record, p: Parsed, nonce: Bytes, now: int)
      returns (ghost stage: Stage, written: Option<bool>, ok: bool, ghost left: set<Id>)
      requires Valid() && Distinct(p.uploads) && Ids(p.uploads) !! db.attachments.Keys && Ids(p.uploads) <= store.minted
      modifies db, store
      ensures Valid() && store.tmp == old(store.tmp)
      ensures (ok <==> stage.Finished?) && (stage.Vanished? <==> written == Some(false))
      ensures db.faults >= old(db.faults) && (db.faults == old(db.faults) ==> ok || stage.Vanished?)
      ensures UpdateEffect(stage, old(db.View()), db.View(), id, row,
                           cipher.seal(nonce, p.title, p.content), p.uploads, now)
      ensures FilesEffect(stage, p.uploads, left, old(store.attachments), store.attachments,
                          store.unremoved > old(store.unremoved))
      ensures store.unremoved >= old(store.unremoved)
    {
      left, ok := {}, false;
      written := db.UpdateRecord(id, cipher.seal(nonce, p.title, p.content), now);
      if written.None? {
        left := CleanupUploads(store, p.uploads);
        return Committing, written, false, left;
      }
      if !written.value {
        return Vanished, written, false, left;
      }
      ghost var updated := db.View();
      ghost var k, undone;
      ok, k, undone := FinishUpdate(id, p.uploads, now, row, old(db.View()), cipher.seal(nonce, p.title, p.content));
      stage := if ok then Finished else RowRefused(k, undone);
      WithRowsContents(updated, id, if ok then p.uploads else p.uploads[..k], now);
      if !ok {
        WithRowsContents(SetBlob(old(db.View()), id, row.blob, row.updatedAt), id, p.uploads[..k], now);
        assert Ids(p.uploads[..k]) <= Ids(p.uploads);
      }
    }

    /** The part of an update after its check, in whatever state other requests have left
        the tables since: parse, overwrite, insert rows, or back out. */
    method SaveUpdate(id: Id, row: Record, form: Form, nonce: Bytes, now: int)
      returns (reply: Reply, ghost stage: Stage, ghost uploads: seq<Upload>, ghost left: set<Id>)
      requires Valid()
      modifies this, db, store
      ensures Valid()
      ensures sent == old(sent) + if reply.Accepted? then 1 else 0
      ensures Fits(reply, stage, cfg, form, store.faults > old(store.faults)) && !stage.Reading?
      ensures db.faults >= old(db.faults)
      ensures db.faults == old(db.faults) ==> stage.Parsing? || stage.Vanished? || stage.Finished?
      ensures db.faults == old(db.faults) && store.faults == old(store.faults) ==>
                (reply.Accepted? <==> id in old(db.records) && Accept(cfg, form).Some?)
      ensures DiskEffect(stage, uploads, left, old(store.tmp), store.tmp, old(store.attachments), store.attachments)
      ensures (stage.Parsing? || stage.Committing?) && store.unremoved == old(store.unremoved) ==> left == {}
      ensures stage.RowRefused? && store.unremoved == old(store.unremoved) ==> uploads[stage.k].id !in store.attachments
      ensures stage.Vanished? || stage.RowRefused? || stage.Finished? ==> Accept(cfg, form).Some?
      ensures UpdateEffect(stage, old(db.View()), db.View(), id, row, BlobOf(form, nonce), uploads, now)
      ensures stage.Vanished? || stage.Finished? ==> Stored(uploads, Accept(cfg, form).value.files, store.attachments)
      ensures reply.Accepted? ==>
                id in old(db.records)
                && Holds(cfg, form, old(db.View()), db.View(), store.attachments, id,
                         Record(TextBlob(form, nonce), old(db.records)[id].createdAt, now), uploads, now)
    {
      uploads, left := [], {};
      var parsed, kept := ParseRecordForm(store, cfg, form);
      left := kept;
      if parsed.Err? {
        return Refused(parsed.error), Parsing, [], left;
      }
      var p := parsed.value;
      uploads := p.uploads;
      var written, ok;
      ghost var files := store.attachments;
      stage, written, ok, left := StoreUpdated(id, row, p, nonce, now);
      DiskAfterParse(stage, uploads, left, old(store.tmp), old(store.attachments), files, store.attachments,
                     store.unremoved > old(store.unremoved));
      if written == Some(false) {
        return NotFound, stage, uploads, left;
      }
      if !ok {
        return Failed, stage, uploads, left;
      }
      BlobSaysText(form, nonce);
      SavedHolds(cfg, form, old(db.View()), db.View(), store.attachments, id,
                 Record(TextBlob(form, nonce), old(db.records)[id].createdAt, now), uploads, now);
      sent := sent + 1;
      return Accepted, stage, uploads, left;
    }

    /** Nothing happens to a record that is missing or cannot be decrypted.  `deleted` says that
        another request deletes the record while the form is parsed; `found` is what the overwrite
        then finds.  When a row is refused and the rollback call goes through, the records table is
        as before (blob, creation and update stamps) and the attachments have gained exactly the
        rows before the refused one. */
    method UpdateRecord(id: Id, form: Form, nonce: Bytes, now: int, deleted: bool)
      returns (reply: Reply, ghost stage: Stage, ghost found: Tables, ghost uploads: seq<Upload>, ghost left: set<Id>)
      requires Valid()
      modifies this, db, store
      ensures Valid()
      ensures sent == old(sent) + if reply.Accepted? then 1 else 0
      ensures Fits(reply, stage, cfg, form, store.faults > old(store.faults))
      ensures found == old(db.View()) || (deleted && found == DropRecord(old(db.View()), id))
      ensures stage.Vanished? ==> deleted
      ensures db.faults == old(db.faults) ==> !stage.Committing? && !stage.RowRefused?
      ensures db.faults == old(db.faults) ==> (reply.NotFound? <==> id !in old(db.records) || stage.Vanished?)
      ensures stage.Reading? && db.faults == old(db.faults) && id in old(db.records) ==>
                reply == Refused(Unprocessable) && !Opens(cipher, old(db.records)[id].blob)
      ensures db.faults == old(db.faults) && store.faults == old(store.faults) ==>
                (reply.Accepted? <==>
                   id in old(db.records) && !deleted && Opens(cipher, old(db.records)[id].blob)
                   && Accept(cfg, form).Some?)
      ensures DiskEffect(stage, uploads, left, old(store.tmp), store.tmp, old(store.attachments), store.attachments)
      ensures (stage.Parsing? || stage.Committing?) && store.unremoved == old(store.unremoved) ==> left == {}
      ensures stage.RowRefused? && store.unremoved == old(store.unremoved) ==> uploads[stage.k].id !in store.attachments
      ensures stage.Vanished? || stage.RowRefused? || stage.Finished? ==> Accept(cfg, form).Some?
      ensures !stage.Reading? ==>
                && id in old(db.records) && Opens(cipher, old(db.records)[id].blob)
                && UpdateEffect(stage, found, db.View(), id, old(db.records)[id], BlobOf(form, nonce), uploads, now)
      ensures reply.Accepted? ==>
                id in found.records && id in old(db.records)
                && Holds(cfg, form, found, db.View(), store.attachments, id,
                         Record(TextBlob(form, nonce), old(db.records)[id].createdAt, now), uploads, now)
      ensures stage.Reading? ==> db.View() == found == old(db.View())
      ensures stage.RowRefused? && stage.undone ==>
                db.View() == WithRows(old(db.View()), id, uploads[..stage.k], now) && db.records == old(db.records)
      ensures stage.Vanished? || stage.Finished? ==> Stored(uploads, Accept(cfg, form).value.files, store.attachments)
    {
      found := db.View();
      var row := db.GetRecord(id);
      if row.None? {
        return Failed, Reading, found, [], {};
      }
      if row.value.None? {
        return NotFound, Reading, found, [], {};
      }
      if !Opens(cipher, row.value.value.blob) {
        return Refused(Unprocessable), Reading, found, [], {};
      }
      if deleted {
        var _ := db.DeleteRecord(id);
        found := db.View();
      }
      reply, stage, uploads, left := SaveUpdate(id, row.value.value, form, nonce, now);
      if stage.RowRefused? {
        RestoreUndoesUpdate(old(db.View()), id, BlobOf(form, nonce), now, uploads[..stage.k]);
        RestoreReplacesUpdate(old(db.View()), id, BlobOf(form, nonce), now, uploads[..stage.k], row.value.value);
      }
    }

    /** Erases files one after the other; `left` are those it could not remove. */
    method EraseFiles(ids: seq<Id>) returns (ghost left: set<Id>)
      requires store.Valid() && forall i, j :: 0 <= i < j < |ids| ==> ids[i] != ids[j]
      modifies store
      ensures store.Valid() && store.minted == old(store.minted) && store.tmp == old(store.tmp)
      ensures left <= Elements(ids)
      ensures store.attachments == old(store.attachments) - (Elements(ids) - left)
      ensures store.unremoved >= old(store.unremoved) && (store.unremoved == old(store.unremoved) ==> left == {})
    {
      left := {};
      for i := 0 to |ids|
        invariant store.Valid() && store.minted == old(store.minted) && store.tmp == old(store.tmp)
        invariant left <= Elements(ids[..i])
        invariant store.attachments == old(store.attachments) - (Elements(ids[..i]) - left)
        invariant store.unremoved >= old(store.unremoved) && (store.unremoved == old(store.unremoved) ==> left == {})
      {
        assert ids[..i + 1] == ids[..i] + [ids[i]];
        assert Elements(ids[..i + 1]) == Elements(ids[..i]) + {ids[i]};
        ghost var gone := store.DeleteAttachment(ids[i]);
        if !gone {
          left := left + {ids[i]};
        }
      }
      assert ids[..|ids|] == ids;
    }

    /** The row and its children go first, then exactly the children's files. */
    method DeleteRecord(id: Id) returns (reply: Reply, ghost left: set<Id>)
      requires Valid()
      modifies this, db, store
      ensures Valid() && store.tmp == old(store.tmp)
      ensures sent == old(sent) + if reply.Accepted? then 1 else 0
      ensures !reply.Refused? && (reply.Failed? ==> db.faults > old(db.faults))
      ensures !reply.Failed? ==> (reply.NotFound? <==> id !in old(db.records))
      ensures !reply.Accepted? ==> db.View() == old(db.View()) && store.attachments == old(store.attachments)
      ensures reply.Accepted? ==>
                && db.View() == DropRecord(old(db.View()), id)
                && left <= ChildrenOf(old(db.View()), id)
                && store.attachments == old(store.attachments) - (ChildrenOf(old(db.View()), id) - left)
                && (store.unremoved == old(store.unremoved) ==> left == {})
    {
      left := {};
      var r := db.DeleteRecord(id);
      match r
      case Gone(ids) =>
        assert Elements(ids) == ChildrenOf(old(db.View()), id);
        left := EraseFiles(ids);
        sent := sent + 1;
        return Accepted, left;
      case Missing =>
        return NotFound, {};
      case NotDone =>
        return Failed, {};
    }

    /** The row goes first, then its file, then the record's stamp.  If stamping fails the
        row and the file are gone all the same and no event is sent. */
    method DeleteAttachment(record: Id, id: Id, now: int) returns (reply: Reply, ghost gone: bool)
      requires Valid()
      modifies this, db, store
      ensures Valid() && store.tmp == old(store.tmp)
      ensures sent == old(sent) + if reply.Accepted? then 1 else 0
      ensures !reply.Refused?
      ensures !reply.Failed? ==> (reply.Accepted? <==> Belongs(old(db.View()), record, id))
      ensures reply.Accepted? ==> db.View() == Touch(DropAttachment(old(db.View()), record, id), record, now)
      ensures reply.NotFound? ==> db.View() == old(db.View()) && store.attachments == old(store.attachments)
      ensures reply.Failed? ==>
                && db.faults > old(db.faults)
                && ((db.View() == old(db.View()) && store.attachments == old(store.attachments))
                    || (Belongs(old(db.View()), record, id) && db.View() == DropAttachment(old(db.View()), record, id)))
      ensures db.View() != old(db.View()) ==>
                store.attachments == (if gone then old(store.attachments) - {id} else old(store.attachments))
                && (!gone ==> store.unremoved > old(store.unremoved))
    {
      gone := false;
      var removed := db.DeleteAttachment(record, id);
      if removed.None? {
        return Failed, false;
      }
      if !removed.value {
        return NotFound, false;
      }
      gone := store.DeleteAttachment(id);
      var ok := db.TouchRecord(record, now);
      if !ok {
        return Failed, gone;
      }
      sent := sent + 1;
      return Accepted, gone;
    }
  }
}
