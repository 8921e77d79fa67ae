/** What a create and an update leave behind in the tables and on disk, at each of their exits. */
module Effects {
  import opened Schema
  import opened Uploads

  /** How far a create or an update got.  An update finds its record `Vanished` when it
      was deleted while the form was parsed; `RowRefused` says which upload's row was
      refused and whether the rollback call went through. */
  datatype Stage = Reading | Parsing | Committing | Vanished | RowRefused(k: nat, undone: bool) | Finished

  // ----- Rows of several uploads -----

  /** The tables with the rows of the uploads put in. */
  function WithRows(t: Tables, record: Id, us: seq<Upload>, stamp: int): Tables {
    if us == [] then t
    else
      var front := WithRows(t, record, us[..|us| - 1], stamp);
      var u := us[|us| - 1];
      front.(attachments := front.attachments[u.id := RowOf(record, u, stamp)])
  }

  lemma {:induction false} WithRowsContents(t: Tables, record: Id, us: seq<Upload>, stamp: int)
    ensures WithRows(t, record, us, stamp).records == t.records
    ensures WithRows(t, record, us, stamp).attachments.Keys == t.attachments.Keys + Ids(us)
    ensures forall a :: a in t.attachments && a !in Ids(us) ==>
              WithRows(t, record, us, stamp).attachments[a] == t.attachments[a]
    ensures forall a :: a in Ids(us) ==> WithRows(t, record, us, stamp).attachments[a].recordId == record
    decreases |us|
  {
    if us != [] {
      var n := |us| - 1;
      WithRowsContents(t, record, us[..n], stamp);
      assert us == us[..n] + [us[n]];
      assert Ids(us) == Ids(us[..n]) + {us[n].id};
    }
  }

  /** The row of each upload names the record, and has the upload's file name, size and MIME type
      and the stamp. */
  predicate RowsSay(t: Tables, record: Id, us: seq<Upload>, stamp: int) {
    forall i :: 0 <= i < |us| ==>
      us[i].id in t.attachments
      && t.attachments[us[i].id] == Attachment(record, us[i].filename, us[i].size, us[i].mime, stamp)
  }

  lemma {:induction false} RowsOfUploads(t: Tables, record: Id, us: seq<Upload>, stamp: int)
    requires Distinct(us)
    ensures RowsSay(WithRows(t, record, us, stamp), record, us, stamp)
    decreases |us|
  {
    if us != [] {
      var n := |us| - 1;
      RowsOfUploads(t, record, us[..n], stamp);
      forall i | 0 <= i < n ensures us[i].id != us[n].id && us[i] == us[..n][i] {
      }
    }
  }

  /** Dropping a record just created takes back the record and every row put in for it. */
  lemma {:induction false} DropUndoesCreate(t: Tables, id: Id, blob: Bytes, now: int, us: seq<Upload>)
    requires Referential(t) && id !in t.records && Ids(us) !! t.attachments.Keys
    ensures DropRecord(WithRows(InsertRecord(t, id, blob, now).value, id, us, now), id) == t
  {
    var t1 := InsertRecord(t, id, blob, now).value;
    WithRowsContents(t1, id, us, now);
    var t2 := DropRecord(WithRows(t1, id, us, now), id);
    assert t2.records == t.records;
    assert t2.attachments == t.attachments;
  }

  /** Writing an old blob and stamp back replaces those of the update and leaves the rows put in. */
  lemma {:induction false} RestoreReplacesUpdate(t: Tables, id: Id, blob: Bytes, now: int, us: seq<Upload>, row: Record)
    requires id in t.records
    ensures SetBlob(WithRows(SetBlob(t, id, blob, now), id, us, now), id, row.blob, row.updatedAt)
            == WithRows(SetBlob(t, id, row.blob, row.updatedAt), id, us, now)
  {
    var t1 := SetBlob(t, id, blob, now);
    var t2 := SetBlob(t, id, row.blob, row.updatedAt);
    WithRowsContents(t1, id, us, now);
    WithRowsContents(t2, id, us, now);
    WithRowsSameAttachments(t1, t2, id, us, now);
  }

  /** When the blob and stamp are still those the update found, this restores the records
      table, with blob and both stamps. */
  lemma {:induction false} RestoreUndoesUpdate(t: Tables, id: Id, blob: Bytes, now: int, us: seq<Upload>)
    requires id in t.records
    ensures var row := t.records[id];
            SetBlob(WithRows(SetBlob(t, id, blob, now), id, us, now), id, row.blob, row.updatedAt)
            == WithRows(t, id, us, now)
    ensures WithRows(t, id, us, now).records == t.records
  {
    var row := t.records[id];
    RestoreReplacesUpdate(t, id, blob, now, us, row);
    assert SetBlob(t, id, row.blob, row.updatedAt).records == t.records;
    WithRowsContents(t, id, us, now);
  }

  lemma {:induction false} WithRowsSameAttachments(t: Tables, t': Tables, id: Id, us: seq<Upload>, now: int)
    requires t.attachments == t'.attachments
    ensures WithRows(t, id, us, now).attachments == WithRows(t', id, us, now).attachments
    decreases |us|
  {
    if us != [] {
      WithRowsSameAttachments(t, t', id, us[..|us| - 1], now);
    }
  }

  function Elements(ids: seq<Id>): set<Id> {
    set a | a in ids
  }

  // ----- What each stage leaves behind -----

  /** Nothing before the record is in; all of it at the end.  When a row is refused, both
      tables as before if the rollback call went through, else the record and the rows
      before the refused one. */
  predicate CreateEffect(stage: Stage, before: Tables, after: Tables, id: Id, blob: Bytes,
                         uploads: seq<Upload>, now: int) {
    match stage
    case RowRefused(k, undone) =>
      id !in before.records && k < |uploads|
      && after == (if undone then before
                   else WithRows(InsertRecord(before, id, blob, now).value, id, uploads[..k], now))
    case Finished =>
      id !in before.records && after == WithRows(InsertRecord(before, id, blob, now).value, id, uploads, now)
    case Vanished => false
    case _ => after == before
  }

  /** The same for an update that read `row` at its check: after a refused row and a rollback
      call the record has that row's blob and stamp again, and the rows before the refused one
      stay. */
  predicate UpdateEffect(stage: Stage, before: Tables, after: Tables, id: Id, row: Record, blob: Bytes,
                         uploads: seq<Upload>, now: int) {
    match stage
    case RowRefused(k, undone) =>
      id in before.records && k < |uploads|
      && after == WithRows(if undone then SetBlob(before, id, row.blob, row.updatedAt)
                           else SetBlob(before, id, blob, now), id, uploads[..k], now)
    case Finished =>
      id in before.records && after == WithRows(SetBlob(before, id, blob, now), id, uploads, now)
    case Vanished => id !in before.records && after == before
    case _ => after == before
  }

  /** At most this file has gone. */
  predicate OneLess(files: map<Id, Bytes>, files': map<Id, Bytes>, id: Id) {
    files' == files || files' == files - {id}
  }

  /** What the statements after the parse do to the files. */
  predicate FilesEffect(stage: Stage, uploads: seq<Upload>, left: set<Id>,
                        files: map<Id, Bytes>, files': map<Id, Bytes>, unremoved: bool) {
    match stage
    case Committing => left <= Ids(uploads) && files' == files - (Ids(uploads) - left) && (!unremoved ==> left == {})
    case Vanished => files' == files
    case RowRefused(k, _) =>
      k < |uploads| && OneLess(files, files', uploads[k].id) && (!unremoved ==> uploads[k].id !in files')
    case Finished => files' == files
    case _ => false
  }

  /** On disk: a request that ends before its record is written leaves nothing but files
      that could not be removed.  Afterwards the temp store is as before and the uploads'
      files are there, all but the one whose row was refused: neither a record that has gone
      nor the rollback of the tables takes the others away. */
  predicate DiskEffect(stage: Stage, uploads: seq<Upload>, left: set<Id>,
                       tmp: map<Id, Bytes>, tmp': map<Id, Bytes>, files: map<Id, Bytes>, files': map<Id, Bytes>) {
    match stage
    case Reading => tmp' == tmp && files' == files
    case Parsing => tmp' - left == tmp && files' - left == files
    case Committing => tmp' - left == tmp && files' - left == files
    case RowRefused(k, _) =>
      k < |uploads| && tmp' == tmp && files' - Ids(uploads) == files
      && Ids(uploads) - {uploads[k].id} <= files'.Keys
    case _ => tmp' == tmp && files' - Ids(uploads) == files && Ids(uploads) <= files'.Keys
  }

  /** An accepted parse added exactly the uploads, and the statements after it did the rest. */
  lemma {:induction false} DiskAfterParse(stage: Stage, uploads: seq<Upload>, left: set<Id>, tmp: map<Id, Bytes>,
                                          files: map<Id, Bytes>, parsed: map<Id, Bytes>, files': map<Id, Bytes>,
                                          unremoved: bool)
    requires parsed - Ids(uploads) == files && Ids(uploads) <= parsed.Keys
    requires Ids(uploads) !! files.Keys + tmp.Keys
    requires FilesEffect(stage, uploads, left, parsed, files', unremoved)
    ensures DiskEffect(stage, uploads, left, tmp, tmp, files, files')
  {
    if stage.RowRefused? {
      assert uploads[stage.k] in uploads;
      assert files' - Ids(uploads) == files;
    }
    if stage.Committing? {
      assert tmp - left == tmp;
      assert files' - left == files;
    }
  }
}
