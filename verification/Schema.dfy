/** The two SQLite tables as values, and what each statement does to them.
    Foreign keys are switched on, so an attachment needs a parent record and
    deleting a record cascades to its attachments. */
module Schema {
  import opened Wrappers

  /** A UUID.  Its canonical text is of fixed width, so text order is numeric order. */
  type Id = nat

  type byte = b: int | 0 <= b < 256
  type Bytes = seq<byte>

  datatype Record = Record(blob: Bytes, createdAt: int, updatedAt: int)

  datatype Attachment = Attachment(recordId: Id, filename: string, size: nat, mime: string, createdAt: int)

  datatype Tables = Tables(records: map<Id, Record>, attachments: map<Id, Attachment>)

  /** The foreign-key constraint. */
  ghost predicate Referential(t: Tables) {
    forall a :: a in t.attachments ==> t.attachments[a].recordId in t.records
  }

  /** The attachments whose parent is the given record. */
  function ChildrenOf(t: Tables, id: Id): set<Id> {
    set a | a in t.attachments && t.attachments[a].recordId == id
  }

  /** None when the primary key is taken. */
  function InsertRecord(t: Tables, id: Id, blob: Bytes, now: int): Option<Tables> {
    if id in t.records then None
    else Some(t.(records := t.records[id := Record(blob, now, now)]))
  }

  function SetBlob(t: Tables, id: Id, blob: Bytes, now: int): Tables {
    if id !in t.records then t
    else t.(records := t.records[id := t.records[id].(blob := blob, updatedAt := now)])
  }

  function Touch(t: Tables, id: Id, now: int): Tables {
    if id !in t.records then t
    else t.(records := t.records[id := t.records[id].(updatedAt := now)])
  }

  /** Deletes the record and, by cascade, its children. */
  function DropRecord(t: Tables, id: Id): Tables {
    Tables(t.records - {id}, t.attachments - ChildrenOf(t, id))
  }

  /** None when the primary key is taken or the parent is missing. */
  function InsertAttachment(t: Tables, id: Id, a: Attachment): Option<Tables> {
    if id in t.attachments || a.recordId !in t.records then None
    else Some(t.(attachments := t.attachments[id := a]))
  }

  /** True when the attachment exists and belongs to the given record. */
  predicate Belongs(t: Tables, record: Id, id: Id) {
    id in t.attachments && t.attachments[id].recordId == record
  }

  function DropAttachment(t: Tables, record: Id, id: Id): Tables {
    if Belongs(t, record, id) then t.(attachments := t.attachments - {id}) else t
  }
}
