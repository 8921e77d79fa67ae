/** The database behind its mutex: each method is one statement that is applied or
    fails.  `faults` counts the failures that are not constraint violations. */
module Database {
  import opened Wrappers
  import opened Schema

  /** What `delete_record` answers. */
  datatype Deletion = NotDone | Missing | Gone(ids: seq<Id>)

  class Db {
    var records: map<Id, Record>
    var attachments: map<Id, Attachment>
    ghost var faults: nat

    ghost function View(): Tables
      reads this
    {
      Tables(records, attachments)
    }

    ghost predicate Valid()
      reads this
    {
      Referential(View())
    }

    constructor ()
      ensures Valid() && View() == Tables(map[], map[]) && faults == 0
    {
      records, attachments, faults := map[], map[], 0;
    }

    method CreateRecord(id: Id, blob: Bytes, now: int) returns (ok: bool)
      requires Valid()
      modifies this
      ensures Valid()
      ensures ok ==> Some(View()) == InsertRecord(old(View()), id, blob, now) && faults == old(faults)
      ensures ok ==> id !in old(records) && records == old(records)[id := Record(blob, now, now)]
                     && attachments == old(attachments)
      ensures !ok ==> View() == old(View()) && faults >= old(faults) && (faults > old(faults) || id in old(records))
    {
      ok := *;
      if !ok {
        faults := faults + 1;
      } else if id in records {
        ok := false;
      } else {
        records := records[id := Record(blob, now, now)];
      }
    }

    /** Some(false) when there is no such record. */
    method UpdateRecord(id: Id, blob: Bytes, now: int) returns (r: Option<bool>)
      requires Valid()
      modifies this
      ensures Valid()
      ensures r.Some? ==> View() == SetBlob(old(View()), id, blob, now) && (r.value <==> id in old(records))
                          && faults == old(faults)
      ensures r == Some(true) ==>
                records == old(records)[id := Record(blob, old(records)[id].createdAt, now)]
                && attachments == old(attachments)
      ensures r != Some(true) ==> View() == old(View())
      ensures r.None? ==> faults == old(faults) + 1
    {
      var ok: bool := *;
      if !ok {
        faults := faults + 1;
        return None;
      }
      if id in records {
        records := records[id := records[id].(blob := blob, updatedAt := now)];
        return Some(true);
      }
      return Some(false);
    }

    method TouchRecord(id: Id, now: int) returns (ok: bool)
      requires Valid()
      modifies this
      ensures Valid()
      ensures ok ==> View() == Touch(old(View()), id, now) && faults == old(faults)
      ensures ok && id in old(records) ==>
                var row := old(records)[id];
                records == old(records)[id := Record(row.blob, row.createdAt, now)] && attachments == old(attachments)
      ensures id !in old(records) ==> View() == old(View())
      ensures !ok ==> View() == old(View()) && faults == old(faults) + 1
    {
      ok := *;
      if !ok {
        faults := faults + 1;
      } else if id in records {
        records := records[id := records[id].(updatedAt := now)];
      }
    }

    /** Selects the attachment ids, then deletes the record; the attachment rows cascade. */
    method DeleteRecord(id: Id) returns (r: Deletion)
      requires Valid()
      modifies this
      ensures Valid()
      ensures r.Gone? ==> id in old(records) && View() == DropRecord(old(View()), id) && faults == old(faults)
                          && (set a | a in r.ids) == ChildrenOf(old(View()), id)
                          && forall i, j :: 0 <= i < j < |r.ids| ==> r.ids[i] != r.ids[j]
      ensures r.Gone? ==>
                && (set a | a in r.ids) == (set a | a in old(attachments) && old(attachments)[a].recordId == id)
                && records == old(records) - {id}
                && (forall a :: a in attachments <==> a in old(attachments) && old(attachments)[a].recordId != id)
                && (forall a :: a in attachments ==> attachments[a] == old(attachments)[a])
      ensures r.Missing? ==> id !in old(records) && View() == old(View()) && faults == old(faults)
      ensures r.NotDone? ==> View() == old(View()) && faults == old(faults) + 1
    {
      var ok: bool := *;
      if !ok {
        faults := faults + 1;
        return NotDone;
      }
      if id !in records {
        return Missing;
      }
      var children := set a | a in attachments && attachments[a].recordId == id;
      var ids, rest := [], children;
      while rest != {}
        invariant rest <= children && (set a | a in ids) == children - rest
        invariant forall i, j :: 0 <= i < j < |ids| ==> ids[i] != ids[j]
        decreases rest
      {
        var a :| a in rest;
        forall i | 0 <= i < |ids| ensures ids[i] != a {
          assert ids[i] in (set x | x in ids);
        }
        assert (set x | x in ids + [a]) == (set x | x in ids) + {a};
        assert children - (rest - {a}) == (children - rest) + {a};
        ids, rest := ids + [a], rest - {a};
      }
      records := records - {id};
      attachments := attachments - children;
      return Gone(ids);
    }

    /** None when the query fails. */
    method GetRecord(id: Id) returns (r: Option<Option<Record>>)
      requires Valid()
      modifies this`faults
      ensures Valid() && View() == old(View())
      ensures r.Some? ==> faults == old(faults) && r.value == (if id in records then Some(records[id]) else None)
      ensures r.None? ==> faults == old(faults) + 1
    {
      var ok: bool := *;
      if !ok {
        faults := faults + 1;
        return None;
      }
      return Some(if id in records then Some(records[id]) else None);
    }

    /** Refused when the parent is missing or the key is taken. */
    method InsertAttachment(id: Id, a: Attachment) returns (ok: bool)
      requires Valid()
      modifies this
      ensures Valid()
      ensures ok ==> Some(View()) == Schema.InsertAttachment(old(View()), id, a) && faults == old(faults)
      ensures ok ==> attachments == old(attachments)[id := a] && records == old(records)
      ensures faults == old(faults) ==> (ok <==> id !in old(attachments) && a.recordId in old(records))
      ensures !ok ==> View() == old(View()) && faults >= old(faults)
                      && (faults > old(faults) || Schema.InsertAttachment(old(View()), id, a).None?)
    {
      ok := *;
      if !ok {
        faults := faults + 1;
      } else if id in attachments || a.recordId !in records {
        ok := false;
      } else {
        attachments := attachments[id := a];
      }
    }

    /** Some(false) when the record has no such attachment. */
    method DeleteAttachment(record: Id, id: Id) returns (r: Option<bool>)
      requires Valid()
      modifies this
      ensures Valid()
      ensures r.Some? ==> View() == DropAttachment(old(View()), record, id)
                          && (r.value <==> Belongs(old(View()), record, id))
                          && faults == old(faults)
      ensures r.Some? ==> (r.value <==> id in old(attachments) && old(attachments)[id].recordId == record)
                          && attachments == (if r.value then old(attachments) - {id} else old(attachments))
                          && records == old(records)
      ensures r.None? ==> View() == old(View()) && faults == old(faults) + 1
    {
      var ok: bool := *;
      if !ok {
        faults := faults + 1;
        return None;
      }
      if id in attachments && attachments[id].recordId == record {
        attachments := attachments - {id};
        return Some(true);
      }
      return Some(false);
    }
  }
}
