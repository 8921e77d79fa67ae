/** Attachment storage: a directory of temp files and one of final files.
    Every operation may fail; `faults` counts the failures and `unremoved` those
    of removals. */
module Files {
  import opened Wrappers
  import opened Schema

  class FileStore {
    var tmp: map<Id, Bytes>
    var attachments: map<Id, Bytes>
    /** Every UUID generated so far, so that none is generated twice. */
    var minted: set<Id>
    ghost var faults: nat
    ghost var unremoved: nat

    ghost predicate Valid()
      reads this
    {
      tmp.Keys <= minted && attachments.Keys <= minted && tmp.Keys !! attachments.Keys
    }

    constructor ()
      ensures Valid() && tmp == map[] && attachments == map[] && faults == 0 && unremoved == 0
    {
      tmp, attachments, minted, faults, unremoved := map[], map[], {}, 0, 0;
    }

    /** A UUID that was never generated before. */
    method NewId() returns (id: Id)
      requires Valid()
      modifies this`minted
      ensures Valid() && id !in old(minted) && minted == old(minted) + {id}
    {
      FreshExists(minted);
      id :| id !in minted;
      minted := minted + {id};
    }

    method BeginUpload() returns (r: Option<Id>)
      requires Valid()
      modifies this
      ensures Valid() && attachments == old(attachments) && unremoved == old(unremoved) && old(minted) <= minted
      ensures r.Some? ==> faults == old(faults) && r.value !in old(minted)
                          && minted == old(minted) + {r.value} && tmp == old(tmp)[r.value := []]
      ensures r.None? ==> faults == old(faults) + 1 && tmp == old(tmp)
    {
      var id := NewId();
      var ok: bool := *;
      if ok {
        tmp := tmp[id := []];
        r := Some(id);
      } else {
        faults := faults + 1;
        r := None;
      }
    }

    /** A failed write may leave part of the chunk. */
    method WriteAll(id: Id, chunk: Bytes) returns (ok: bool)
      requires Valid() && id in tmp
      modifies this
      ensures Valid() && attachments == old(attachments) && minted == old(minted) && unremoved == old(unremoved)
      ensures ok ==> faults == old(faults) && tmp == old(tmp)[id := old(tmp)[id] + chunk]
      ensures !ok ==> faults == old(faults) + 1 && id in tmp && tmp == old(tmp)[id := tmp[id]]
    {
      ok := *;
      if ok {
        tmp := tmp[id := tmp[id] + chunk];
      } else {
        var kept: int := *;
        tmp := tmp[id := tmp[id] + if 0 <= kept <= |chunk| then chunk[..kept] else []];
        faults := faults + 1;
      }
    }

    /** Flushes, then renames the temp file into place; gives its length. */
    method FinalizeUpload(id: Id) returns (r: Option<nat>)
      requires Valid() && id in tmp
      modifies this
      ensures Valid() && minted == old(minted) && unremoved == old(unremoved)
      ensures r.Some? ==> faults == old(faults) && r.value == |old(tmp)[id]|
                          && tmp == old(tmp) - {id} && attachments == old(attachments)[id := old(tmp)[id]]
      ensures r.None? ==> faults == old(faults) + 1 && tmp == old(tmp) && attachments == old(attachments)
    {
      var ok: bool := *;
      if ok {
        var bytes := tmp[id];
        tmp := tmp - {id};
        attachments := attachments[id := bytes];
        r := Some(|bytes|);
      } else {
        faults := faults + 1;
        r := None;
      }
    }

    method AbortUpload(id: Id) returns (ghost gone: bool)
      requires Valid()
      modifies this
      ensures Valid() && minted == old(minted) && attachments == old(attachments)
      ensures gone ==> tmp == old(tmp) - {id} && unremoved == old(unremoved) && faults == old(faults)
      ensures !gone ==> tmp == old(tmp) && unremoved == old(unremoved) + 1 && faults == old(faults) + 1
    {
      var ok: bool := *;
      gone := ok;
      if ok {
        tmp := tmp - {id};
      } else {
        faults, unremoved := faults + 1, unremoved + 1;
      }
    }

    method DeleteAttachment(id: Id) returns (ghost gone: bool)
      requires Valid()
      modifies this
      ensures Valid() && minted == old(minted) && tmp == old(tmp)
      ensures gone ==> attachments == old(attachments) - {id} && unremoved == old(unremoved) && faults == old(faults)
      ensures !gone ==> attachments == old(attachments) && unremoved == old(unremoved) + 1 && faults == old(faults) + 1
    {
      var ok: bool := *;
      gone := ok;
      if ok {
        attachments := attachments - {id};
      } else {
        faults, unremoved := faults + 1, unremoved + 1;
      }
    }

    /** The startup scan removes every temp file it can and only reports the final files
        without a row.  None when a directory cannot be read, at its start or on the way. */
    method OrphanScan(known: set<Id>) returns (orphans: Option<set<Id>>)
      requires Valid()
      modifies this
      ensures Valid() && attachments == old(attachments) && minted == old(minted)
      ensures tmp.Keys <= old(tmp).Keys && forall id :: id in tmp ==> tmp[id] == old(tmp)[id]
      ensures orphans.Some? ==> orphans.value == attachments.Keys - known && |tmp| == unremoved - old(unremoved)
    {
      var readable: bool := *;
      if !readable {
        return None;
      }
      var entries := tmp.Keys;
      while entries != {} && readable
        invariant Valid() && attachments == old(attachments) && minted == old(minted)
        invariant unremoved >= old(unremoved)
        invariant entries <= tmp.Keys <= old(tmp).Keys && forall id :: id in tmp ==> tmp[id] == old(tmp)[id]
        invariant |tmp| == |entries| + (unremoved - old(unremoved))
        decreases entries, readable
      {
        readable := *;
        if readable {
          var id :| id in entries;
          entries := entries - {id};
          var ok: bool := *;
          if ok {
            assert (tmp - {id}).Keys == tmp.Keys - {id};
            tmp := tmp - {id};
          } else {
            faults, unremoved := faults + 1, unremoved + 1;
          }
        }
      }
      if readable {
        readable := *;
      }
      if !readable {
        return None;
      }
      return Some(attachments.Keys - known);
    }
  }

  lemma {:induction false} FreshExists(ids: set<Id>)
    ensures exists id: Id :: id !in ids
  {
    var bound := Bound(ids);
    assert bound !in ids;
  }

  ghost function Bound(ids: set<Id>): (b: Id)
    ensures forall id :: id in ids ==> id < b
    decreases |ids|
  {
    if ids == {} then 0
    else
      var x :| x in ids;
      var b := Bound(ids - {x});
      assert forall id :: id in ids ==> id == x || id in ids - {x};
      if b <= x then x + 1 else b
  }
}
