/** Uploads that are on disk and still without a row. */
module Uploads {
  import opened Schema

  /** A finalized upload, with the length counted while it streamed in. */
  datatype Upload = Upload(id: Id, filename: string, mime: string, size: nat)

  function Ids(us: seq<Upload>): set<Id> {
    set u | u in us :: u.id
  }

  predicate Distinct(us: seq<Upload>) {
    forall i, j :: 0 <= i < j < |us| ==> us[i].id != us[j].id
  }

  /** The row an upload becomes. */
  function RowOf(record: Id, u: Upload, stamp: int): Attachment {
    Attachment(record, u.filename, u.size, u.mime, stamp)
  }

  /** Taking the first upload off the list takes exactly its id off. */
  lemma {:induction false} IdsTail(us: seq<Upload>)
    requires us != [] && Distinct(us)
    ensures Ids(us) == {us[0].id} + Ids(us[1..]) && us[0].id !in Ids(us[1..]) && Distinct(us[1..])
  {
    assert us == [us[0]] + us[1..];
    forall u | u in us[1..] ensures u.id != us[0].id {
      var i :| 0 <= i < |us[1..]| && us[1..][i] == u;
      assert us[i + 1] == u;
    }
  }

  lemma {:induction false} IdsAppend(us: seq<Upload>, u: Upload)
    requires Distinct(us) && u.id !in Ids(us)
    ensures Ids(us + [u]) == Ids(us) + {u.id} && Distinct(us + [u])
  {
    forall i | 0 <= i < |us| ensures us[i].id != u.id {
      assert us[i] in us;
    }
  }

  lemma {:induction false} IdsNext(us: seq<Upload>, n: nat)
    requires n < |us| && Distinct(us)
    ensures Ids(us[..n + 1]) == Ids(us[..n]) + {us[n].id} && us[n].id !in Ids(us[..n])
  {
    assert us[..n + 1] == us[..n] + [us[n]];
  }
}
