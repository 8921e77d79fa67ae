/** Building a page of the list, for the browser and for the API. */
module ListView {
  import opened Wrappers
  import opened Schema
  import opened Crypto
  import opened Listing
  import opened Text
  import Render

  datatype RecordView = RecordView(
    id: Id,
    title: string,
    untitled: bool,
    snippet: string,
    updated: int,
    attachmentCount: nat,
    first: Option<Entry<Attachment>>,
    extra: nat,
    undecryptable: bool)

  datatype View = View(records: seq<RecordView>, page: int, totalPages: int, hasPrev: bool, hasNext: bool, total: nat)

  function TotalPages(total: nat, size: nat): (n: int)
    requires size >= 1
  {
    Max((total + size - 1) / size, 1)
  }

  function Clamp(x: int, low: int, high: int): int {
    if x < low then low else if x > high then high else x
  }

  /** One card of the list. */
  function ViewOf(c: Cipher, untitled: string, r: Entry<Record>, atts: seq<Entry<Attachment>>): RecordView {
    var first := if atts == [] then None else Some(atts[0]);
    match c.open(r.value.blob)
    case Some((title, content)) =>
      var (shown, placeholder) := Render.DisplayTitle(title, content, untitled);
      RecordView(r.id, shown, placeholder, Render.Snippet(content), r.value.updatedAt, |atts|, first,
                 Max(|atts| - 1, 0), false)
    case None =>
      RecordView(r.id, "", false, "", r.value.updatedAt, |atts|, first, Max(|atts| - 1, 0), true)
  }

  /** A card in its own fields: one that does not decrypt is empty and flagged; the counts and the
      first attachment are those of the record's rows in the table. */
  lemma {:induction false} CardSays(c: Cipher, untitled: string, r: Entry<Record>, t: Tables)
    ensures var card := ViewOf(c, untitled, r, ListAttachments(t, r.id));
            && card.id == r.id && card.updated == r.value.updatedAt
            && card.attachmentCount == |ChildrenOf(t, r.id)|
            && card.extra == (if ChildrenOf(t, r.id) == {} then 0 else |ChildrenOf(t, r.id)| - 1)
            && (card.first.None? <==> ChildrenOf(t, r.id) == {})
            && (card.undecryptable <==> c.open(r.value.blob).None?)
            && (card.undecryptable ==> card.title == "" && card.snippet == "" && !card.untitled)
    ensures ViewOf(c, untitled, r, ListAttachments(t, r.id)).first.Some? ==>
              var first := ViewOf(c, untitled, r, ListAttachments(t, r.id)).first.value;
              first.id in ChildrenOf(t, r.id) && first.value == t.attachments[first.id]
              && forall a :: a in ChildrenOf(t, r.id) ==>
                   first.value.createdAt < t.attachments[a].createdAt
                   || (first.value.createdAt == t.attachments[a].createdAt && first.id <= a)
  {
    AsManyAsChildren(t, r.id);
    AttachmentsOldestFirst(t, r.id, {});
  }

  /** The card of a record that was saved with this title and content shows the trimmed title cut
      at 200 characters, else the trimmed first line cut at 80, else the placeholder. */
  lemma {:induction false} SavedCardSays(c: Cipher, untitled: string, r: Entry<Record>, atts: seq<Entry<Attachment>>,
                                         nonce: Bytes, text: string, content: string)
    requires Lawful(c) && r.value.blob == c.seal(nonce, Render.SaveTitle(text), content)
    ensures var card := ViewOf(c, untitled, r, atts);
            var title := Trim(text);
            var line := Trim(content[..IndexOf(content, '\n')]);
            && (card.title, card.untitled) ==
                 (if title != "" then (if |title| <= 200 then title else title[..200] + ['\U{2026}'], false)
                  else if line != "" then (if |line| <= 80 then line else line[..80] + ['\U{2026}'], false)
                  else (untitled, true))
            && card.snippet == Render.Snippet(content) && !card.undecryptable
  {
    Render.ShownTitle(text, content, untitled);
  }

  /** Latest update first, then greatest id first. */
  predicate CardsNewestFirst(cards: seq<RecordView>) {
    forall i, j :: 0 <= i < j < |cards| ==>
      cards[i].updated > cards[j].updated || (cards[i].updated == cards[j].updated && cards[i].id > cards[j].id)
  }

  // ----- Grouping -----

  function Group(grouped: map<Id, seq<Entry<Attachment>>>, record: Id): seq<Entry<Attachment>> {
    if record in grouped then grouped[record] else []
  }

  function IdsOf(rows: seq<Entry<Record>>): set<Id> {
    set r | r in rows :: r.id
  }

  predicate DistinctIds(rows: seq<Entry<Record>>) {
    forall i, j :: 0 <= i < j < |rows| ==> rows[i].id != rows[j].id
  }

  /** Fills the map from the batched result. */
  method FillGroups(attachments: seq<Entry<Attachment>>) returns (grouped: map<Id, seq<Entry<Attachment>>>)
    ensures forall r :: Group(grouped, r) == OfRecord(attachments, r)
    ensures forall r :: r in grouped ==> exists a :: a in attachments && a.value.recordId == r
  {
    grouped := map[];
    for i := 0 to |attachments|
      invariant forall r :: Group(grouped, r) == OfRecord(attachments[..i], r)
      invariant forall r :: r in grouped ==> exists a :: a in attachments && a.value.recordId == r
    {
      var a := attachments[i];
      assert a in attachments;
      assert attachments[..i + 1][..i] == attachments[..i];
      grouped := grouped[a.value.recordId := Group(grouped, a.value.recordId) + [a]];
    }
    assert attachments[..|attachments|] == attachments;
  }

  /** Removes each listed record's group in turn. */
  method TakeEach(grouped: map<Id, seq<Entry<Attachment>>>, rows: seq<Entry<Record>>)
    returns (groups: seq<seq<Entry<Attachment>>>, left: map<Id, seq<Entry<Attachment>>>)
    requires DistinctIds(rows)
    ensures |groups| == |rows| && forall i :: 0 <= i < |rows| ==> groups[i] == Group(grouped, rows[i].id)
    ensures forall r :: r in left ==> r in grouped && forall i :: 0 <= i < |rows| ==> rows[i].id != r
  {
    groups, left := [], grouped;
    for i := 0 to |rows|
      invariant |groups| == i
      invariant forall k :: 0 <= k < i ==> groups[k] == Group(grouped, rows[k].id)
      invariant forall k :: i <= k < |rows| ==> Group(left, rows[k].id) == Group(grouped, rows[k].id)
      invariant forall r :: r in left ==> r in grouped && forall k :: 0 <= k < i ==> rows[k].id != r
    {
      groups := groups + [Group(left, rows[i].id)];
      left := left - {rows[i].id};
    }
  }

  /** One batched query for all the rows: each row gets exactly its own attachments in
      order, and nothing is left over in the map. */
  method TakeGroups(t: Tables, rows: seq<Entry<Record>>)
    returns (groups: seq<seq<Entry<Attachment>>>, left: map<Id, seq<Entry<Attachment>>>)
    requires DistinctIds(rows)
    ensures |groups| == |rows|
    ensures forall i :: 0 <= i < |rows| ==> groups[i] == ListAttachments(t, rows[i].id)
    ensures left == map[]
  {
    var ids := IdsOf(rows);
    var grouped := FillGroups(AttachmentsFor(t, ids));
    groups, left := TakeEach(grouped, rows);
    forall i | 0 <= i < |rows| ensures groups[i] == ListAttachments(t, rows[i].id) {
      assert rows[i] in rows;
      BatchRefinesPerRecord(t, ids, rows[i].id);
    }
    BatchMembers(t, ids);
    assert forall r :: r in grouped ==> r in ids;
  }

  method RenderRows(c: Cipher, untitled: string, rows: seq<Entry<Record>>, groups: seq<seq<Entry<Attachment>>>)
    returns (records: seq<RecordView>)
    requires |groups| == |rows|
    ensures |records| == |rows|
    ensures forall i :: 0 <= i < |rows| ==> records[i] == ViewOf(c, untitled, rows[i], groups[i])
    ensures RowsNewestFirst(rows) ==> CardsNewestFirst(records)
  {
    records := [];
    for i := 0 to |rows|
      invariant |records| == i
      invariant forall k :: 0 <= k < i ==> records[k] == ViewOf(c, untitled, rows[k], groups[k])
    {
      records := records + [ViewOf(c, untitled, rows[i], groups[i])];
    }
  }

  lemma {:induction false} BatchMembers(t: Tables, records: set<Id>)
    ensures forall a :: a in AttachmentsFor(t, records) ==> a.value.recordId in records
  {
    EntriesKeepIds();
    InOrderIsListing(map a | a in t.attachments && t.attachments[a].recordId in records :: t.attachments[a],
                     AttachmentEntry);
  }

  // ----- The pages -----

  /** The rows that page `p` of the sorted list has. */
  function PageRows(t: Tables, size: nat, p: int): seq<Entry<Record>> {
    ListRecords(t, p, size).0
  }

  predicate RowsNewestFirst(rows: seq<Entry<Record>>) {
    forall i, j :: 0 <= i < j < |rows| ==>
      rows[i].value.updatedAt > rows[j].value.updatedAt
      || (rows[i].value.updatedAt == rows[j].value.updatedAt && rows[i].id > rows[j].id)
  }

  /** A page has rows of the table, newest first. */
  lemma {:induction false} PageNewestFirst(t: Tables, size: nat, p: int)
    ensures RowsNewestFirst(PageRows(t, size, p))
    ensures forall i :: 0 <= i < |PageRows(t, size, p)| ==>
              var r := PageRows(t, size, p)[i];
              r.id in t.records && r.value == t.records[r.id]
  {
    RecordsNewestFirst(t);
  }

  lemma {:induction false} RowsDistinct(t: Tables, size: nat, p: int)
    ensures DistinctIds(PageRows(t, size, p))
  {
    AllRecordsListing(t);
    var s := AllRecords(t);
    forall i, j | 0 <= i < j < |s| ensures s[i].id != s[j].id {
      assert s[i] in s && s[j] in s && Before(s[i], s[j]);
    }
  }

  /** The rows `build_list_view` ends up with: it fetches the page asked for, and again
      the last page when that was empty and the last page is not the first.  The tables may
      have changed from `t` to `u` in between. */
  function ViewRows(t: Tables, u: Tables, size: nat, asked: int): seq<Entry<Record>>
    requires size >= 1
  {
    var rows := ListRecords(t, asked, size).0;
    var page := Clamp(asked, 1, TotalPages(|t.records|, size));
    if rows == [] && page > 1 then ListRecords(u, page, size).0 else rows
  }

  /** The browser's list.  Its three queries see the tables as they are at their time: `t` for
      the page and the total, `u` for the page fetched again, `w` for the attachments. */
  method BuildListView(t: Tables, u: Tables, w: Tables, c: Cipher, size: nat, asked: int, untitled: string)
    returns (view: View)
    requires size >= 1
    ensures view.total == |t.records| && view.totalPages == TotalPages(|t.records|, size)
    ensures view.page == Clamp(asked, 1, view.totalPages)
    ensures view.page == if asked < 1 then 1 else if asked > view.totalPages then view.totalPages else asked
    ensures (view.hasPrev <==> view.page > 1) && (view.hasNext <==> view.page < view.totalPages)
    ensures var rows := ViewRows(t, u, size, asked);
            && |view.records| == |rows|
            && (forall i :: 0 <= i < |rows| ==>
                  view.records[i] == ViewOf(c, untitled, rows[i], ListAttachments(w, rows[i].id)))
    ensures CardsNewestFirst(view.records)
  {
    var (rows, total) := ListRecords(t, Max(asked, 1), size);
    var totalPages := Max((total + size - 1) / size, 1);
    var page := Clamp(asked, 1, totalPages);
    if rows == [] && page > 1 {
      var (again, _) := ListRecords(u, page, size);
      rows := again;
    }
    assert rows == ViewRows(t, u, size, asked);
    ViewRowsInOrder(t, u, size, asked);
    var groups, left := TakeGroups(w, rows);
    var records := RenderRows(c, untitled, rows, groups);
    view := View(records, page, totalPages, page > 1, page < totalPages, total);
  }

  lemma {:induction false} ViewRowsInOrder(t: Tables, u: Tables, size: nat, asked: int)
    requires size >= 1
    ensures DistinctIds(ViewRows(t, u, size, asked)) && RowsNewestFirst(ViewRows(t, u, size, asked))
  {
    PageNewestFirst(t, size, asked);
    PageNewestFirst(u, size, Clamp(asked, 1, TotalPages(|t.records|, size)));
    RowsDistinct(t, size, asked);
    RowsDistinct(u, size, Clamp(asked, 1, TotalPages(|t.records|, size)));
  }

  /** The API's list never fetches again.  Its two queries see `t` and `w`. */
  method ApiListRecords(t: Tables, w: Tables, c: Cipher, defaultSize: int, askedSize: Option<int>,
                        askedPage: Option<int>, untitled: string)
    returns (records: seq<RecordView>, page: int, size: int, total: nat, totalPages: int)
    ensures size == Max(if askedSize.Some? then askedSize.value else defaultSize, 1)
    ensures total == |t.records| && totalPages == TotalPages(total, size)
    ensures var wanted := Max(if askedPage.Some? then askedPage.value else 1, 1);
            && page == Clamp(wanted, 1, totalPages)
            && |records| == |PageRows(t, size, wanted)|
            && (forall i :: 0 <= i < |records| ==>
                  records[i] == ViewOf(c, untitled, PageRows(t, size, wanted)[i],
                                       ListAttachments(w, PageRows(t, size, wanted)[i].id)))
    ensures CardsNewestFirst(records)
  {
    size := Max(if askedSize.Some? then askedSize.value else defaultSize, 1);
    var wanted := Max(if askedPage.Some? then askedPage.value else 1, 1);
    var (rows, n) := ListRecords(t, wanted, size);
    total := n;
    totalPages := Max((total + size - 1) / size, 1);
    page := Clamp(wanted, 1, totalPages);
    RowsDistinct(t, size, wanted);
    PageNewestFirst(t, size, wanted);
    var groups, left := TakeGroups(w, rows);
    records := RenderRows(c, untitled, rows, groups);
  }

  lemma {:induction false} Ceiling(n: nat, size: nat)
    requires size >= 1
    ensures n == 0 ==> TotalPages(n, size) == 1
    ensures n > 0 ==> (TotalPages(n, size) - 1) * size < n <= TotalPages(n, size) * size
  {
    var q, r := (n + size - 1) / size, (n + size - 1) % size;
    assert n + size - 1 == q * size + r;
    if n > 0 {
      assert q <= 0 ==> q * size <= 0;
      assert (q - 1) * size == q * size - size;
    }
  }

  lemma {:induction false} OffsetNext(p: int, size: nat)
    requires p >= 1
    ensures Offset(p + 1, size) == Offset(p, size) + size
  {
  }

  lemma {:induction false} OffsetMonotone(p: int, q: int, size: nat)
    requires 1 <= p <= q
    ensures Offset(p, size) <= Offset(q, size)
    decreases q - p
  {
    if p < q {
      OffsetMonotone(p, q - 1, size);
      OffsetNext(q - 1, size);
    }
  }

  lemma {:induction false} LastPage(n: nat, size: nat)
    requires size >= 1
    ensures var last := TotalPages(n, size);
            (n > 0 ==> Offset(last, size) < n) && n <= Offset(last + 1, size)
  {
    Ceiling(n, size);
  }

  /** Where a page starts and ends in the list. */
  lemma {:induction false} PageBounds(n: nat, size: nat, p: int)
    requires size >= 1 && p >= 1
    ensures p <= TotalPages(n, size) && n > 0 ==> Offset(p, size) < n
    ensures p < TotalPages(n, size) ==> Offset(p, size) + size < n
    ensures p >= TotalPages(n, size) ==> n <= Offset(p, size) + size
    ensures p > TotalPages(n, size) ==> n <= Offset(p, size)
  {
    var last := TotalPages(n, size);
    LastPage(n, size);
    OffsetNext(p, size);
    if p < last {
      OffsetMonotone(p + 1, last, size);
    }
    if p >= last {
      OffsetMonotone(last + 1, p + 1, size);
    }
    if p > last {
      OffsetMonotone(last + 1, p, size);
    }
  }

  /** Every page but the last is full; the last has a row unless there are no records;
      a page beyond the last is empty. */
  lemma {:induction false} PageSizes(t: Tables, size: nat, p: int)
    requires size >= 1 && p >= 1
    ensures var last := TotalPages(|t.records|, size);
            && (p < last ==> |PageRows(t, size, p)| == size)
            && (p == last ==> (PageRows(t, size, p) == [] <==> t.records == map[]) && |PageRows(t, size, p)| <= size)
            && (p > last ==> PageRows(t, size, p) == [])
  {
    AllRecordsListing(t);
    PageBounds(|t.records|, size, p);
  }

  /** Following `has_next` from a page: the pages fetched, in order. */
  function Follow(t: Tables, size: nat, p: int): seq<seq<Entry<Record>>>
    requires size >= 1 && p >= 1
    decreases TotalPages(|t.records|, size) - p
  {
    [PageRows(t, size, p)] + if p < TotalPages(|t.records|, size) then Follow(t, size, p + 1) else []
  }

  function Flatten<T>(s: seq<seq<T>>): seq<T> {
    if s == [] then [] else s[0] + Flatten(s[1..])
  }

  /** Where a page starts in the list; beyond the last page, the end. */
  function Start(t: Tables, size: nat, p: int): (i: nat)
    ensures i <= |AllRecords(t)|
  {
    Min(Offset(p, size), |AllRecords(t)|)
  }

  lemma {:induction false} PageSlice(t: Tables, size: nat, p: int)
    requires size >= 1 && p >= 1
    ensures Start(t, size, p) <= Start(t, size, p + 1)
    ensures PageRows(t, size, p) == AllRecords(t)[Start(t, size, p)..Start(t, size, p + 1)]
    ensures p >= TotalPages(|t.records|, size) ==> Start(t, size, p + 1) == |AllRecords(t)|
  {
    AllRecordsListing(t);
    OffsetNext(p, size);
    PageBounds(|t.records|, size, p);
  }

  lemma {:induction false} FlattenNext<T>(head: seq<T>, tail: seq<seq<T>>, s: seq<T>, a: nat, b: nat)
    requires a <= b <= |s| && head == s[a..b] && Flatten(tail) == s[b..]
    ensures Flatten([head] + tail) == s[a..]
  {
    assert ([head] + tail)[1..] == tail;
  }

  lemma {:induction false} FollowFrom(t: Tables, size: nat, p: int)
    requires size >= 1 && 1 <= p <= TotalPages(|t.records|, size)
    ensures |Follow(t, size, p)| == TotalPages(|t.records|, size) - p + 1
    ensures Flatten(Follow(t, size, p)) == AllRecords(t)[Start(t, size, p)..]
    decreases TotalPages(|t.records|, size) - p
  {
    var rest := [];
    PageSlice(t, size, p);
    if p < TotalPages(|t.records|, size) {
      FollowFrom(t, size, p + 1);
      rest := Follow(t, size, p + 1);
    }
    FlattenNext(PageRows(t, size, p), rest, AllRecords(t), Start(t, size, p), Start(t, size, p + 1));
  }

  /** Following `has_next` from the first page stops after exactly `total_pages` pages,
      which put together are the list: each record once, newest first. */
  lemma {:induction false} PagesPartitionTheList(t: Tables, size: nat)
    requires size >= 1
    ensures |Follow(t, size, 1)| == TotalPages(|t.records|, size)
    ensures Flatten(Follow(t, size, 1)) == AllRecords(t)
    ensures IsListing(Flatten(Follow(t, size, 1)), t.records, RecordEntry)
  {
    AllRecordsListing(t);
    FollowFrom(t, size, 1);
  }

  /** With no change between the queries, the browser gets exactly the rows of the page it is
      told it is on, unless it asked beyond a single page that is not empty: then it gets no
      rows at all. */
  lemma {:induction false} ViewIsClampedPage(t: Tables, size: nat, asked: int)
    requires size >= 1
    ensures var last := TotalPages(|t.records|, size);
            && (ViewRows(t, t, size, asked) == PageRows(t, size, Clamp(asked, 1, last))
                <==> asked <= 1 || last > 1 || t.records == map[])
            && (asked > 1 && last == 1 ==> ViewRows(t, t, size, asked) == [])
  {
    var last := TotalPages(|t.records|, size);
    PageSizes(t, size, Max(asked, 1));
    PageSizes(t, size, last);
  }

  /** The API gets the rows of the page it reports exactly when it asked for a page that exists. */
  lemma {:induction false} ApiPageIsClamped(t: Tables, size: nat, wanted: int)
    requires size >= 1 && wanted >= 1
    ensures var last := TotalPages(|t.records|, size);
            PageRows(t, size, wanted) == PageRows(t, size, Clamp(wanted, 1, last))
            <==> wanted <= last || t.records == map[]
  {
    PageSizes(t, size, wanted);
    PageSizes(t, size, TotalPages(|t.records|, size));
  }

  /** One record, page size one, page two asked for: the view says page one of one and is empty. */
  lemma {:induction false} BeyondSinglePageIsEmpty(id: Id, r: Record)
    ensures var t := Tables(map[id := r], map[]);
            && TotalPages(|t.records|, 1) == 1 && Clamp(2, 1, 1) == 1
            && ViewRows(t, t, 1, 2) == [] && PageRows(t, 1, 1) == [RecordEntry(id, r)]
  {
    var t := Tables(map[id := r], map[]);
    ViewIsClampedPage(t, 1, 2);
    AllRecordsListing(t);
    assert RecordEntry(id, r) in AllRecords(t);
  }

  /** The API for the same request: page one of one is reported and there are no rows. */
  lemma {:induction false} ApiBeyondLastIsEmpty(id: Id, r: Record)
    ensures var t := Tables(map[id := r], map[]);
            && Clamp(2, 1, TotalPages(|t.records|, 1)) == 1
            && PageRows(t, 1, 2) == [] && PageRows(t, 1, 1) == [RecordEntry(id, r)]
  {
    PageSizes(Tables(map[id := r], map[]), 1, 2);
    BeyondSinglePageIsEmpty(id, r);
  }
}
