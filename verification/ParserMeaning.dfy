/** What an accepted form says, when a form is accepted and what a refused one is answered,
    over its parts alone. */
module ParserMeaning {
  import opened Wrappers
  import opened Schema
  import opened Text
  import opened Parser
  import opened ParserLimits
  import Render

  /** The text of the last part with this name, empty if there is none. */
  function LastText(cfg: Config, parts: seq<Part>, name: string): string {
    if parts == [] then ""
    else
      var p := parts[|parts| - 1];
      if p.name == name then cfg.decode(Concat(p.chunks)) else LastText(cfg, parts[..|parts| - 1], name)
  }

  /** The parts named "files" that have a file name, in order. */
  function FilesIn(cfg: Config, parts: seq<Part>): seq<File> {
    if parts == [] then []
    else
      var p := parts[|parts| - 1];
      FilesIn(cfg, parts[..|parts| - 1]) +
      if p.name == "files" && p.filename.Some? && p.filename.value != ""
      then [File(p.filename.value, cfg.guessMime(p.filename.value, p.contentType), Concat(p.chunks))]
      else []
  }

  /** The bytes that a part adds to the request's total. */
  function Counted(cfg: Config, p: Part): nat {
    if p.name == "files" then if p.filename.Some? && p.filename.value != "" then |Concat(p.chunks)| else 0
    else if p.name == "title" || p.name == "content" || p.complete then |Utf8(cfg.decode(Concat(p.chunks)))|
    else 0
  }

  function CountedAll(cfg: Config, parts: seq<Part>): nat {
    if parts == [] then 0 else CountedAll(cfg, parts[..|parts| - 1]) + Counted(cfg, parts[|parts| - 1])
  }

  // ----- One part -----

  /** What has been read is what the parts say. */
  ghost predicate Says(cfg: Config, parts: seq<Part>, d: Draft) {
    && d.content == LastText(cfg, parts, "content")
    && d.title == Render.SaveTitle(LastText(cfg, parts, "title"))
    && d.files == FilesIn(cfg, parts) && d.count == |FilesIn(cfg, parts)|
    && d.total == CountedAll(cfg, parts)
  }

  /** A part fits after `total` bytes and `count` files. */
  predicate PartFits(cfg: Config, p: Part, total: nat, count: nat) {
    if p.name == "title" || p.name == "content" then
      p.complete && total + Counted(cfg, p) <= cfg.maxRequest
      && (p.name == "content" ==> Counted(cfg, p) <= cfg.maxContent)
    else if p.name == "files" && p.filename.Some? && p.filename.value != "" then
      count < 20 && p.complete
      && (p.chunks == [] || (Counted(cfg, p) <= cfg.maxAttachment && total + Counted(cfg, p) <= cfg.maxRequest))
    else true
  }

  lemma {:induction false} TextRead(cfg: Config, d: Draft, p: Part)
    requires p.name == "title" || p.name == "content"
    ensures AddPart(cfg, d, p).Some? <==> PartFits(cfg, p, d.total, d.count)
    ensures AddPart(cfg, d, p).Some? ==>
              var text := cfg.decode(Concat(p.chunks));
              AddPart(cfg, d, p).value ==
                if p.name == "title"
                then d.(title := Render.SaveTitle(text), total := d.total + Counted(cfg, p))
                else d.(content := text, total := d.total + Counted(cfg, p))
  {
    assert AddPart(cfg, d, p) == AddText(cfg, d, p);
  }

  lemma {:induction false} FileRead(cfg: Config, d: Draft, p: Part)
    requires p.name == "files"
    ensures AddPart(cfg, d, p).Some? <==> PartFits(cfg, p, d.total, d.count)
    ensures AddPart(cfg, d, p).Some? && p.filename.Some? && p.filename.value != "" ==>
              var name := p.filename.value;
              AddPart(cfg, d, p).value ==
                d.(files := d.files + [File(name, cfg.guessMime(name, p.contentType), Concat(p.chunks))],
                   total := d.total + Counted(cfg, p), count := d.count + 1)
    ensures p.filename.None? || p.filename.value == "" ==> AddPart(cfg, d, p) == Some(d)
  {
    if Taken(p) {
      assert AddPart(cfg, d, p) == AddFile(cfg, d, p);
    }
  }

  lemma {:induction false} OtherRead(cfg: Config, d: Draft, p: Part)
    requires p.name != "title" && p.name != "content" && p.name != "files"
    ensures AddPart(cfg, d, p) == Some(d.(total := d.total + Counted(cfg, p)))
    ensures PartFits(cfg, p, d.total, d.count)
  {
  }

  /** One more part: it is taken exactly when it fits, and then says what it says. */
  lemma {:induction false} PartRead(cfg: Config, front: seq<Part>, d: Draft, p: Part)
    requires Says(cfg, front, d)
    ensures AddPart(cfg, d, p).Some? <==> PartFits(cfg, p, CountedAll(cfg, front), |FilesIn(cfg, front)|)
    ensures AddPart(cfg, d, p).Some? ==> Says(cfg, front + [p], AddPart(cfg, d, p).value)
  {
    assert (front + [p])[..|front|] == front;
    if p.name == "title" || p.name == "content" {
      TextRead(cfg, d, p);
    } else if p.name == "files" {
      FileRead(cfg, d, p);
    } else {
      OtherRead(cfg, d, p);
    }
  }

  // ----- A form -----

  predicate FitsAt(cfg: Config, parts: seq<Part>, i: nat)
    requires i < |parts|
  {
    PartFits(cfg, parts[i], CountedAll(cfg, parts[..i]), |FilesIn(cfg, parts[..i])|)
  }

  predicate AllFit(cfg: Config, parts: seq<Part>) {
    forall i :: 0 <= i < |parts| ==> FitsAt(cfg, parts, i)
  }

  lemma {:induction false} NothingRead(cfg: Config)
    ensures Fold(cfg, []) == Some(BLANK) && Says(cfg, [], BLANK)
  {
    Render.NoTitleIsEmpty();
  }

  lemma {:induction false} AllFitNext(cfg: Config, parts: seq<Part>)
    requires parts != []
    ensures var n := |parts| - 1;
            AllFit(cfg, parts) <==> AllFit(cfg, parts[..n]) && FitsAt(cfg, parts, n)
  {
    var n := |parts| - 1;
    forall i | 0 <= i < n ensures FitsAt(cfg, parts[..n], i) <==> FitsAt(cfg, parts, i) {
      assert parts[..n][..i] == parts[..i];
    }
  }

  /** The parts are all taken exactly when each fits after those before it, and then the
      draft says what they say. */
  lemma {:induction false} FoldSays(cfg: Config, parts: seq<Part>)
    ensures Fold(cfg, parts).Some? <==> AllFit(cfg, parts)
    ensures Fold(cfg, parts).Some? ==> Says(cfg, parts, Fold(cfg, parts).value)
    decreases |parts|
  {
    if parts == [] {
      NothingRead(cfg);
    } else {
      var n := |parts| - 1;
      var front := parts[..n];
      FoldSays(cfg, front);
      AllFitNext(cfg, parts);
      if Fold(cfg, front).Some? {
        PartRead(cfg, front, Fold(cfg, front).value, parts[n]);
        assert front + [parts[n]] == parts;
      }
    }
  }

  /** A form is accepted if and only if its declared length is within the request limit, it does
      not break off, and every part fits: a text is complete and within the request limit and,
      for the content, its own; a file is at most the twentieth, complete, and empty without a
      chunk or within the attachment and the request limit. */
  lemma {:induction false} AcceptedExactly(cfg: Config, form: Form)
    ensures Accept(cfg, form).Some?
            <==> (form.contentLength.Some? ==> form.contentLength.value <= cfg.maxRequest)
                 && form.complete && AllFit(cfg, form.parts)
  {
    FoldSays(cfg, form.parts);
  }

  /** An accepted form's content is the decoded text of its last content part, its title that of
      the last title part, trimmed and cut at 200 characters, and its files are the file parts in
      order, each with its name, MIME type and bytes. */
  lemma {:induction false} AcceptedSays(cfg: Config, form: Form)
    requires Accept(cfg, form).Some?
    ensures var d := Accept(cfg, form).value;
            var title := Trim(LastText(cfg, form.parts, "title"));
            && d.content == LastText(cfg, form.parts, "content")
            && d.title == (if |title| <= 200 then title else title[..200] + ['\U{2026}'])
            && d.files == FilesIn(cfg, form.parts)
            && d.total == CountedAll(cfg, form.parts)
  {
    FoldSays(cfg, form.parts);
  }

  // ----- The answer to a form that is refused -----

  /** The first part that does not fit decides: a text gets 413 exactly when it is complete and over
      the request limit, the 21st file gets 422, and another file gets 413 exactly when some chunk ends
      past the request limit and within the attachment limit. */
  lemma {:induction false} RefusedPartAnswer(cfg: Config, d: Draft, p: Part)
    requires !PartFits(cfg, p, d.total, d.count)
    ensures PartRefusal(cfg, d, p) == TooLarge || PartRefusal(cfg, d, p) == Unprocessable
    ensures PartRefusal(cfg, d, p) == TooLarge
            <==> if p.name == "files"
                 then d.count < 20 && exists n :: 0 <= n <= |p.chunks| && OnlyRequestIsFull(cfg, d.total, p.chunks, n)
                 else p.complete && d.total + Counted(cfg, p) > cfg.maxRequest
  {
    if p.name == "files" {
      OverLimitAnswers(cfg, d.total, p.chunks);
      if d.count < 20 {
        TooLargeExactly(cfg, d.total, p);
      }
    }
  }

  lemma {:induction false} OverLimitAnswers(cfg: Config, total: nat, chunks: seq<Bytes>)
    ensures OverLimit(cfg, total, chunks) in {None, Some(TooLarge), Some(Unprocessable)}
    decreases |chunks|
  {
    if chunks != [] {
      OverLimitAnswers(cfg, total, chunks[..|chunks| - 1]);
    }
  }

  lemma {:induction false} FirstRefusedDecides(cfg: Config, parts: seq<Part>, i: nat)
    requires i < |parts| && AllFit(cfg, parts[..i]) && !FitsAt(cfg, parts, i)
    ensures Fold(cfg, parts[..i]).Some? && Says(cfg, parts[..i], Fold(cfg, parts[..i]).value)
    ensures FoldRefusal(cfg, parts) == PartRefusal(cfg, Fold(cfg, parts[..i]).value, parts[i])
  {
    FoldSays(cfg, parts[..i]);
    PartRead(cfg, parts[..i], Fold(cfg, parts[..i]).value, parts[i]);
    FoldNext(cfg, parts, i);
    RefusedStaysRefused(cfg, parts, i + 1);
  }

  /** 413 when the declared length is over the request limit, whatever the parts; 422 when the
      form is only malformed after parts that all fit. */
  lemma {:induction false} LengthAnswer(cfg: Config, form: Form)
    ensures form.contentLength.Some? && form.contentLength.value > cfg.maxRequest ==>
              FormRefusal(cfg, form) == TooLarge
    ensures (form.contentLength.Some? ==> form.contentLength.value <= cfg.maxRequest) && AllFit(cfg, form.parts) ==>
              FormRefusal(cfg, form) == Unprocessable
  {
    if AllFit(cfg, form.parts) {
      FoldSays(cfg, form.parts);
      TakenPartsGiveNoReason(cfg, form.parts);
    }
  }

  /** Part `i` is the first that does not fit, in a form of acceptable length. */
  predicate FirstUnfit(cfg: Config, form: Form, i: nat) {
    && (form.contentLength.Some? ==> form.contentLength.value <= cfg.maxRequest)
    && i < |form.parts| && AllFit(cfg, form.parts[..i]) && !FitsAt(cfg, form.parts, i)
  }

  /** The first part that does not fit decides.  A text gets 413 when it is complete and over the
      request limit, else 422. */
  lemma {:induction false} TextAnswer(cfg: Config, form: Form, i: nat)
    requires FirstUnfit(cfg, form, i) && form.parts[i].name != "files"
    ensures var p := form.parts[i];
            FormRefusal(cfg, form) ==
              if p.complete && CountedAll(cfg, form.parts[..i]) + Counted(cfg, p) > cfg.maxRequest
              then TooLarge else Unprocessable
  {
    FirstRefusedDecides(cfg, form.parts, i);
    RefusedPartAnswer(cfg, Fold(cfg, form.parts[..i]).value, form.parts[i]);
  }

  /** The 21st file gets 422; another file gets 413 exactly when some chunk ends past the request
      limit and none so far past the attachment limit, else 422. */
  lemma {:induction false} FileAnswer(cfg: Config, form: Form, i: nat)
    requires FirstUnfit(cfg, form, i) && form.parts[i].name == "files"
    ensures FormRefusal(cfg, form) in {TooLarge, Unprocessable}
    ensures FormRefusal(cfg, form) == TooLarge
            <==> |FilesIn(cfg, form.parts[..i])| < 20
                 && exists n :: 0 <= n <= |form.parts[i].chunks|
                                && OnlyRequestIsFull(cfg, CountedAll(cfg, form.parts[..i]), form.parts[i].chunks, n)
  {
    var front, p := form.parts[..i], form.parts[i];
    FirstRefusedDecides(cfg, form.parts, i);
    var d := Fold(cfg, front).value;
    RefusedPartAnswer(cfg, d, p);
    assert d.total == CountedAll(cfg, front) && d.count == |FilesIn(cfg, front)|;
  }

  // ----- Chunks -----

  /** The bytes of a body are those of its chunks, in order. */
  lemma {:induction false} ConcatInOrder(a: seq<Bytes>, b: seq<Bytes>)
    ensures Concat(a + b) == Concat(a) + Concat(b)
    ensures |a| == 1 ==> Concat(a) == a[0]
    decreases |b|
  {
    if b == [] {
      assert a + b == a;
    } else {
      var n := |b| - 1;
      assert (a + b)[..|a + b| - 1] == a + b[..n];
      ConcatInOrder(a, b[..n]);
    }
    if |a| == 1 {
      assert a[..0] == [];
    }
  }
}
