/** What an accepted form is bounded by, and when cutting a part into other
    chunks makes a difference. */
module ParserLimits {
  import opened Wrappers
  import opened Schema
  import opened Text
  import opened Parser
  import Render

  // ----- Limits -----

  /** The bytes a part brings into the record: title, content or taken file. */
  function Brings(cfg: Config, p: Part): nat {
    if p.name == "title" || p.name == "content" then |Utf8(TextOf(cfg, p))|
    else if Taken(p) then |Concat(p.chunks)|
    else 0
  }

  function BringsAll(cfg: Config, parts: seq<Part>): nat {
    if parts == [] then 0 else BringsAll(cfg, parts[..|parts| - 1]) + Brings(cfg, parts[|parts| - 1])
  }

  ghost predicate Within(cfg: Config, d: Draft) {
    && |d.files| == d.count <= 20
    && (forall i :: 0 <= i < |d.files| ==> |d.files[i].bytes| <= cfg.maxAttachment)
    && |Utf8(d.content)| <= cfg.maxContent
    && |d.title| <= 201
  }

  lemma {:induction false} TitleFits(text: string)
    ensures |Render.SaveTitle(text)| <= 201
  {
    Render.SaveTitleIdempotent(text);
  }

  lemma {:induction false} TextWithin(cfg: Config, d: Draft, p: Part)
    requires Within(cfg, d) && (p.name == "title" || p.name == "content") && AddText(cfg, d, p).Some?
    ensures var d' := AddText(cfg, d, p).value;
            Within(cfg, d') && d'.total == d.total + Brings(cfg, p) <= cfg.maxRequest
  {
    if p.name == "title" {
      TitleFits(TextOf(cfg, p));
      assert AddText(cfg, d, p).value.title == Render.SaveTitle(TextOf(cfg, p));
    } else {
      assert AddText(cfg, d, p).value.title == d.title;
    }
  }

  lemma {:induction false} FileWithin(cfg: Config, d: Draft, p: Part)
    requires Within(cfg, d) && Taken(p) && AddFile(cfg, d, p).Some?
    ensures var d' := AddFile(cfg, d, p).value;
            Within(cfg, d') && d'.total == d.total + Brings(cfg, p)
            && (Brings(cfg, p) > 0 ==> d'.total <= cfg.maxRequest)
  {
    assert p.chunks == [] ==> Concat(p.chunks) == [];
  }

  /** A part that is taken keeps the limits, and what it brings fits the request limit. */
  lemma {:induction false} PartWithin(cfg: Config, d: Draft, p: Part)
    requires Within(cfg, d) && AddPart(cfg, d, p).Some?
    ensures var d' := AddPart(cfg, d, p).value;
            Within(cfg, d') && d'.total >= d.total + Brings(cfg, p)
            && (Brings(cfg, p) > 0 ==> d'.total <= cfg.maxRequest)
  {
    if p.name == "title" || p.name == "content" {
      TextWithin(cfg, d, p);
    } else if Taken(p) {
      FileWithin(cfg, d, p);
    }
  }

  lemma {:induction false} FoldWithin(cfg: Config, parts: seq<Part>)
    requires Fold(cfg, parts).Some?
    ensures Within(cfg, Fold(cfg, parts).value)
    ensures BringsAll(cfg, parts) <= cfg.maxRequest && BringsAll(cfg, parts) <= Fold(cfg, parts).value.total
    decreases |parts|
  {
    if parts != [] {
      FoldWithin(cfg, parts[..|parts| - 1]);
      PartWithin(cfg, Fold(cfg, parts[..|parts| - 1]).value, parts[|parts| - 1]);
    }
  }

  /** An accepted form has at most 20 files of at most the attachment limit, content
      and title within theirs, and all the bytes it brings fit the request limit. */
  lemma {:induction false} AcceptedIsWithinLimits(cfg: Config, form: Form)
    requires Accept(cfg, form).Some?
    ensures Within(cfg, Accept(cfg, form).value)
    ensures BringsAll(cfg, form.parts) <= cfg.maxRequest
  {
    FoldWithin(cfg, form.parts);
  }

  // ----- Chunking -----

  /** The same part cut into other chunks. */
  predicate SameButForChunks(p: Part, q: Part) {
    && p.name == q.name && p.filename == q.filename && p.contentType == q.contentType && p.complete == q.complete
    && Concat(p.chunks) == Concat(q.chunks)
  }

  /** The one thing about its chunks, beside their bytes, that a part shows:
      whether an empty body came as no chunk or as empty chunks. */
  predicate SameEmptiness(p: Part, q: Part) {
    Concat(p.chunks) == [] ==> (p.chunks == [] <==> q.chunks == [])
  }

  /** Chunks of a cut body are not empty. */
  predicate Cut(p: Part) {
    forall i :: 0 <= i < |p.chunks| ==> p.chunks[i] != []
  }

  lemma {:induction false} CutIsSameEmptiness(p: Part, q: Part)
    requires Cut(p) && Cut(q) && SameButForChunks(p, q)
    ensures SameEmptiness(p, q)
  {
    assert p.chunks != [] ==> p.chunks[|p.chunks| - 1] != [];
    assert q.chunks != [] ==> q.chunks[|q.chunks| - 1] != [];
  }

  /** Whether the next part's fate hangs on an empty body having chunks: a file that
      would be taken, when unknown fields have already gone over the request limit. */
  predicate ChunksMatter(cfg: Config, d: Draft, p: Part) {
    Taken(p) && p.complete && d.count < 20 && Concat(p.chunks) == [] && d.total > cfg.maxRequest
  }

  /** Exactly when two cuts of the same part are treated alike. */
  lemma {:induction false} ChunksMatterExactly(cfg: Config, d: Draft, p: Part, q: Part)
    requires SameButForChunks(p, q)
    ensures AddPart(cfg, d, p) == AddPart(cfg, d, q)
            <==> !ChunksMatter(cfg, d, p) || (p.chunks == [] <==> q.chunks == [])
  {
    if Taken(p) {
      FilesAlike(cfg, d, p, q);
    } else {
      TextsAlike(cfg, d, p, q);
    }
  }

  lemma {:induction false} TextsAlike(cfg: Config, d: Draft, p: Part, q: Part)
    requires SameButForChunks(p, q) && !Taken(p)
    ensures AddPart(cfg, d, p) == AddPart(cfg, d, q)
  {
    assert TextOf(cfg, p) == TextOf(cfg, q);
    if p.name == "title" || p.name == "content" {
      assert AddText(cfg, d, p) == AddText(cfg, d, q);
    }
  }

  lemma {:induction false} FilesAlike(cfg: Config, d: Draft, p: Part, q: Part)
    requires SameButForChunks(p, q) && Taken(p)
    ensures AddFile(cfg, d, p) == AddFile(cfg, d, q)
            <==> !ChunksMatter(cfg, d, p) || (p.chunks == [] <==> q.chunks == [])
  {
    FileRefusedAlike(cfg, d, p, q);
    var refusedP, refusedQ := FileRefused(cfg, d.total, p), FileRefused(cfg, d.total, q);
    assert d.count < 20 ==>
        (AddFile(cfg, d, p).None? <==> refusedP) && (AddFile(cfg, d, q).None? <==> refusedQ);
  }

  lemma {:induction false} FileRefusedAlike(cfg: Config, d: Draft, p: Part, q: Part)
    requires SameButForChunks(p, q)
    ensures (FileRefused(cfg, d.total, p) <==> FileRefused(cfg, d.total, q))
            <==> !(p.complete && Concat(p.chunks) == [] && d.total > cfg.maxRequest)
                 || (p.chunks == [] <==> q.chunks == [])
  {
    assert p.chunks == [] ==> Concat(p.chunks) == [];
    assert q.chunks == [] ==> Concat(q.chunks) == [];
  }

  /** When one cut of a part is taken, the other is refused or taken alike. */
  lemma {:induction false} TakenAlike(cfg: Config, d: Draft, p: Part, q: Part)
    requires SameButForChunks(p, q) && AddPart(cfg, d, p).Some?
    ensures AddPart(cfg, d, q).None? || AddPart(cfg, d, q) == AddPart(cfg, d, p)
  {
    if !Taken(p) {
      TextsAlike(cfg, d, p, q);
    }
  }

  /** Exactly when that other cut is taken alike. */
  lemma {:induction false} TakenAlikeExactly(cfg: Config, d: Draft, p: Part, q: Part)
    requires SameButForChunks(p, q) && AddPart(cfg, d, p).Some?
    ensures AddPart(cfg, d, q).None? || AddPart(cfg, d, q) == AddPart(cfg, d, p)
    ensures AddPart(cfg, d, q) == AddPart(cfg, d, p)
            <==> (ChunksMatter(cfg, d, p) ==> (p.chunks == [] <==> q.chunks == []))
  {
    ChunksMatterExactly(cfg, d, p, q);
    TakenAlike(cfg, d, p, q);
  }

  /** At part `i` of a form the two cuts are treated alike. */
  predicate AgreeAt(cfg: Config, ps: seq<Part>, qs: seq<Part>, i: nat)
    requires i < |ps| == |qs|
  {
    var d := Fold(cfg, ps[..i]);
    d.Some? && ChunksMatter(cfg, d.value, ps[i]) ==> (ps[i].chunks == [] <==> qs[i].chunks == [])
  }

  predicate Agree(cfg: Config, ps: seq<Part>, qs: seq<Part>)
    requires |ps| == |qs|
  {
    forall i :: 0 <= i < |ps| ==> AgreeAt(cfg, ps, qs, i)
  }

  predicate SameParts(ps: seq<Part>, qs: seq<Part>) {
    |ps| == |qs| && forall i :: 0 <= i < |ps| ==> SameButForChunks(ps[i], qs[i])
  }

  /** One part more, after parts that were taken alike. */
  lemma {:induction false} FoldStep(cfg: Config, ps: seq<Part>, qs: seq<Part>)
    requires SameParts(ps, qs) && ps != [] && Fold(cfg, ps).Some?
    requires Fold(cfg, qs[..|qs| - 1]) == Fold(cfg, ps[..|ps| - 1])
    ensures Fold(cfg, qs).None? || Fold(cfg, qs) == Fold(cfg, ps)
    ensures Fold(cfg, qs) == Fold(cfg, ps) <==> AgreeAt(cfg, ps, qs, |ps| - 1)
  {
    var n := |ps| - 1;
    var d := Fold(cfg, ps[..n]).value;
    TakenAlikeExactly(cfg, d, ps[n], qs[n]);
    assert Fold(cfg, ps) == AddPart(cfg, d, ps[n]) && Fold(cfg, qs) == AddPart(cfg, d, qs[n]);
  }

  lemma {:induction false} AgreeNext(cfg: Config, ps: seq<Part>, qs: seq<Part>)
    requires |ps| == |qs| > 0
    ensures var n := |ps| - 1;
            Agree(cfg, ps, qs) <==> Agree(cfg, ps[..n], qs[..n]) && AgreeAt(cfg, ps, qs, n)
  {
    var n := |ps| - 1;
    forall i | 0 <= i < n ensures AgreeAt(cfg, ps[..n], qs[..n], i) <==> AgreeAt(cfg, ps, qs, i) {
      assert ps[..n][..i] == ps[..i];
    }
  }

  /** When one cut of the parts is taken, the other is refused or taken alike: alike if and
      only if at no part the chunks matter and only one of the two cuts has any. */
  lemma {:induction false} FoldExactly(cfg: Config, ps: seq<Part>, qs: seq<Part>)
    requires SameParts(ps, qs) && Fold(cfg, ps).Some?
    ensures Fold(cfg, qs).None? || Fold(cfg, qs) == Fold(cfg, ps)
    ensures Fold(cfg, qs) == Fold(cfg, ps) <==> Agree(cfg, ps, qs)
    decreases |ps|
  {
    if ps != [] {
      var n := |ps| - 1;
      FoldExactly(cfg, ps[..n], qs[..n]);
      AgreeNext(cfg, ps, qs);
      if Fold(cfg, qs[..n]).Some? {
        FoldStep(cfg, ps, qs);
      }
    }
  }

  /** The same form with its parts cut into other chunks. */
  predicate Recut(f: Form, g: Form) {
    f.contentLength == g.contentLength && f.complete == g.complete && SameParts(f.parts, g.parts)
  }

  /** Two cuts of a form get the same verdict and, when accepted, the same title, content, file
      names, bytes and totals, if and only if neither is accepted, or the accepted one agrees with
      the other at every part: no file with an empty body comes after an overflow with chunks in
      one cut and without in the other. */
  lemma {:induction false} ChunkingMattersExactly(cfg: Config, f: Form, g: Form)
    requires Recut(f, g)
    ensures Accept(cfg, f) == Accept(cfg, g)
            <==> (Accept(cfg, f).Some? ==> Agree(cfg, f.parts, g.parts))
                 && (Accept(cfg, g).Some? ==> Agree(cfg, g.parts, f.parts))
  {
    if Accept(cfg, f).Some? {
      FoldExactly(cfg, f.parts, g.parts);
    }
    if Accept(cfg, g).Some? {
      FoldExactly(cfg, g.parts, f.parts);
    }
  }

  /** So cutting the parts of a form into chunks in any two ways, with no chunk empty, makes no
      difference, nor do empty chunks unless a body is nothing else. */
  lemma {:induction false} ChunkingDoesNotMatter(cfg: Config, f: Form, g: Form)
    requires Recut(f, g)
    requires forall i :: 0 <= i < |f.parts| ==>
               (Cut(f.parts[i]) && Cut(g.parts[i])) || SameEmptiness(f.parts[i], g.parts[i])
    ensures Accept(cfg, f) == Accept(cfg, g)
  {
    forall i | 0 <= i < |f.parts|
      ensures AgreeAt(cfg, f.parts, g.parts, i) && AgreeAt(cfg, g.parts, f.parts, i)
    {
      if Cut(f.parts[i]) && Cut(g.parts[i]) {
        CutIsSameEmptiness(f.parts[i], g.parts[i]);
      }
    }
    ChunkingMattersExactly(cfg, f, g);
  }

  // ----- Which refusal -----

  /** After `n` chunks the file is over the request limit and not over its own. */
  predicate OnlyRequestIsFull(cfg: Config, total: nat, chunks: seq<Bytes>, n: nat)
    requires n <= |chunks|
  {
    n > 0 && total + |Concat(chunks[..n])| > cfg.maxRequest && |Concat(chunks[..n])| <= cfg.maxAttachment
  }

  lemma {:induction false} OverLimitWhy(cfg: Config, total: nat, chunks: seq<Bytes>)
    ensures OverLimit(cfg, total, chunks) == Some(TooLarge)
            <==> exists n :: 0 <= n <= |chunks| && OnlyRequestIsFull(cfg, total, chunks, n)
    decreases |chunks|
  {
    if chunks != [] {
      var last := |chunks| - 1;
      var front := chunks[..last];
      OverLimitWhy(cfg, total, front);
      forall n | 0 <= n <= last
        ensures OnlyRequestIsFull(cfg, total, chunks, n) <==> OnlyRequestIsFull(cfg, total, front, n)
      {
        assert chunks[..n] == front[..n];
      }
      assert chunks[..|chunks|] == chunks && front[..last] == front;
      ConcatGrows(chunks, last);
      if OverLimit(cfg, total, front).None? {
        assert OnlyRequestIsFull(cfg, total, chunks, |chunks|) <==> OverLimit(cfg, total, chunks) == Some(TooLarge);
      } else {
        OverLimitOver(cfg, total, front);
        if OnlyRequestIsFull(cfg, total, chunks, |chunks|) {
          assert OnlyRequestIsFull(cfg, total, front, last);
        }
      }
    }
  }

  lemma {:induction false} OverLimitOver(cfg: Config, total: nat, chunks: seq<Bytes>)
    requires OverLimit(cfg, total, chunks).Some?
    ensures chunks != [] && (|Concat(chunks)| > cfg.maxAttachment || total + |Concat(chunks)| > cfg.maxRequest)
    decreases |chunks|
  {
    var front := chunks[..|chunks| - 1];
    if OverLimit(cfg, total, front).Some? {
      OverLimitOver(cfg, total, front);
      ConcatGrows(chunks, |chunks| - 1);
    }
  }

  /** Which answer a refused file gets does hang on its chunks: 413 exactly when some chunk
      ends past the request limit and within the attachment limit, else 422. */
  lemma {:induction false} TooLargeExactly(cfg: Config, total: nat, p: Part)
    requires FileRefused(cfg, total, p)
    ensures FileRefusal(cfg, total, p) == TooLarge
            <==> exists n :: 0 <= n <= |p.chunks| && OnlyRequestIsFull(cfg, total, p.chunks, n)
  {
    OverLimitWhy(cfg, total, p.chunks);
  }

  lemma {:induction false} OneChunk(b: Bytes)
    ensures Concat([b]) == b
  {
    assert [b][..0] == [];
  }

  /** A field that the form does not know, and then one file. */
  function OtherThenFile(b: Bytes, chunks: seq<Bytes>): Form {
    Form(None, [Part("other", None, None, [b], true), Part("files", Some("f"), None, chunks, true)], true)
  }

  lemma {:induction false} AfterOther(cfg: Config, b: Bytes, chunks: seq<Bytes>)
    ensures var total := |Utf8(cfg.decode(b))|;
            var p := Part("files", Some("f"), None, chunks, true);
            && (Accept(cfg, OtherThenFile(b, chunks)).None? <==> FileRefused(cfg, total, p))
            && (FileRefused(cfg, total, p) ==> FormRefusal(cfg, OtherThenFile(b, chunks)) == FileRefusal(cfg, total, p))
  {
    var parts := OtherThenFile(b, chunks).parts;
    OneChunk(b);
    assert parts[..1] == [parts[0]] && [parts[0]][..0] == [];
    assert Fold(cfg, [parts[0]]) == Some(Draft("", "", [], |Utf8(cfg.decode(b))|, 0));
    FoldNext(cfg, parts, 1);
    assert parts[..2] == parts;
  }

  /** An input for which chunks that hold nothing do matter: an unknown field within the request
      limit, with room for the framing of the form, that decodes to a text over the limit, then a
      file with an empty body. */
  lemma {:induction false} EmptyChunkMatters(cfg: Config, b: Bytes, framing: nat)
    requires |b| + framing <= cfg.maxRequest < |Utf8(cfg.decode(b))|
    ensures Recut(OtherThenFile(b, []), OtherThenFile(b, [[]]))
    ensures Accept(cfg, OtherThenFile(b, [])).Some? && Accept(cfg, OtherThenFile(b, [[]])).None?
  {
    AfterOther(cfg, b, []);
    AfterOther(cfg, b, [[]]);
    OneChunk([]);
  }

  /** Two cuts of one file that get different answers, all within the request limit but for what
      decoding adds: as a whole it gets 422, in two pieces of which the first is within the
      attachment limit it gets 413. */
  lemma {:induction false} SameFileTwoAnswers(cfg: Config, b: Bytes, x: Bytes, y: Bytes, framing: nat)
    requires |b| + |x| + |y| + framing <= cfg.maxRequest < |Utf8(cfg.decode(b))| + |x|
    requires |x| <= cfg.maxAttachment < |x| + |y|
    ensures Recut(OtherThenFile(b, [x + y]), OtherThenFile(b, [x, y]))
    ensures FormRefusal(cfg, OtherThenFile(b, [x + y])) == Unprocessable
    ensures FormRefusal(cfg, OtherThenFile(b, [x, y])) == TooLarge
    ensures Accept(cfg, OtherThenFile(b, [x + y])).None? && Accept(cfg, OtherThenFile(b, [x, y])).None?
  {
    var total := |Utf8(cfg.decode(b))|;
    OneChunk(x + y);
    OneChunk(x);
    assert [x, y][..1] == [x];
    assert Concat([x, y]) == x + y;
    AfterOther(cfg, b, [x + y]);
    AfterOther(cfg, b, [x, y]);
    TooLargeExactly(cfg, total, Part("files", Some("f"), None, [x, y], true));
    assert OnlyRequestIsFull(cfg, total, [x, y], 1);
    assert OverLimit(cfg, total, [x + y]) == Some(Unprocessable) by {
      assert [x + y][..|[x + y]| - 1] == [];
    }
  }

  // ----- Decoding can make text longer -----

  function Repeat<T>(x: T, n: nat): seq<T> {
    seq(n, _ => x)
  }

  const REPLACEMENT: char := '\U{FFFD}'

  /** Decoding puts the replacement character for each byte that no UTF-8 text contains. */
  ghost predicate Replaces(decode: Bytes -> string) {
    forall n: nat :: decode(Repeat(0xFF, n)) == Repeat(REPLACEMENT, n)
  }

  lemma {:induction false} ReplacementsAreLong(n: nat)
    ensures |Utf8(Repeat(REPLACEMENT, n))| == 3 * n
  {
    if n > 0 {
      assert Repeat(REPLACEMENT, n)[1..] == Repeat(REPLACEMENT, n - 1);
      ReplacementsAreLong(n - 1);
    }
  }

  /** With such a decoder there is an input of that kind for every request limit of which the
      framing takes less than two thirds. */
  lemma {:induction false} OverflowingField(cfg: Config, framing: nat)
    requires Replaces(cfg.decode) && cfg.maxRequest < 3 * (cfg.maxRequest - framing)
    ensures exists b :: |b| + framing <= cfg.maxRequest < |Utf8(cfg.decode(b))|
  {
    var n := cfg.maxRequest - framing;
    var b := Repeat(0xFF, n);
    ReplacementsAreLong(n);
    assert |b| + framing <= cfg.maxRequest < |Utf8(cfg.decode(b))|;
  }
}
