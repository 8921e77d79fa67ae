/** Streaming a multipart form: text to memory, files to disk. */
module Parser {
  import opened Wrappers
  import opened Schema
  import opened Text
  import opened Uploads
  import opened Files
  import Render

  const MAX_ATTACHMENTS: nat := 20

  /** One part of the form.  An incomplete part's stream breaks after its chunks. */
  datatype Part = Part(
    name: string,
    filename: Option<string>,
    contentType: Option<string>,
    chunks: seq<Bytes>,
    complete: bool)

  /** An incomplete form is malformed after its parts. */
  datatype Form = Form(contentLength: Option<nat>, parts: seq<Part>, complete: bool)

  /** The limits, and two functions of libraries: text decoding and MIME guessing. */
  datatype Config = Config(
    maxRequest: nat,
    maxContent: nat,
    maxAttachment: nat,
    decode: Bytes -> string,
    guessMime: (string, Option<string>) -> string)

  datatype Refusal = TooLarge | Unprocessable | Internal

  datatype Parsed = Parsed(title: string, content: string, uploads: seq<Upload>)

  // ----- What a form means, whatever its chunks -----

  datatype File = File(filename: string, mime: string, bytes: Bytes)

  datatype Draft = Draft(title: string, content: string, files: seq<File>, total: nat, count: nat)

  const BLANK: Draft := Draft("", "", [], 0, 0)

  function Concat(chunks: seq<Bytes>): Bytes {
    if chunks == [] then [] else Concat(chunks[..|chunks| - 1]) + chunks[|chunks| - 1]
  }

  function TextOf(cfg: Config, p: Part): string {
    cfg.decode(Concat(p.chunks))
  }

  /** A file part that is taken: it has a file name that is not empty. */
  predicate Taken(p: Part) {
    p.name == "files" && p.filename.Some? && p.filename.value != ""
  }

  function AddPart(cfg: Config, d: Draft, p: Part): Option<Draft> {
    if p.name == "title" || p.name == "content" then AddText(cfg, d, p)
    else if p.name == "files" then if Taken(p) then AddFile(cfg, d, p) else Some(d)
    else if p.complete then Some(d.(total := d.total + |Utf8(TextOf(cfg, p))|))
    else Some(d)
  }

  function AddText(cfg: Config, d: Draft, p: Part): Option<Draft> {
    var text := TextOf(cfg, p);
    var len := |Utf8(text)|;
    if !p.complete || d.total + len > cfg.maxRequest || (p.name == "content" && len > cfg.maxContent) then None
    else if p.name == "title" then Some(d.(title := Render.SaveTitle(text), total := d.total + len))
    else Some(d.(content := text, total := d.total + len))
  }

  /** The limits are looked at after each chunk, so not at all when there is none. */
  predicate FileRefused(cfg: Config, total: nat, p: Part) {
    var size := |Concat(p.chunks)|;
    !p.complete || (p.chunks != [] && (size > cfg.maxAttachment || total + size > cfg.maxRequest))
  }

  function AddFile(cfg: Config, d: Draft, p: Part): Option<Draft>
    requires Taken(p)
  {
    var body := Concat(p.chunks);
    if d.count >= MAX_ATTACHMENTS || FileRefused(cfg, d.total, p) then None
    else
      var name := p.filename.value;
      Some(d.(files := d.files + [File(name, cfg.guessMime(name, p.contentType), body)],
              total := d.total + |body|, count := d.count + 1))
  }

  function Fold(cfg: Config, parts: seq<Part>): Option<Draft> {
    if parts == [] then Some(BLANK)
    else
      var d := Fold(cfg, parts[..|parts| - 1]);
      if d.None? then None else AddPart(cfg, d.value, parts[|parts| - 1])
  }

  /** None when the form is refused. */
  function Accept(cfg: Config, form: Form): Option<Draft> {
    if form.contentLength.Some? && form.contentLength.value > cfg.maxRequest then None
    else if !form.complete then None
    else Fold(cfg, form.parts)
  }

  // ----- Why a form is refused -----

  /** The first limit a file goes over as its chunks arrive. */
  function OverLimit(cfg: Config, total: nat, chunks: seq<Bytes>): Option<Refusal> {
    if chunks == [] then None
    else
      var earlier := OverLimit(cfg, total, chunks[..|chunks| - 1]);
      var size := |Concat(chunks)|;
      if earlier.Some? then earlier
      else if size > cfg.maxAttachment then Some(Unprocessable)
      else if total + size > cfg.maxRequest then Some(TooLarge)
      else None
  }

  function FileRefusal(cfg: Config, total: nat, p: Part): Refusal {
    match OverLimit(cfg, total, p.chunks)
    case Some(why) => why
    case None => Unprocessable
  }

  /** The answer to a part that is refused. */
  function PartRefusal(cfg: Config, d: Draft, p: Part): Refusal {
    if p.name == "files" then
      if d.count >= MAX_ATTACHMENTS then Unprocessable else FileRefusal(cfg, d.total, p)
    else if p.complete && d.total + |Utf8(TextOf(cfg, p))| > cfg.maxRequest then TooLarge
    else Unprocessable
  }

  /** The first refused part decides. */
  function FoldRefusal(cfg: Config, parts: seq<Part>): Refusal {
    if parts == [] then Unprocessable
    else
      var front := parts[..|parts| - 1];
      var d := Fold(cfg, front);
      if d.None? then FoldRefusal(cfg, front)
      else if AddPart(cfg, d.value, parts[|parts| - 1]).None? then PartRefusal(cfg, d.value, parts[|parts| - 1])
      else Unprocessable
  }

  function FormRefusal(cfg: Config, form: Form): Refusal {
    if form.contentLength.Some? && form.contentLength.value > cfg.maxRequest then TooLarge
    else FoldRefusal(cfg, form.parts)
  }

  lemma {:induction false} RefusedStaysRefused(cfg: Config, parts: seq<Part>, n: nat)
    requires n <= |parts| && Fold(cfg, parts[..n]).None?
    ensures Fold(cfg, parts).None? && FoldRefusal(cfg, parts) == FoldRefusal(cfg, parts[..n])
    decreases |parts|
  {
    if n < |parts| {
      assert parts[..|parts| - 1][..n] == parts[..n];
      RefusedStaysRefused(cfg, parts[..|parts| - 1], n);
    } else {
      assert parts[..n] == parts;
    }
  }

  /** A form whose parts are all taken is refused only for breaking off after them. */
  lemma {:induction false} TakenPartsGiveNoReason(cfg: Config, parts: seq<Part>)
    requires Fold(cfg, parts).Some?
    ensures FoldRefusal(cfg, parts) == Unprocessable
  {
  }

  lemma {:induction false} FoldNext(cfg: Config, parts: seq<Part>, n: nat)
    requires n < |parts| && Fold(cfg, parts[..n]).Some?
    ensures Fold(cfg, parts[..n + 1]) == AddPart(cfg, Fold(cfg, parts[..n]).value, parts[n])
    ensures Fold(cfg, parts[..n + 1]).None? ==>
              FoldRefusal(cfg, parts[..n + 1]) == PartRefusal(cfg, Fold(cfg, parts[..n]).value, parts[n])
  {
    assert parts[..n + 1][..n] == parts[..n];
  }

  lemma {:induction false} ConcatNext(chunks: seq<Bytes>, n: nat)
    requires n < |chunks|
    ensures Concat(chunks[..n + 1]) == Concat(chunks[..n]) + chunks[n]
  {
    assert chunks[..n + 1][..n] == chunks[..n];
  }

  lemma {:induction false} ConcatGrows(chunks: seq<Bytes>, n: nat)
    requires n <= |chunks|
    ensures |Concat(chunks[..n])| <= |Concat(chunks)|
    decreases |chunks|
  {
    if n < |chunks| {
      assert chunks[..|chunks| - 1][..n] == chunks[..n];
      ConcatGrows(chunks[..|chunks| - 1], n);
    } else {
      assert chunks[..n] == chunks;
    }
  }

  lemma {:induction false} OverLimitNext(cfg: Config, total: nat, chunks: seq<Bytes>, n: nat)
    requires n < |chunks| && OverLimit(cfg, total, chunks[..n]).None?
    ensures var size := |Concat(chunks[..n + 1])|;
            OverLimit(cfg, total, chunks[..n + 1]) ==
              if size > cfg.maxAttachment then Some(Unprocessable)
              else if total + size > cfg.maxRequest then Some(TooLarge)
              else None
  {
    assert chunks[..n + 1][..n] == chunks[..n];
  }

  /** Once over a limit, the file stays refused for that reason. */
  lemma {:induction false} OverLimitStays(cfg: Config, total: nat, chunks: seq<Bytes>, n: nat)
    requires n <= |chunks| && OverLimit(cfg, total, chunks[..n]).Some?
    ensures OverLimit(cfg, total, chunks) == OverLimit(cfg, total, chunks[..n])
    decreases |chunks|
  {
    if n < |chunks| {
      assert chunks[..|chunks| - 1][..n] == chunks[..n];
      OverLimitStays(cfg, total, chunks[..|chunks| - 1], n);
    } else {
      assert chunks[..n] == chunks;
    }
  }

  /** What the next chunk means for the file. */
  lemma {:induction false} ChunkArrives(cfg: Config, total: nat, p: Part, i: nat)
    requires i < |p.chunks| && OverLimit(cfg, total, p.chunks[..i]).None?
    ensures Concat(p.chunks[..i + 1]) == Concat(p.chunks[..i]) + p.chunks[i]
    ensures var size := |Concat(p.chunks[..i + 1])|;
            var why := OverLimit(cfg, total, p.chunks[..i + 1]);
            && why == (if size > cfg.maxAttachment then Some(Unprocessable)
                       else if total + size > cfg.maxRequest then Some(TooLarge)
                       else None)
            && (why.Some? ==> FileRefused(cfg, total, p) && OverLimit(cfg, total, p.chunks) == why)
  {
    ConcatNext(p.chunks, i);
    ConcatGrows(p.chunks, i + 1);
    OverLimitNext(cfg, total, p.chunks, i);
    if OverLimit(cfg, total, p.chunks[..i + 1]).Some? {
      OverLimitStays(cfg, total, p.chunks, i + 1);
    }
  }

  // ----- The streaming parser -----

  /** The uploads are the draft's files, in order, each stored under its own id. */
  ghost predicate Stored(us: seq<Upload>, files: seq<File>, disk: map<Id, Bytes>) {
    && |us| == |files|
    && (forall i :: 0 <= i < |us| ==>
          us[i].id in disk && us[i] == Upload(us[i].id, files[i].filename, files[i].mime, |disk[us[i].id]|)
          && disk[us[i].id] == files[i].bytes)
    && Distinct(us)
  }

  /** Removes every upload it can; `left` are those it could not remove. */
  method CleanupUploads(store: FileStore, uploads: seq<Upload>) returns (ghost left: set<Id>)
    requires store.Valid() && Distinct(uploads)
    modifies store
    ensures store.Valid() && store.minted == old(store.minted) && store.tmp == old(store.tmp)
    ensures left <= Ids(uploads) && store.attachments == old(store.attachments) - (Ids(uploads) - left)
    ensures store.unremoved >= old(store.unremoved) && store.faults >= old(store.faults)
    ensures store.unremoved == old(store.unremoved) ==> left == {}
  {
    left := {};
    for i := 0 to |uploads|
      invariant store.Valid() && store.minted == old(store.minted) && store.tmp == old(store.tmp)
      invariant left <= Ids(uploads[..i]) && store.attachments == old(store.attachments) - (Ids(uploads[..i]) - left)
      invariant store.unremoved >= old(store.unremoved) && store.faults >= old(store.faults)
      invariant store.unremoved == old(store.unremoved) ==> left == {}
    {
      IdsNext(uploads, i);
      ghost var gone := store.DeleteAttachment(uploads[i].id);
      if !gone {
        left := left + {uploads[i].id};
      }
    }
    assert uploads[..|uploads|] == uploads;
  }

  /** Streams one file part to disk under a fresh id: the inner loop over its chunks. */
  method StreamFile(store: FileStore, cfg: Config, p: Part, total: nat)
    returns (r: Result<Upload, Refusal>, ghost left: set<Id>)
    requires store.Valid() && Taken(p)
    modifies store
    ensures store.Valid() && old(store.minted) <= store.minted
    ensures store.unremoved >= old(store.unremoved) && store.faults >= old(store.faults)
    ensures store.unremoved == old(store.unremoved) ==> left == {}
    ensures store.attachments.Keys - old(store.attachments).Keys !! old(store.minted)
    ensures r.Ok? ==>
              && store.faults == old(store.faults) && store.tmp == old(store.tmp) && left == {}
              && r.value.id !in old(store.minted)
              && store.attachments == old(store.attachments)[r.value.id := Concat(p.chunks)]
              && r.value == Upload(r.value.id, p.filename.value, cfg.guessMime(p.filename.value, p.contentType),
                                   |Concat(p.chunks)|)
              && !FileRefused(cfg, total, p)
    ensures r.Err? ==>
              && left !! old(store.minted) && store.tmp - left == old(store.tmp)
              && store.attachments == old(store.attachments)
              && (r.error.Internal? ==> store.faults > old(store.faults))
              && (!r.error.Internal? ==> FileRefused(cfg, total, p) && r.error == FileRefusal(cfg, total, p))
  {
    left := {};
    var begun := store.BeginUpload();
    if begun.None? {
      return Err(Internal), {};
    }
    var id := begun.value;
    var size, failed := 0, None;
    var i := 0;
    while i < |p.chunks| && failed.None?
      invariant i <= |p.chunks|
      invariant store.Valid() && store.minted == old(store.minted) + {id} && store.attachments == old(store.attachments)
      invariant store.unremoved == old(store.unremoved) && store.faults >= old(store.faults)
      invariant id in store.tmp && store.tmp - {id} == old(store.tmp)
      invariant failed.None? ==>
                  && store.faults == old(store.faults)
                  && store.tmp[id] == Concat(p.chunks[..i]) && size == |Concat(p.chunks[..i])|
                  && (i > 0 ==> size <= cfg.maxAttachment && total + size <= cfg.maxRequest)
                  && OverLimit(cfg, total, p.chunks[..i]).None?
      invariant failed == Some(Internal) ==> store.faults > old(store.faults)
      invariant failed.Some? && failed != Some(Internal) ==>
                  FileRefused(cfg, total, p) && OverLimit(cfg, total, p.chunks) == failed
      decreases |p.chunks| - i, failed.None?
    {
      var chunk := p.chunks[i];
      ChunkArrives(cfg, total, p, i);
      size := size + |chunk|;
      if size > cfg.maxAttachment {
        failed := Some(Unprocessable);
      } else if total + size > cfg.maxRequest {
        failed := Some(TooLarge);
      } else {
        var ok := store.WriteAll(id, chunk);
        if ok {
          i := i + 1;
        } else {
          failed := Some(Internal);
        }
      }
    }
    assert failed.None? ==> p.chunks[..i] == p.chunks;
    if failed.None? && !p.complete {
      failed := Some(Unprocessable);
    }
    if failed.Some? {
      ghost var gone := store.AbortUpload(id);
      return Err(failed.value), if gone then {} else {id};
    }
    var done := store.FinalizeUpload(id);
    if done.None? {
      ghost var gone := store.AbortUpload(id);
      return Err(Internal), if gone then {} else {id};
    }
    r := Ok(Upload(id, p.filename.value, cfg.guessMime(p.filename.value, p.contentType), size));
  }

  /** The running variables of the loop. */
  datatype Vars = Vars(title: string, content: string, uploads: seq<Upload>, total: nat, count: nat)

  /** They are those of the parts read so far, and the uploads are on disk. */
  ghost predicate Tracks(d: Draft, v: Vars, disk: map<Id, Bytes>) {
    v.title == d.title && v.content == d.content && v.total == d.total && v.count == d.count
    && Stored(v.uploads, d.files, disk)
  }

  lemma {:induction false} StoredNext(us: seq<Upload>, files: seq<File>, disk: map<Id, Bytes>, u: Upload, f: File)
    requires Stored(us, files, disk) && u.id !in disk
    requires u == Upload(u.id, f.filename, f.mime, |f.bytes|)
    ensures Stored(us + [u], files + [f], disk[u.id := f.bytes]) && Ids(us + [u]) == Ids(us) + {u.id}
  {
    forall k | 0 <= k < |us| ensures us[k].id != u.id {
      assert us[k].id in disk;
    }
  }

  /** A title or content part: the whole text is in memory before the limits are looked at. */
  method ReadText(cfg: Config, p: Part, v: Vars, ghost d: Draft, ghost disk: map<Id, Bytes>)
    returns (r: Result<Vars, Refusal>)
    requires (p.name == "title" || p.name == "content") && Tracks(d, v, disk)
    ensures r.Err? ==> AddText(cfg, d, p).None? && r.error == PartRefusal(cfg, d, p)
    ensures r.Ok? ==> r.value.uploads == v.uploads && AddText(cfg, d, p).Some?
                      && Tracks(AddText(cfg, d, p).value, r.value, disk)
  {
    if !p.complete {
      return Err(Unprocessable);
    }
    var text := TextOf(cfg, p);
    var total := v.total + |Utf8(text)|;
    if total > cfg.maxRequest {
      return Err(TooLarge);
    }
    if p.name == "content" && |Utf8(text)| > cfg.maxContent {
      return Err(Unprocessable);
    }
    if p.name == "title" {
      r := Ok(v.(title := Render.SaveTitle(text), total := total));
    } else {
      r := Ok(v.(content := text, total := total));
    }
  }

  /** One part of the form. */
  method ReadPart(store: FileStore, cfg: Config, p: Part, v: Vars, ghost d: Draft)
    returns (r: Result<Vars, Refusal>, ghost left: set<Id>)
    requires store.Valid() && Tracks(d, v, store.attachments)
    modifies store
    ensures store.Valid() && old(store.minted) <= store.minted
    ensures store.unremoved >= old(store.unremoved) && store.faults >= old(store.faults)
    ensures store.unremoved == old(store.unremoved) ==> left == {}
    ensures left !! old(store.minted) && store.tmp - left == old(store.tmp)
    ensures r.Err? ==> store.attachments == old(store.attachments)
    ensures r.Err? && r.error.Internal? ==> store.faults > old(store.faults)
    ensures r.Err? && !r.error.Internal? ==> AddPart(cfg, d, p).None? && r.error == PartRefusal(cfg, d, p)
    ensures r.Ok? ==>
              && store.faults == old(store.faults) && left == {}
              && Ids(r.value.uploads) - Ids(v.uploads) !! old(store.minted)
              && store.attachments - Ids(r.value.uploads) == old(store.attachments) - Ids(v.uploads)
              && AddPart(cfg, d, p).Some? && Tracks(AddPart(cfg, d, p).value, r.value, store.attachments)
  {
    r, left := Ok(v), {};
    if p.name == "title" || p.name == "content" {
      r := ReadText(cfg, p, v, d, store.attachments);
    } else if p.name == "files" {
      if Taken(p) {
        if v.count + 1 > MAX_ATTACHMENTS {
          return Err(Unprocessable), {};
        }
        var file, kept := StreamFile(store, cfg, p, v.total);
        left := kept;
        if file.Err? {
          return Err(file.error), left;
        }
        var u := file.value;
        StoredNext(v.uploads, d.files, old(store.attachments), u, File(p.filename.value, u.mime, Concat(p.chunks)));
        r := Ok(Vars(v.title, v.content, v.uploads + [u], v.total + u.size, v.count + 1));
      }
    } else if p.complete {
      r := Ok(v.(total := v.total + |Utf8(TextOf(cfg, p))|));
    }
  }

  /** An internal error takes a fault; any other answer is the one the form deserves. */
  predicate ParseRefused(cfg: Config, form: Form, why: Refusal, fault: bool) {
    if why.Internal? then fault else Accept(cfg, form).None? && why == FormRefusal(cfg, form)
  }

  /** The outer loop over the parts: all of them, or up to the first that is refused. */
  method ReadParts(store: FileStore, cfg: Config, parts: seq<Part>)
    returns (v: Vars, refusal: Option<Refusal>, ghost left: set<Id>)
    requires store.Valid()
    modifies store
    ensures store.Valid() && old(store.minted) <= store.minted
    ensures store.unremoved >= old(store.unremoved) && (store.unremoved == old(store.unremoved) ==> left == {})
    ensures left !! old(store.minted) && Ids(v.uploads) !! old(store.minted) && Distinct(v.uploads)
    ensures store.attachments - Ids(v.uploads) == old(store.attachments) && store.tmp - left == old(store.tmp)
    ensures store.faults >= old(store.faults)
    ensures refusal.None? ==>
              && store.faults == old(store.faults) && left == {}
              && Fold(cfg, parts).Some? && Tracks(Fold(cfg, parts).value, v, store.attachments)
    ensures refusal == Some(Internal) ==> store.faults > old(store.faults)
    ensures refusal.Some? && refusal != Some(Internal) ==>
              Fold(cfg, parts).None? && refusal.value == FoldRefusal(cfg, parts)
  {
    v, refusal, left := Vars("", "", [], 0, 0), None, {};
    var i := 0;
    while i < |parts| && refusal.None?
      invariant i <= |parts|
      invariant store.Valid() && old(store.minted) <= store.minted
      invariant store.unremoved >= old(store.unremoved) && (store.unremoved == old(store.unremoved) ==> left == {})
      invariant left !! old(store.minted) && Ids(v.uploads) !! old(store.minted) && Distinct(v.uploads)
      invariant store.attachments - Ids(v.uploads) == old(store.attachments) && store.tmp - left == old(store.tmp)
      invariant store.faults >= old(store.faults)
      invariant refusal.None? ==>
                  && store.faults == old(store.faults) && left == {}
                  && Fold(cfg, parts[..i]).Some? && Tracks(Fold(cfg, parts[..i]).value, v, store.attachments)
      invariant refusal == Some(Internal) ==> store.faults > old(store.faults)
      invariant refusal.Some? && refusal != Some(Internal) ==>
                  Fold(cfg, parts).None? && refusal.value == FoldRefusal(cfg, parts)
      decreases |parts| - i, refusal.None?
    {
      FoldNext(cfg, parts, i);
      var read, kept := ReadPart(store, cfg, parts[i], v, Fold(cfg, parts[..i]).value);
      left := kept;
      if read.Ok? {
        v := read.value;
        i := i + 1;
      } else {
        refusal := Some(read.error);
        if !read.error.Internal? {
          RefusedStaysRefused(cfg, parts, i + 1);
        }
      }
    }
    assert parts[..|parts|] == parts;
  }

  /** A refused form leaves both stores as they were, up to the files in `left` whose
      removal failed; an accepted one leaves the temp store as it was and adds exactly its
      uploads, each with its bytes and size.  A form is refused because `Accept` refuses it,
      and then with the answer `FormRefusal` says, or because a file could not be written. */
  method ParseRecordForm(store: FileStore, cfg: Config, form: Form)
    returns (r: Result<Parsed, Refusal>, ghost left: set<Id>)
    requires store.Valid()
    modifies store
    ensures store.Valid() && old(store.minted) <= store.minted
    ensures store.unremoved >= old(store.unremoved) && (store.unremoved == old(store.unremoved) ==> left == {})
    ensures left !! old(store.minted)
    ensures r.Err? ==> store.tmp - left == old(store.tmp) && store.attachments - left == old(store.attachments)
    ensures r.Err? ==> ParseRefused(cfg, form, r.error, store.faults > old(store.faults))
    ensures r.Ok? ==>
              && store.tmp == old(store.tmp) && store.faults == old(store.faults)
              && Ids(r.value.uploads) !! old(store.minted)
              && store.attachments - Ids(r.value.uploads) == old(store.attachments)
              && Accept(cfg, form).Some?
              && var d := Accept(cfg, form).value;
                 r.value.title == d.title && r.value.content == d.content
                 && Stored(r.value.uploads, d.files, store.attachments)
  {
    left := {};
    if form.contentLength.Some? && form.contentLength.value > cfg.maxRequest {
      return Err(TooLarge), {};
    }
    var v, refusal;
    ghost var unaborted;
    v, refusal, unaborted := ReadParts(store, cfg, form.parts);
    left := unaborted;
    if refusal.None? && !form.complete {
      TakenPartsGiveNoReason(cfg, form.parts);
      refusal := Some(Unprocessable);
    }
    if refusal.Some? {
      ghost var kept := CleanupUploads(store, v.uploads);
      left := left + kept;
      return Err(refusal.value), left;
    }
    r := Ok(Parsed(v.title, v.content, v.uploads));
  }
}
