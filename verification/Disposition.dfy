/** The Content-Disposition header with an RFC 5987 file name. */
module Disposition {
  import opened Schema
  import opened Text

  predicate IsAlnum(n: int) {
    'a' as int <= n <= 'z' as int || 'A' as int <= n <= 'Z' as int || '0' as int <= n <= '9' as int
  }

  /** Letters, digits, '.', '-' and '_'. */
  predicate IsPlain(n: int) {
    IsAlnum(n) || n == '.' as int || n == '-' as int || n == '_' as int
  }

  function FallbackChar(c: char): char {
    if IsPlain(c as int) || c == ' ' then c else '_'
  }

  const HEX: string := "0123456789ABCDEF"

  function EncodeByte(b: byte): string {
    if IsPlain(b) then [b as char] else ['%', HEX[b / 16], HEX[b % 16]]
  }

  function Encode(bytes: Bytes): string {
    if bytes == [] then "" else EncodeByte(bytes[0]) + Encode(bytes[1..])
  }

  const MARKER: string := "filename*=UTF-8''"

  function FallbackOf(filename: string): (r: string) {
    if filename == "" then "file" else seq(|filename|, i requires 0 <= i < |filename| => FallbackChar(filename[i]))
  }

  function Header(kind: string, filename: string): string {
    Prefix(kind, filename) + MARKER + Encode(Utf8(filename))
  }

  const OPENING: string := "; filename=\""
  const CLOSING: string := "\"; "

  function Prefix(kind: string, filename: string): string {
    kind + OPENING + FallbackOf(filename) + CLOSING
  }

  lemma {:induction false} EncodeInOrder(a: Bytes, b: Bytes)
    ensures Encode(a + b) == Encode(a) + Encode(b)
    decreases |a|
  {
    if a == [] {
      assert a + b == b;
    } else {
      assert (a + b)[1..] == a[1..] + b;
      EncodeInOrder(a[1..], b);
    }
  }

  lemma {:induction false} EncodeSnoc(bytes: Bytes, b: byte)
    ensures Encode(bytes + [b]) == Encode(bytes) + EncodeByte(b)
  {
    EncodeInOrder(bytes, [b]);
    assert Encode([b]) == EncodeByte(b) + Encode([]);
  }

  /** The loop over the bytes of the name. */
  method EncodeValue(bytes: Bytes) returns (encoded: string)
    ensures encoded == Encode(bytes)
  {
    encoded := "";
    for i := 0 to |bytes|
      invariant encoded == Encode(bytes[..i])
    {
      var b := bytes[i];
      assert bytes[..i + 1] == bytes[..i] + [b];
      EncodeSnoc(bytes[..i], b);
      if IsPlain(b) {
        encoded := encoded + [b as char];
      } else if b == ' ' as int {
        encoded := encoded + "%20";
      } else {
        encoded := encoded + ['%', HEX[b / 16], HEX[b % 16]];
      }
    }
    assert bytes[..|bytes|] == bytes;
  }

  /** Pushes into the fallback and the encoded value, then puts the parts together. */
  method ContentDisposition(kind: string, filename: string) returns (header: string)
    ensures header == Header(kind, filename)
    ensures header == kind + "; filename=\"" + FallbackOf(filename) + "\"; " + "filename*=UTF-8''"
                      + Encode(Utf8(filename))
  {
    var fallback := "";
    for i := 0 to |filename|
      invariant |fallback| == i
      invariant forall k :: 0 <= k < i ==> fallback[k] == FallbackChar(filename[k])
    {
      var ch := filename[i];
      if IsPlain(ch as int) || ch == ' ' {
        fallback := fallback + [ch];
      } else {
        fallback := fallback + ['_'];
      }
    }
    if fallback == "" {
      fallback := "file";
    }
    assert fallback == FallbackOf(filename);
    var encoded := EncodeValue(Utf8(filename));
    header := kind + OPENING + fallback + CLOSING + MARKER + encoded;
  }

  // ----- What is kept and what is replaced -----

  predicate IsPlainChar(c: char) {
    'a' <= c <= 'z' || 'A' <= c <= 'Z' || '0' <= c <= '9' || c in ".-_"
  }

  /** The fallback keeps letters, digits, '.', '-', '_' and spaces in their places; every other
      character becomes an underscore, and no name at all becomes "file". */
  lemma {:induction false} FallbackKeeps(filename: string)
    ensures filename == "" ==> FallbackOf(filename) == "file"
    ensures filename != "" ==>
              && |FallbackOf(filename)| == |filename|
              && forall k :: 0 <= k < |filename| ==>
                   FallbackOf(filename)[k] ==
                     if IsPlainChar(filename[k]) || filename[k] == ' ' then filename[k] else '_'
  {
    forall k | 0 <= k < |filename| ensures IsPlain(filename[k] as int) <==> IsPlainChar(filename[k]) {
    }
  }

  /** One byte is kept if it is plain, else it becomes three characters. */
  lemma {:induction false} OneByte(b: byte)
    ensures IsPlainChar(b as char) ==> Encode([b]) == [b as char]
    ensures !IsPlainChar(b as char) ==> |Encode([b])| == 3 && Encode([b])[0] == '%'
  {
    assert IsPlain(b) <==> IsPlainChar(b as char);
    assert Encode([b]) == EncodeByte(b) + Encode([]);
  }

  /** A name of plain characters is sent as it is, both times. */
  lemma {:induction false} PlainNameIsKept(filename: string)
    requires filename != "" && forall k :: 0 <= k < |filename| ==> IsPlainChar(filename[k])
    ensures FallbackOf(filename) == filename
    ensures Encode(Utf8(filename)) == filename
  {
    FallbackKeeps(filename);
    PlainIsNotEscaped(filename);
  }

  lemma {:induction false} PlainIsNotEscaped(s: string)
    requires forall k :: 0 <= k < |s| ==> IsPlainChar(s[k])
    ensures Encode(Utf8(s)) == s
    decreases |s|
  {
    if s != "" {
      PlainIsNotEscaped(s[1..]);
      Utf8InOrder([s[0]], s[1..]);
      assert s == [s[0]] + s[1..];
      EncodeInOrder(Utf8([s[0]]), Utf8(s[1..]));
      AsciiIsItself(s[0]);
      OneByte(s[0] as int);
    }
  }

  // ----- Reading the header back -----

  function HexValue(c: char): int {
    if '0' <= c <= '9' then c as int - '0' as int
    else if 'A' <= c <= 'F' then c as int - 'A' as int + 10
    else -1
  }

  /** Percent-decoding, as a receiver does it. */
  function Decode(s: string): seq<int> {
    if s == "" then []
    else if s[0] == '%' && |s| >= 3 then [HexValue(s[1]) * 16 + HexValue(s[2])] + Decode(s[3..])
    else [s[0] as int] + Decode(s[1..])
  }

  /** Decoding the value gives back exactly the bytes of the file name. */
  lemma {:induction false} DecodeEncode(bytes: Bytes)
    ensures Decode(Encode(bytes)) == bytes
    decreases |bytes|
  {
    if bytes != [] {
      DecodeEncode(bytes[1..]);
      var b := bytes[0];
      var e := EncodeByte(b);
      var s := Encode(bytes);
      assert s == e + Encode(bytes[1..]);
      assert s[|e|..] == Encode(bytes[1..]);
      if !IsPlain(b) {
        HexDigits(b);
      }
      assert Decode(s) == [b as int] + Decode(Encode(bytes[1..]));
    }
  }

  lemma {:induction false} HexDigits(b: byte)
    ensures HexValue(HEX[b / 16]) * 16 + HexValue(HEX[b % 16]) == b
  {
    HexDigit(b / 16);
    HexDigit(b % 16);
  }

  lemma {:induction false} HexDigit(d: nat)
    requires d < 16
    ensures HexValue(HEX[d]) == d && HEX[d] != '\'' && HEX[d] != '"' && HEX[d] != '*' && IsAlnum(HEX[d] as int)
  {
  }

  /** attr-char of section 3.2.1 of RFC 5987. */
  predicate IsAttrChar(c: char) {
    IsAlnum(c as int) || c in "!#$&+-.^_`|~"
  }

  /** value-chars of section 3.2.1 of RFC 5987: attr-char or pct-encoded. */
  predicate IsValueChars(s: string) {
    s == ""
    || (s[0] == '%' && |s| >= 3 && HexValue(s[1]) >= 0 && HexValue(s[2]) >= 0 && IsValueChars(s[3..]))
    || (IsAttrChar(s[0]) && IsValueChars(s[1..]))
  }

  lemma {:induction false} EncodeIsValueChars(bytes: Bytes)
    ensures IsValueChars(Encode(bytes))
    ensures forall c :: c in Encode(bytes) ==> c == '%' || IsPlain(c as int)
    decreases |bytes|
  {
    if bytes != [] {
      EncodeIsValueChars(bytes[1..]);
      var e := EncodeByte(bytes[0]);
      var s := Encode(bytes);
      assert s[|e|..] == Encode(bytes[1..]);
      if !IsPlain(bytes[0]) {
        HexDigit(bytes[0] / 16);
        HexDigit(bytes[0] % 16);
      }
    }
  }

  predicate IsKind(kind: string) {
    kind == "inline" || kind == "attachment"
  }

  lemma {:induction false} FallbackIsHarmless(filename: string)
    ensures FallbackOf(filename) != ""
    ensures forall c :: c in FallbackOf(filename) ==> IsPlain(c as int) || c == ' '
  {
  }

  /** Neither a quote nor an asterisk. */
  predicate Harmless(s: string) {
    forall k :: 0 <= k < |s| ==> s[k] != '"' && s[k] != '*'
  }

  lemma {:induction false} PlainIsHarmless(s: string)
    requires forall c :: c in s ==> IsPlain(c as int) || c == ' ' || c == '%'
    ensures Harmless(s)
  {
    forall k | 0 <= k < |s| ensures s[k] != '"' && s[k] != '*' {
      assert s[k] in s;
    }
  }

  lemma {:induction false} KindIsHarmless(kind: string)
    requires IsKind(kind)
    ensures Harmless(kind)
  {
  }

  lemma {:induction false} FixedParts(k: nat)
    ensures k < |OPENING| ==> OPENING[k] != '*' && (OPENING[k] == '"' <==> k == 11)
    ensures k < |CLOSING| ==> CLOSING[k] != '*' && (CLOSING[k] == '"' <==> k == 0)
    ensures k < |MARKER| ==> MARKER[k] != '"' && (MARKER[k] == '*' <==> k == 8)
    ensures |OPENING| == 12 && |CLOSING| == 3 && |MARKER| == 17
  {
  }

  /** Where a concatenation of six parts has its special characters, when only the
      second, the fourth and the fifth have any. */
  lemma {:induction false} SpecialCharacters(kind: string, f: string, e: string, k: nat)
    requires Harmless(kind) && Harmless(f) && Harmless(e)
    requires k < |kind + OPENING + f + CLOSING + MARKER + e|
    ensures var h := kind + OPENING + f + CLOSING + MARKER + e;
            var q := |kind| + 12 + |f|;
            && (h[k] == '"' <==> k == |kind| + 11 || k == q)
            && (h[k] == '*' <==> k == q + 11)
  {
    var a, q := |kind|, |kind| + 12 + |f|;
    FixedParts(if k < a then 0 else if k < q then k - a else if k < q + 3 then k - q else k - q - 3);
  }

  predicate MarkerAt(h: string, i: nat) {
    i + |MARKER| <= |h| && h[i..i + |MARKER|] == MARKER
  }

  lemma {:induction false} MarkerOnce(kind: string, filename: string, i: nat)
    requires IsKind(kind)
    ensures MarkerAt(Header(kind, filename), i) <==> i == |Prefix(kind, filename)|
    ensures i < |Header(kind, filename)| ==>
              (Header(kind, filename)[i] == '"' <==> i == |kind| + 11 || i == |kind| + 12 + |FallbackOf(filename)|)
  {
    var h := Header(kind, filename);
    var f, e := FallbackOf(filename), Encode(Utf8(filename));
    KindIsHarmless(kind);
    FallbackIsHarmless(filename);
    EncodeIsValueChars(Utf8(filename));
    PlainIsHarmless(f);
    PlainIsHarmless(e);
    FixedParts(8);
    if i < |h| {
      SpecialCharacters(kind, f, e, i);
    }
    if MarkerAt(h, i) {
      assert h[i + 8] == h[i..i + |MARKER|][8];
      SpecialCharacters(kind, f, e, i + 8);
    }
    assert h[|Prefix(kind, filename)|..|Prefix(kind, filename)| + |MARKER|] == MARKER;
  }

  /** The header can be split in one way only, and the value after the marker
      decodes to exactly the bytes of the file name.  It has exactly two quotes. */
  lemma {:induction false} HeaderReadsBack(kind: string, filename: string, i: nat)
    requires IsKind(kind)
    ensures var h := Header(kind, filename);
            && (MarkerAt(h, i) <==> i == |Prefix(kind, filename)|)
            && (MarkerAt(h, i) ==> Decode(h[i + |MARKER|..]) == Utf8(filename) && IsValueChars(h[i + |MARKER|..]))
            && (i < |h| ==> (h[i] == '"' <==> i == |kind| + 11 || i == |kind| + 12 + |FallbackOf(filename)|))
            && FallbackOf(filename) != ""
  {
    var h := Header(kind, filename);
    MarkerOnce(kind, filename, i);
    assert h[|Prefix(kind, filename)| + |MARKER|..] == Encode(Utf8(filename));
    DecodeEncode(Utf8(filename));
    EncodeIsValueChars(Utf8(filename));
    FallbackIsHarmless(filename);
  }

  /** Different file names have different values. */
  lemma {:induction false} ValueNamesTheFile(f: string, g: string)
    requires Encode(Utf8(f)) == Encode(Utf8(g))
    ensures f == g
  {
    DecodeEncode(Utf8(f));
    DecodeEncode(Utf8(g));
    Utf8Injective(f, g);
  }
}
