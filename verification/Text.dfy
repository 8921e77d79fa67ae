/** Characters, white space, searching and UTF-8. */
module Text {
  import opened Schema

  /** The Unicode White_Space property. */
  predicate IsSpace(c: char) {
    var n := c as int;
    9 <= n <= 13 || n == 0x20 || n == 0x85 || n == 0xA0 || n == 0x1680 || 0x2000 <= n <= 0x200A
    || n == 0x2028 || n == 0x2029 || n == 0x202F || n == 0x205F || n == 0x3000
  }

  function TrimStart(s: string): (r: string)
    ensures |r| <= |s| && r == s[|s| - |r|..]
    ensures r != "" ==> !IsSpace(r[0])
  {
    if s != "" && IsSpace(s[0]) then TrimStart(s[1..]) else s
  }

  function TrimEnd(s: string): (r: string)
    ensures |r| <= |s| && r == s[..|r|]
    ensures r != "" ==> !IsSpace(r[|r| - 1])
  {
    if s != "" && IsSpace(s[|s| - 1]) then TrimEnd(s[..|s| - 1]) else s
  }

  function Trim(s: string): string {
    TrimEnd(TrimStart(s))
  }

  /** Neither end is white space. */
  predicate Tight(s: string) {
    s == "" || (!IsSpace(s[0]) && !IsSpace(s[|s| - 1]))
  }

  lemma {:induction false} TrimIsTight(s: string)
    ensures Tight(Trim(s))
  {
    var a := TrimStart(s);
    var b := TrimEnd(a);
    if b != "" {
      assert b[0] == a[0];
    }
  }

  lemma {:induction false} TightIsTrimmed(s: string)
    requires Tight(s)
    ensures Trim(s) == s
  {
  }

  predicate Blank(s: string) {
    forall k :: 0 <= k < |s| ==> IsSpace(s[k])
  }

  lemma {:induction false} TrimStartDropsBlank(s: string)
    ensures Blank(s[..|s| - |TrimStart(s)|])
    decreases |s|
  {
    if s != "" && IsSpace(s[0]) {
      TrimStartDropsBlank(s[1..]);
      assert s == [s[0]] + s[1..];
    }
  }

  lemma {:induction false} TrimEndDropsBlank(s: string)
    ensures Blank(s[|TrimEnd(s)|..])
    decreases |s|
  {
    if s != "" && IsSpace(s[|s| - 1]) {
      TrimEndDropsBlank(s[..|s| - 1]);
      assert s == s[..|s| - 1] + [s[|s| - 1]];
    }
  }

  /** Trimming takes white space off the ends and nothing else. */
  lemma {:induction false} TrimDropsBlank(s: string) returns (i: nat, j: nat)
    ensures i <= j <= |s| && Trim(s) == s[i..j]
    ensures Blank(s[..i]) && Blank(s[j..]) && Tight(s[i..j])
  {
    var a := TrimStart(s);
    var b := TrimEnd(a);
    i := |s| - |a|;
    j := i + |b|;
    TrimStartDropsBlank(s);
    TrimEndDropsBlank(a);
    TrimIsTight(s);
    assert s[j..] == a[|b|..] && s[i..j] == a[..|b|];
  }

  lemma {:induction false} TrimStartSnoc(s: string, c: char)
    requires IsSpace(c)
    ensures TrimStart(s + [c]) == if TrimStart(s) == "" then "" else TrimStart(s) + [c]
    decreases |s|
  {
    if s == "" {
      assert (s + [c])[1..] == "";
    } else if IsSpace(s[0]) {
      assert (s + [c])[1..] == s[1..] + [c];
      TrimStartSnoc(s[1..], c);
    }
  }

  lemma {:induction false} TrimSnoc(s: string, c: char)
    requires IsSpace(c)
    ensures Trim(s + [c]) == Trim(s)
  {
    TrimStartSnoc(s, c);
    var a := TrimStart(s);
    assert (a + [c])[..|a|] == a;
  }

  /** Where the character first occurs, or the length. */
  function IndexOf(s: string, c: char): (i: nat)
    ensures i <= |s|
    ensures i < |s| ==> s[i] == c
    ensures forall k :: 0 <= k < i ==> s[k] != c
  {
    if s == "" || s[0] == c then 0 else 1 + IndexOf(s[1..], c)
  }

  lemma {:induction false} IndexOfAppend(a: string, c: char, b: string)
    requires c !in a
    ensures IndexOf(a + [c] + b, c) == |a|
  {
    var s := a + [c] + b;
    assert s[|a|] == c;
    forall k | 0 <= k < |a| ensures s[k] != c {
      assert s[k] == a[k];
    }
  }

  lemma {:induction false} IndexOfAbsent(s: string, c: char)
    requires c !in s
    ensures IndexOf(s, c) == |s|
  {
  }

  lemma {:induction false} SplitsAt(s: string, i: nat)
    requires i < |s|
    ensures s == s[..i] + [s[i]] + s[i + 1..]
  {
  }

  // ----- UTF-8 -----

  /** A continuation byte. */
  function More(n: nat): byte {
    0x80 + n % 64
  }

  function EncodeChar(c: char): (r: Bytes)
    ensures 1 <= |r| <= 4
  {
    var n := c as int;
    var n1 := n / 64;
    var n2 := n1 / 64;
    var n3 := n2 / 64;
    if n < 0x80 then [n]
    else if n < 0x800 then [0xC0 + n1, More(n)]
    else if n < 0x10000 then [0xE0 + n2, More(n1), More(n)]
    else assert n3 <= 4; [0xF0 + n3, More(n2), More(n1), More(n)]
  }

  function Utf8(s: string): Bytes {
    if s == "" then [] else EncodeChar(s[0]) + Utf8(s[1..])
  }

  /** The characters are encoded one after the other. */
  lemma {:induction false} Utf8InOrder(s: string, t: string)
    ensures Utf8(s + t) == Utf8(s) + Utf8(t)
    decreases |s|
  {
    if s == "" {
      assert s + t == t;
    } else {
      var u := s + t;
      assert u[0] == s[0] && u[1..] == s[1..] + t;
      Utf8InOrder(s[1..], t);
      Reassociate(EncodeChar(s[0]), Utf8(s[1..]), Utf8(t));
    }
  }

  lemma {:induction false} Reassociate(a: Bytes, b: Bytes, c: Bytes)
    ensures a + (b + c) == (a + b) + c
  {
  }

  lemma {:induction false} AsciiIsItself(c: char)
    requires c as int < 0x80
    ensures Utf8([c]) == [c as int]
  {
    assert Utf8([c]) == EncodeChar(c) + Utf8([]);
  }

  /** The six bits a continuation byte carries. */
  function Six(b: Bytes, i: nat): int
    requires i < |b|
  {
    var x: int := b[i];
    x - 0x80
  }

  /** A character's code can be read back from the front of a byte string. */
  function DecodeFirst(b: Bytes): int
    requires b != []
  {
    var x: int := b[0];
    if x < 0xC0 || |b| < 2 then x
    else if x < 0xE0 || |b| < 3 then (x - 0xC0) * 64 + Six(b, 1)
    else if x < 0xF0 || |b| < 4 then ((x - 0xE0) * 64 + Six(b, 1)) * 64 + Six(b, 2)
    else (((x - 0xF0) * 64 + Six(b, 1)) * 64 + Six(b, 2)) * 64 + Six(b, 3)
  }

  lemma {:induction false} DecodeFirstOfEncode(c: char, rest: Bytes)
    ensures DecodeFirst(EncodeChar(c) + rest) == c as int
  {
    var e := EncodeChar(c);
    var b := e + rest;
    var n := c as int;
    var n1 := n / 64;
    var n2 := n1 / 64;
    assert b[0] == e[0];
    if n < 0x80 {
    } else if n < 0x800 {
      assert b[1] == e[1] == More(n);
    } else if n < 0x10000 {
      assert b[1] == e[1] == More(n1) && b[2] == e[2] == More(n);
    } else {
      assert b[1] == e[1] == More(n2) && b[2] == e[2] == More(n1) && b[3] == e[3] == More(n);
    }
  }

  /** UTF-8 loses nothing. */
  lemma {:induction false} Utf8Injective(s: string, t: string)
    requires Utf8(s) == Utf8(t)
    ensures s == t
    decreases |s|
  {
    if s != "" && t != "" {
      DecodeFirstOfEncode(s[0], Utf8(s[1..]));
      DecodeFirstOfEncode(t[0], Utf8(t[1..]));
      assert s[0] as int == t[0] as int;
      assert s[0] == t[0];
      var k := |EncodeChar(s[0])|;
      assert Utf8(s)[k..] == Utf8(s[1..]) && Utf8(t)[k..] == Utf8(t[1..]);
      Utf8Injective(s[1..], t[1..]);
      assert s == [s[0]] + s[1..] && t == [t[0]] + t[1..];
    }
  }
}
