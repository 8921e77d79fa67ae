/** The stateless signed session cookie. */
module Session {
  import opened Wrappers
  import opened Schema
  import opened Text

  /** `mac` is the keyed digest of a message under the session key. */
  datatype Manager = Manager(mac: string -> Bytes, ttl: nat, secure: bool)

  /** The name of the cookie and the equals sign. */
  const PREFIX: string := "aardbin_session="
  const U64: nat := 0x1_0000_0000_0000_0000

  // ----- Numbers and hex -----

  function Digit(d: nat): char
    requires d < 10
  {
    ('0' as int + d) as char
  }

  /** A number printed in decimal. */
  function Decimal(n: nat): (r: string)
    ensures r != ""
  {
    if n < 10 then [Digit(n)] else Decimal(n / 10) + [Digit(n % 10)]
  }

  function DigitValue(c: char): int {
    if '0' <= c <= '9' then c as int - '0' as int else -1
  }

  /** The value of a string of digits, None when another character occurs. */
  function DigitsValue(s: string): Option<nat> {
    if s == "" then Some(0)
    else
      var front := DigitsValue(s[..|s| - 1]);
      var d := DigitValue(s[|s| - 1]);
      if front.Some? && d >= 0 then Some(front.value * 10 + d) else None
  }

  /** `str::parse::<u64>`: an optional plus sign, at least one digit, below 2^64. */
  function ParseU64(s: string): Option<nat> {
    var digits := if |s| > 1 && s[0] == '+' then s[1..] else s;
    if digits == "" || DigitsValue(digits).None? || DigitsValue(digits).value >= U64 then None
    else DigitsValue(digits)
  }

  const LOWER_HEX: string := "0123456789abcdef"

  function Hex(bytes: Bytes): string {
    if bytes == [] then "" else [LOWER_HEX[bytes[0] / 16], LOWER_HEX[bytes[0] % 16]] + Hex(bytes[1..])
  }

  // ----- Tokens -----

  function MacFor(m: Manager, expiry: nat): string {
    Hex(m.mac("v1." + Decimal(expiry)))
  }

  function Token(m: Manager, expiry: nat): string {
    "v1." + Decimal(expiry) + "." + MacFor(m, expiry)
  }

  function Issue(m: Manager, now: nat): string {
    Token(m, now + m.ttl)
  }

  /** Splits at the first two dots. */
  predicate Validate(m: Manager, value: string, now: nat) {
    var i := IndexOf(value, '.');
    i < |value| && value[..i] == "v1" &&
    var rest := value[i + 1..];
    var j := IndexOf(rest, '.');
    j < |rest| &&
    var expiry := ParseU64(rest[..j]);
    expiry.Some? && expiry.value > now && rest[j + 1..] == MacFor(m, expiry.value)
  }

  // ----- Cookies -----

  function CookiePair(m: Manager, now: nat): string {
    PREFIX + Issue(m, now)
  }

  /** The pieces between semicolons. */
  function Split(s: string): (r: seq<string>)
    ensures r != []
  {
    var i := IndexOf(s, ';');
    if i == |s| then [s] else [s[..i]] + Split(s[i + 1..])
  }

  predicate IsSession(pair: string) {
    PREFIX <= Trim(pair)
  }

  function ValueOf(pair: string): string
    requires IsSession(pair)
  {
    Trim(pair)[|PREFIX|..]
  }

  /** The verdict on the first session cookie among the pairs; false without one. */
  predicate FirstVerdict(m: Manager, pairs: seq<string>, now: nat) {
    pairs != [] &&
    if IsSession(pairs[0]) then Validate(m, ValueOf(pairs[0]), now) else FirstVerdict(m, pairs[1..], now)
  }

  method ExtractValidSession(header: Option<string>, m: Manager, now: nat) returns (valid: bool)
    ensures valid <==> header.Some? && FirstVerdict(m, Split(header.value), now)
  {
    if header.None? {
      return false;
    }
    var pairs := Split(header.value);
    for i := 0 to |pairs|
      invariant forall k :: 0 <= k < i ==> !IsSession(pairs[k])
    {
      if IsSession(pairs[i]) {
        FirstSessionDecides(m, pairs, i, now);
        return Validate(m, ValueOf(pairs[i]), now);
      }
    }
    NoSessionNoVerdict(m, pairs, now);
    return false;
  }

  // ----- Round trips -----

  predicate AllDigits(s: string) {
    forall k :: 0 <= k < |s| ==> '0' <= s[k] <= '9'
  }

  lemma {:induction false} DecimalDigits(n: nat)
    ensures AllDigits(Decimal(n)) && DigitsValue(Decimal(n)) == Some(n)
  {
    if n >= 10 {
      DecimalDigits(n / 10);
      assert Decimal(n)[..|Decimal(n)| - 1] == Decimal(n / 10);
    } else {
      assert [Digit(n)][..0] == "";
    }
  }

  lemma {:induction false} NoDot(s: string)
    requires AllDigits(s)
    ensures '.' !in s
  {
  }

  lemma {:induction false} ParseDecimal(n: nat)
    requires n < U64
    ensures ParseU64(Decimal(n)) == Some(n)
  {
    DecimalDigits(n);
  }

  /** A decimal print has no leading zero, so a number has only this one. */
  lemma {:induction false} DecimalIsShortest(n: nat)
    ensures Decimal(n)[0] == '0' ==> n == 0 && Decimal(n) == "0"
  {
    if n >= 10 {
      DecimalIsShortest(n / 10);
      assert Decimal(n)[0] == Decimal(n / 10)[0];
    }
  }

  predicate Zeros(s: string) {
    forall k :: 0 <= k < |s| ==> s[k] == '0'
  }

  /** One digit more. */
  lemma {:induction false} PrintNext(zeros: string, v: nat, c: char)
    requires Zeros(zeros) && '0' <= c <= '9'
    ensures v > 0 ==> zeros + Decimal(v) + [c] == zeros + Decimal(10 * v + DigitValue(c))
    ensures v == 0 ==> zeros + Decimal(v) + [c] == (zeros + "0") + Decimal(DigitValue(c)) && Zeros(zeros + "0")
  {
    assert Digit(DigitValue(c)) == c;
    if v == 0 {
      assert Decimal(v) == "0" && Decimal(DigitValue(c)) == [c];
    } else {
      assert Decimal(10 * v + DigitValue(c)) == Decimal(v) + [c];
    }
  }

  /** A string of digits is zeros and then the print of its value. */
  lemma {:induction false} DigitsAreZerosAndPrint(s: string) returns (zeros: string)
    requires s != "" && DigitsValue(s).Some?
    ensures Zeros(zeros) && s == zeros + Decimal(DigitsValue(s).value)
    decreases |s|
  {
    var front, c := s[..|s| - 1], s[|s| - 1];
    assert s == front + [c];
    zeros := "";
    if front == "" {
      assert Digit(DigitValue(c)) == c;
    } else {
      var z := DigitsAreZerosAndPrint(front);
      PrintNext(z, DigitsValue(front).value, c);
      zeros := if DigitsValue(front).value == 0 then z + "0" else z;
    }
  }

  lemma {:induction false} ValueNext(s: string, d: nat)
    requires DigitsValue(s).Some? && d < 10
    ensures DigitsValue(s + [Digit(d)]) == Some(DigitsValue(s).value * 10 + d)
  {
    var t := s + [Digit(d)];
    assert t[..|t| - 1] == s && t[|t| - 1] == Digit(d);
    assert DigitValue(Digit(d)) == d;
  }

  lemma {:induction false} ZerosAddNothing(zeros: string, n: nat)
    requires Zeros(zeros)
    ensures DigitsValue(zeros + Decimal(n)) == Some(n)
    decreases n
  {
    if n >= 10 {
      ZerosAddNothing(zeros, n / 10);
      ValueNext(zeros + Decimal(n / 10), n % 10);
      Regroup(zeros, Decimal(n / 10), [Digit(n % 10)]);
    } else {
      ZerosAreZero(zeros);
      ValueNext(zeros, n);
    }
  }

  lemma {:induction false} Regroup(a: string, b: string, c: string)
    ensures a + b + c == a + (b + c)
  {
  }

  lemma {:induction false} DigitsFirst(zeros: string, n: nat)
    requires Zeros(zeros)
    ensures zeros + Decimal(n) != "" && (zeros + Decimal(n))[0] != '+'
  {
    DecimalDigits(n);
    assert (zeros + Decimal(n))[0] == if zeros == "" then Decimal(n)[0] else zeros[0];
  }

  lemma {:induction false} ZerosAreZero(zeros: string)
    requires Zeros(zeros)
    ensures DigitsValue(zeros) == Some(0)
    decreases |zeros|
  {
    if zeros != "" {
      ZerosAreZero(zeros[..|zeros| - 1]);
    }
  }

  lemma {:induction false} SignedDigitsParse(digits: string, n: nat)
    requires digits != "" && digits[0] != '+' && DigitsValue(digits) == Some(n) && n < U64
    ensures ParseU64(digits) == Some(n) && ParseU64("+" + digits) == Some(n)
  {
    assert ("+" + digits)[1..] == digits;
  }

  lemma {:induction false} ParsedDigits(s: string) returns (digits: string)
    requires ParseU64(s).Some?
    ensures digits != "" && (s == digits || s == "+" + digits)
    ensures DigitsValue(digits) == ParseU64(s) && ParseU64(s).value < U64
  {
    digits := if |s| > 1 && s[0] == '+' then s[1..] else s;
  }

  /** The string is a print of the number, after an optional plus sign and any number of zeros. */
  predicate Prints(s: string, zeros: string, n: nat) {
    Zeros(zeros) && (s == zeros + Decimal(n) || s == "+" + (zeros + Decimal(n)))
  }

  /** Exactly the prints of a number below 2^64 parse, to that number. */
  lemma {:induction false} ParseExactly(s: string, n: nat)
    ensures ParseU64(s) == Some(n) <==> n < 0x1_0000_0000_0000_0000 && exists zeros :: Prints(s, zeros, n)
  {
    if ParseU64(s) == Some(n) {
      var digits := ParsedDigits(s);
      var zeros := DigitsAreZerosAndPrint(digits);
      assert Prints(s, zeros, n);
    }
    if n < U64 && exists zeros :: Prints(s, zeros, n) {
      var zeros :| Prints(s, zeros, n);
      ZerosAddNothing(zeros, n);
      DigitsFirst(zeros, n);
      SignedDigitsParse(zeros + Decimal(n), n);
    }
  }

  predicate IsHexChar(c: char) {
    '0' <= c <= '9' || 'a' <= c <= 'f'
  }

  function HexDigitValue(c: char): int
    requires IsHexChar(c)
  {
    if c <= '9' then c as int - '0' as int else c as int - 'a' as int + 10
  }

  lemma {:induction false} HexDigit(d: nat)
    requires d < 16
    ensures IsHexChar(LOWER_HEX[d]) && HexDigitValue(LOWER_HEX[d]) == d
  {
  }

  lemma {:induction false} HexAt(bytes: Bytes, i: nat)
    requires i < |bytes|
    ensures |Hex(bytes)| == 2 * |bytes|
    ensures Hex(bytes)[2 * i] == LOWER_HEX[bytes[i] / 16] && Hex(bytes)[2 * i + 1] == LOWER_HEX[bytes[i] % 16]
    decreases |bytes|
  {
    if i > 0 {
      HexAt(bytes[1..], i - 1);
      assert Hex(bytes)[2 * i] == Hex(bytes[1..])[2 * (i - 1)];
    } else if |bytes| > 1 {
      HexAt(bytes[1..], 0);
    }
  }

  /** Byte `i` has two lower-case digits, the high half first, and they read back as the byte. */
  lemma {:induction false} HexDigits(bytes: Bytes, i: nat)
    requires i < |bytes|
    ensures |Hex(bytes)| == 2 * |bytes|
    ensures var high, low := Hex(bytes)[2 * i], Hex(bytes)[2 * i + 1];
            IsHexChar(high) && IsHexChar(low) && HexDigitValue(high) * 16 + HexDigitValue(low) == bytes[i]
  {
    HexAt(bytes, i);
    HexDigit(bytes[i] / 16);
    HexDigit(bytes[i] % 16);
  }

  lemma {:induction false} HexInjective(a: Bytes, b: Bytes)
    requires Hex(a) == Hex(b)
    ensures a == b
  {
    HexLength(a);
    HexLength(b);
    forall i | 0 <= i < |a| ensures a[i] == b[i] {
      HexDigits(a, i);
      HexDigits(b, i);
    }
  }

  lemma {:induction false} HexLength(bytes: Bytes)
    ensures |Hex(bytes)| == 2 * |bytes|
  {
    if bytes != [] {
      HexAt(bytes, 0);
    }
  }

  lemma {:induction false} HexIsSolid(bytes: Bytes)
    ensures Solid(Hex(bytes))
  {
    HexLength(bytes);
    forall k | 0 <= k < |Hex(bytes)| ensures IsHexChar(Hex(bytes)[k]) {
      HexDigits(bytes, k / 2);
      assert k == 2 * (k / 2) || k == 2 * (k / 2) + 1;
    }
  }

  lemma {:induction false} SplitsAsBuilt(m: Manager, number: string, expiry: nat, now: nat)
    requires '.' !in number
    ensures var value := "v1." + number + "." + MacFor(m, expiry);
            Validate(m, value, now) <==>
              ParseU64(number).Some? && ParseU64(number).value > now
              && MacFor(m, expiry) == MacFor(m, ParseU64(number).value)
  {
    var mac := MacFor(m, expiry);
    var rest := number + "." + mac;
    var value := "v1." + number + "." + mac;
    assert value == "v1" + ['.'] + rest;
    IndexOfAppend("v1", '.', rest);
    assert value[..2] == "v1" && value[3..] == rest;
    assert rest == number + ['.'] + mac;
    IndexOfAppend(number, '.', mac);
    assert rest[..|number|] == number && rest[|number| + 1..] == mac;
  }

  /** A token validates exactly until its expiry. */
  lemma {:induction false} TokenRoundTrip(m: Manager, issued: nat, t: nat)
    requires issued + m.ttl < U64
    ensures Validate(m, Issue(m, issued), t) <==> t < issued + m.ttl
  {
    var e := issued + m.ttl;
    DecimalDigits(e);
    ParseDecimal(e);
    NoDot(Decimal(e));
    SplitsAsBuilt(m, Decimal(e), e, t);
  }

  /** A value with an unexpired number and the digest of that number's canonical print. */
  predicate Signed(m: Manager, value: string, now: nat, number: string, expiry: nat) {
    '.' !in number && ParseU64(number) == Some(expiry) && expiry > now
    && value == "v1." + number + "." + Hex(m.mac("v1." + Decimal(expiry)))
  }

  lemma {:induction false} Rejoin(value: string, a: string, b: string, c: string)
    requires value == a + ['.'] + (b + ['.'] + c)
    ensures a == "v1" ==> value == "v1." + b + "." + c
  {
    assert a + ['.'] + (b + ['.'] + c) == (a + ['.']) + b + ['.'] + c;
    assert "v1" + ['.'] == "v1.";
  }

  lemma {:induction false} ValidIsSigned(m: Manager, value: string, now: nat) returns (number: string, expiry: nat)
    requires Validate(m, value, now)
    ensures Signed(m, value, now, number, expiry)
  {
    var i := IndexOf(value, '.');
    var rest := value[i + 1..];
    var j := IndexOf(rest, '.');
    number, expiry := rest[..j], ParseU64(rest[..j]).value;
    var mac := rest[j + 1..];
    assert value == value[..i] + ['.'] + rest;
    assert rest == number + ['.'] + mac;
    Rejoin(value, value[..i], number, mac);
  }

  /** Exactly the signed, unexpired values validate; the number may be printed in any
      way that parses, such as with leading zeros. */
  lemma {:induction false} ValidateExactly(m: Manager, value: string, now: nat)
    ensures Validate(m, value, now) <==> exists number, expiry: nat :: Signed(m, value, now, number, expiry)
  {
    if Validate(m, value, now) {
      var number, expiry := ValidIsSigned(m, value, now);
    }
    if exists number, expiry: nat :: Signed(m, value, now, number, expiry) {
      var number, expiry: nat :| Signed(m, value, now, number, expiry);
      SplitsAsBuilt(m, number, expiry, now);
    }
  }

  /** The digest of one expiry does not carry another, unless the two digests are the same. */
  lemma {:induction false} ForgedExpiryFails(m: Manager, e: nat, forged: nat, now: nat)
    requires forged < 0x1_0000_0000_0000_0000
    requires m.mac("v1." + Decimal(forged)) != m.mac("v1." + Decimal(e))
    ensures !Validate(m, "v1." + Decimal(forged) + "." + Hex(m.mac("v1." + Decimal(e))), now)
  {
    DecimalDigits(forged);
    ParseDecimal(forged);
    SplitsAsBuilt(m, Decimal(forged), e, now);
    if Hex(m.mac("v1." + Decimal(forged))) == Hex(m.mac("v1." + Decimal(e))) {
      HexInjective(m.mac("v1." + Decimal(forged)), m.mac("v1." + Decimal(e)));
    }
  }

  // ----- The cookie among others -----

  /** Neither white space nor a semicolon. */
  predicate Solid(s: string) {
    forall k :: 0 <= k < |s| ==> !IsSpace(s[k]) && s[k] != ';'
  }

  lemma {:induction false} SolidTogether(a: string, b: string)
    requires Solid(a) && Solid(b)
    ensures Solid(a + b)
  {
  }

  lemma {:induction false} PairIsSolid(m: Manager, now: nat)
    ensures Solid(CookiePair(m, now)) && CookiePair(m, now) != ""
  {
    var e := now + m.ttl;
    DecimalDigits(e);
    HexIsSolid(m.mac("v1." + Decimal(e)));
    SolidTogether("v1.", Decimal(e));
    SolidTogether("v1." + Decimal(e), ".");
    SolidTogether("v1." + Decimal(e) + ".", MacFor(m, e));
    SolidTogether(PREFIX, Token(m, e));
  }

  lemma {:induction false} FirstPiece(piece: string, tail: string)
    requires ';' !in piece && (tail == "" || tail[0] == ';')
    ensures Split(piece + tail)[0] == piece
  {
    if tail == "" {
      assert piece + tail == piece;
      IndexOfAbsent(piece, ';');
    } else {
      assert piece + tail == piece + [';'] + tail[1..];
      IndexOfAppend(piece, ';', tail[1..]);
    }
  }

  lemma {:induction false} PairComesFirst(m: Manager, now: nat, attributes: string, age: string)
    requires attributes != "" && attributes[0] == ';'
    ensures Split(CookiePair(m, now) + attributes + age)[0] == CookiePair(m, now)
  {
    PairIsSolid(m, now);
    FirstPiece(CookiePair(m, now), attributes + age);
    Regroup(CookiePair(m, now), attributes, age);
  }

  method IssueSetCookie(m: Manager, now: nat) returns (s: string)
    ensures s == "aardbin_session=" + Issue(m, now) + "; Path=/; HttpOnly; SameSite=Lax; Max-Age=" + Decimal(m.ttl)
                 + (if m.secure then "; Secure" else "")
    ensures Split(s)[0] == CookiePair(m, now)
  {
    s := PREFIX + Issue(m, now) + "; Path=/; HttpOnly; SameSite=Lax; Max-Age=" + Decimal(m.ttl);
    PairComesFirst(m, now, "; Path=/; HttpOnly; SameSite=Lax; Max-Age=", Decimal(m.ttl));
    if m.secure {
      PairComesFirst(m, now, "; Path=/; HttpOnly; SameSite=Lax; Max-Age=", Decimal(m.ttl) + "; Secure");
      Regroup(CookiePair(m, now) + "; Path=/; HttpOnly; SameSite=Lax; Max-Age=", Decimal(m.ttl), "; Secure");
      s := s + "; Secure";
    }
  }

  lemma {:induction false} TrimPadded(pad: string, s: string)
    requires Blank(pad) && Tight(s) && s != ""
    ensures Trim(pad + s) == s
    decreases |pad|
  {
    if pad == "" {
      assert pad + s == s;
      TightIsTrimmed(s);
    } else {
      assert (pad + s)[0] == pad[0] && (pad + s)[1..] == pad[1..] + s;
      TrimPadded(pad[1..], s);
    }
  }

  /** A Cookie header: the other cookies, each followed by a semicolon, then the rest. */
  function Cookies(others: seq<string>, rest: string): string {
    if others == [] then rest else others[0] + [';'] + Cookies(others[1..], rest)
  }

  /** The pieces with a semicolon between each and the next. */
  function Joined(pieces: seq<string>): string
    requires pieces != []
  {
    Cookies(pieces[..|pieces| - 1], pieces[|pieces| - 1])
  }

  lemma {:induction false} JoinedOne(piece: string)
    ensures Joined([piece]) == piece
  {
    assert [piece][..0] == [];
  }

  lemma {:induction false} JoinedNext(first: string, pieces: seq<string>)
    requires pieces != []
    ensures Joined([first] + pieces) == first + [';'] + Joined(pieces)
  {
    var n := |pieces| - 1;
    var others := ([first] + pieces)[..n + 1];
    assert others == [first] + pieces[..n];
    assert others[0] == first && others[1..] == pieces[..n];
  }

  /** Joining the pieces gives the string back. */
  lemma {:induction false} SplitRejoins(s: string)
    ensures Joined(Split(s)) == s
    decreases |s|
  {
    var i := IndexOf(s, ';');
    if i < |s| {
      var rest := Split(s[i + 1..]);
      SplitRejoins(s[i + 1..]);
      JoinedNext(s[..i], rest);
      assert Split(s) == [s[..i]] + rest;
      SplitsAt(s, i);
    } else {
      JoinedOne(s);
    }
  }

  lemma {:induction false} PiecesHaveNoSemicolon(s: string)
    ensures forall piece :: piece in Split(s) ==> ';' !in piece
    decreases |s|
  {
    var i := IndexOf(s, ';');
    if i < |s| {
      PiecesHaveNoSemicolon(s[i + 1..]);
      assert Split(s) == [s[..i]] + Split(s[i + 1..]);
    } else {
      assert Split(s) == [s];
    }
  }

  /** A session cookie is one with that name, and its value is what follows the equals sign. */
  lemma {:induction false} SessionPair(pair: string)
    ensures IsSession(pair) <==> |Trim(pair)| >= 16 && Trim(pair)[..16] == "aardbin_session="
    ensures IsSession(pair) ==> Trim(pair) == "aardbin_session=" + ValueOf(pair)
  {
    assert PREFIX == "aardbin_session=" && |PREFIX| == 16;
    if IsSession(pair) {
      assert Trim(pair)[..16] == PREFIX;
    }
  }

  /** The first session cookie decides, whatever it holds and whatever follows. */
  lemma {:induction false} FirstSessionDecides(m: Manager, pairs: seq<string>, i: nat, now: nat)
    requires i < |pairs| && IsSession(pairs[i])
    requires forall k :: 0 <= k < i ==> !IsSession(pairs[k])
    ensures FirstVerdict(m, pairs, now) <==> Validate(m, ValueOf(pairs[i]), now)
    decreases i
  {
    if i > 0 {
      FirstSessionDecides(m, pairs[1..], i - 1, now);
    }
  }

  lemma {:induction false} NoSessionNoVerdict(m: Manager, pairs: seq<string>, now: nat)
    requires forall k :: 0 <= k < |pairs| ==> !IsSession(pairs[k])
    ensures !FirstVerdict(m, pairs, now)
    decreases |pairs|
  {
    if pairs != [] {
      NoSessionNoVerdict(m, pairs[1..], now);
    }
  }

  lemma {:induction false} OthersAreSkipped(m: Manager, others: seq<string>, rest: string, now: nat)
    requires forall o :: o in others ==> ';' !in o && !IsSession(o)
    ensures FirstVerdict(m, Split(Cookies(others, rest)), now) <==> FirstVerdict(m, Split(rest), now)
    decreases |others|
  {
    if others != [] {
      assert others[0] in others;
      IndexOfAppend(others[0], ';', Cookies(others[1..], rest));
      var header := Cookies(others, rest);
      assert header[..|others[0]|] == others[0] && header[|others[0]| + 1..] == Cookies(others[1..], rest);
      OthersAreSkipped(m, others[1..], rest, now);
    }
  }

  lemma {:induction false} PrefixedReads(pair: string, value: string)
    requires pair == PREFIX + value
    ensures PREFIX <= pair && pair[|PREFIX|..] == value
  {
    assert pair[..|PREFIX|] == PREFIX;
  }

  lemma {:induction false} NoSemicolon(pad: string, pair: string)
    requires Blank(pad) && Solid(pair)
    ensures ';' !in pad + pair
  {
    forall k | 0 <= k < |pad| ensures pad[k] != ';' {
      assert IsSpace(pad[k]);
    }
  }

  lemma {:induction false} PaddedPair(m: Manager, issued: nat, pad: string)
    requires Blank(pad)
    ensures var piece := pad + CookiePair(m, issued);
            ';' !in piece && IsSession(piece) && ValueOf(piece) == Issue(m, issued)
  {
    var pair := CookiePair(m, issued);
    PairIsSolid(m, issued);
    NoSemicolon(pad, pair);
    TrimPadded(pad, pair);
    PrefixedReads(pair, Issue(m, issued));
  }

  /** An issued cookie, sent after any other cookies that are not session cookies
      and before anything, is found and gets its own verdict. */
  lemma {:induction false} CookieRoundTrip(m: Manager, issued: nat, t: nat,
                                           others: seq<string>, pad: string, tail: string)
    requires issued + m.ttl < U64 && Blank(pad)
    requires forall o :: o in others ==> ';' !in o && !IsSession(o)
    requires tail == "" || tail[0] == ';'
    ensures FirstVerdict(m, Split(Cookies(others, pad + CookiePair(m, issued) + tail)), t) <==> t < issued + m.ttl
  {
    OthersAreSkipped(m, others, pad + CookiePair(m, issued) + tail, t);
    PaddedPair(m, issued, pad);
    FirstPiece(pad + CookiePair(m, issued), tail);
    TokenRoundTrip(m, issued, t);
  }
}
