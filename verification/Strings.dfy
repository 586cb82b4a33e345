// Text: trimming, splitting, decimal numbers.
module Strings {
  import opened Wrappers

  const I32_MIN := -0x8000_0000
  const I32_MAX := 0x7fff_ffff

  predicate IsI32(v: int) {
    I32_MIN <= v <= I32_MAX
  }

  // ---------- white space ----------

  predicate IsWhite(c: char) {
    c == ' ' || '\t' <= c <= '\r' || c == '\U{85}' || c == '\U{a0}' || c == '\U{1680}' || '\U{2000}' <= c <= '\U{200a}'
    || c == '\U{2028}' || c == '\U{2029}' || c == '\U{202f}' || c == '\U{205f}' || c == '\U{3000}'
  }

  function TrimStart(s: string): string {
    if s != [] && IsWhite(s[0]) then TrimStart(s[1..]) else s
  }

  function TrimEnd(s: string): string {
    if s != [] && IsWhite(s[|s| - 1]) then TrimEnd(s[..|s| - 1]) else s
  }

  function Trim(s: string): string {
    TrimEnd(TrimStart(s))
  }

  /** No white space at either end. */
  predicate Trimmed(s: string) {
    s == [] || (!IsWhite(s[0]) && !IsWhite(s[|s| - 1]))
  }

  lemma TrimStartIs(s: string)
    ensures TrimStart(s) == [] || !IsWhite(TrimStart(s)[0])
    ensures forall c :: c in TrimStart(s) ==> c in s
  {
  }

  lemma TrimEndIs(s: string)
    requires s == [] || !IsWhite(s[0])
    ensures Trimmed(TrimEnd(s))
    ensures forall c :: c in TrimEnd(s) ==> c in s
  {
  }

  /** Trimming yields a trimmed piece of the text, and leaves a trimmed text alone. */
  lemma TrimIs(s: string)
    ensures Trimmed(Trim(s))
    ensures forall c :: c in Trim(s) ==> c in s
    ensures Trimmed(s) ==> Trim(s) == s
  {
    TrimStartIs(s);
    TrimEndIs(TrimStart(s));
  }

  // ---------- splitting ----------

  /** The pieces between separators; always at least one. */
  function Split(s: string, at: char): (r: seq<string>)
    ensures r != []
  {
    if s == [] then [[]]
    else
      var rest := Split(s[1..], at);
      if s[0] == at then [[]] + rest else [[s[0]] + rest[0]] + rest[1..]
  }

  /** Splits at the first separator, if there is one. */
  function SplitOnce(s: string, at: char): Option<(string, string)> {
    if s == [] then None
    else if s[0] == at then Some(([], s[1..]))
    else
      match SplitOnce(s[1..], at)
      case None => None
      case Some((a, b)) => Some(([s[0]] + a, b))
  }

  lemma {:induction false} SplitPieces(s: string, at: char)
    ensures forall p, c :: p in Split(s, at) && c in p ==> c != at && c in s
  {
    if s != [] {
      SplitPieces(s[1..], at);
      var rest := Split(s[1..], at);
      forall p, c | p in Split(s, at) && c in p
        ensures c != at && c in s
      {
        if p in rest {
        } else if s[0] != at && p == [s[0]] + rest[0] {
          assert rest[0] in rest;
        }
      }
    }
  }

  lemma {:induction false} SplitAfter(p: string, at: char, rest: string)
    requires at !in p
    ensures Split(p + [at] + rest, at) == [p] + Split(rest, at)
  {
    var s := p + [at] + rest;
    if p == [] {
      assert s[1..] == rest;
    } else {
      assert s[1..] == p[1..] + [at] + rest;
      assert p[0] in p && at !in p[1..];
      SplitAfter(p[1..], at, rest);
      assert [p[0]] + p[1..] == p;
    }
  }

  lemma {:induction false} SplitNone(p: string, at: char)
    requires at !in p
    ensures Split(p, at) == [p]
  {
    if p != [] {
      assert p[0] in p && at !in p[1..];
      SplitNone(p[1..], at);
      assert [p[0]] + p[1..] == p;
    }
  }

  lemma {:induction false} SplitOnceAt(a: string, at: char, b: string)
    requires at !in a
    ensures SplitOnce(a + [at] + b, at) == Some((a, b))
  {
    var s := a + [at] + b;
    if a == [] {
      assert s[1..] == b;
    } else {
      assert s[1..] == a[1..] + [at] + b;
      assert a[0] in a && at !in a[1..];
      SplitOnceAt(a[1..], at, b);
      assert [a[0]] + a[1..] == a;
    }
  }

  lemma {:induction false} SplitOncePieces(s: string, at: char)
    ensures var r := SplitOnce(s, at);
      r.Some? ==> forall c :: c in r.value.1 ==> c in s
  {
    if s != [] {
      SplitOncePieces(s[1..], at);
    }
  }

  // ---------- decimal numbers ----------

  predicate IsDigit(c: char) {
    '0' <= c <= '9'
  }

  function Digits(n: nat): string {
    if n < 10 then [('0' as int + n) as char] else Digits(n / 10) + [('0' as int + n % 10) as char]
  }

  function Decimal(v: int): string {
    if v < 0 then "-" + Digits(-v) else Digits(v)
  }

  function ParseDigits(s: string): Option<nat>
  {
    if s == [] then Some(0)
    else
      var last := s[|s| - 1];
      match ParseDigits(s[..|s| - 1])
      case None => None
      case Some(high) => if IsDigit(last) then Some(10 * high + (last as int - '0' as int)) else None
  }

  /** A 32-bit number: an optional sign and at least one digit. */
  function ParseI32(s: string): Option<int> {
    var signed := s != [] && (s[0] == '-' || s[0] == '+');
    var body := if signed then s[1..] else s;
    if body == [] then None
    else
      match ParseDigits(body)
      case None => None
      case Some(n) =>
        var v := (if signed && s[0] == '-' then -1 else 1) * n;
        if IsI32(v) then Some(v) else None
  }

  lemma {:induction false} DigitsParse(n: nat)
    ensures ParseDigits(Digits(n)) == Some(n)
    ensures Digits(n) != [] && forall c :: c in Digits(n) ==> IsDigit(c)
  {
    if n >= 10 {
      DigitsParse(n / 10);
      var s := Digits(n);
      assert s[..|s| - 1] == Digits(n / 10);
    } else {
      assert Digits(n)[..0] == [];
    }
  }

  /** A 32-bit number is read back as the number it prints. */
  lemma DecimalRoundTrip(v: int)
    requires IsI32(v)
    ensures ParseI32(Decimal(v)) == Some(v)
    ensures Decimal(v) != [] && Trimmed(Decimal(v))
    ensures forall c :: c in Decimal(v) ==> IsDigit(c) || c == '-'
  {
    hide Digits, ParseDigits;
    var d := Digits(if v < 0 then -v else v);
    DigitsParse(if v < 0 then -v else v);
    assert d[0] in d && d[|d| - 1] in d;
    if v < 0 {
      assert ("-" + d)[1..] == d;
    }
  }

  lemma ParsedIsI32(s: string)
    ensures ParseI32(s).Some? ==> IsI32(ParseI32(s).value)
  {
    hide ParseDigits;
  }
}
