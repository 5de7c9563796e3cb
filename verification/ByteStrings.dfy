/**
Byte strings and the canonical encodings used by the manifests and digests.

A Go string, or a UTF-8 encoded Python string, is a `string` with one character per byte.
*/
module ByteStrings {
  import opened Wrappers
  import opened Sequences

  // ----- the order of Go's `<` on strings and of Python's sort on encoded names

  predicate StrLeq(a: string, b: string) {
    if a == [] then true
    else if b == [] then false
    else if a[0] != b[0] then a[0] < b[0]
    else StrLeq(a[1..], b[1..])
  }

  lemma {:induction false} StrLeqTotal(a: string, b: string)
    ensures StrLeq(a, b) || StrLeq(b, a)
  {
    if a != [] && b != [] && a[0] == b[0] {
      StrLeqTotal(a[1..], b[1..]);
    }
  }

  lemma {:induction false} StrLeqTransitive(a: string, b: string, c: string)
    requires StrLeq(a, b) && StrLeq(b, c)
    ensures StrLeq(a, c)
  {
    if a != [] && b != [] && c != [] && a[0] == b[0] == c[0] {
      StrLeqTransitive(a[1..], b[1..], c[1..]);
    }
  }

  lemma {:induction false} StrLeqAntisymmetric(a: string, b: string)
    requires StrLeq(a, b) && StrLeq(b, a)
    ensures a == b
  {
    if a != [] && b != [] {
      StrLeqAntisymmetric(a[1..], b[1..]);
      assert a == [a[0]] + a[1..] && b == [b[0]] + b[1..];
    }
  }

  lemma StrLeqIsPreorder()
    ensures TotalPreorder(StrLeq)
  {
    forall a: string, b: string {
      StrLeqTotal(a, b);
    }
    forall a: string, b: string, c: string | StrLeq(a, b) && StrLeq(b, c)
      ensures StrLeq(a, c)
    {
      StrLeqTransitive(a, b, c);
    }
  }

  /** The key of a text that is its own key. */
  function Itself(s: string): string {
    s
  }

  // ----- newline-terminated lines

  predicate OneLine(s: string) {
    forall i | 0 <= i < |s| :: s[i] != '\n'
  }

  function JoinLines(lines: seq<string>): string {
    if lines == [] then "" else lines[0] + "\n" + JoinLines(lines[1..])
  }

  lemma {:induction false} JoinLinesAppend(a: seq<string>, b: seq<string>)
    ensures JoinLines(a + b) == JoinLines(a) + JoinLines(b)
  {
    if a == [] {
      assert a + b == b;
    } else {
      assert (a + b)[1..] == a[1..] + b;
      JoinLinesAppend(a[1..], b);
    }
  }

  /** The text up to the first newline, and the position of that newline. */
  function FirstNewline(s: string): (k: nat)
    ensures k <= |s| && OneLine(s[..k])
    ensures k < |s| ==> s[k] == '\n'
  {
    if s == [] || s[0] == '\n' then 0 else
      1 + FirstNewline(s[1..])
  }

  /** Splits a text whose every line ends in a newline; None when the last one does not. */
  function SplitLines(s: string): Option<seq<string>>
    decreases |s|
  {
    if s == [] then Some([]) else
      var k := FirstNewline(s);
      if k == |s| then None else
      match SplitLines(s[k + 1..])
      case None => None
      case Some(rest) => Some([s[..k]] + rest)
  }

  lemma {:induction false} FirstNewlineAfter(line: string, rest: string)
    requires OneLine(line)
    ensures FirstNewline(line + "\n" + rest) == |line|
  {
    if line != [] {
      assert (line + "\n" + rest)[1..] == line[1..] + "\n" + rest;
      FirstNewlineAfter(line[1..], rest);
    }
  }

  lemma SplitLinesCons(line: string, rest: string)
    requires OneLine(line)
    requires SplitLines(rest).Some?
    ensures SplitLines(line + "\n" + rest) == Some([line] + SplitLines(rest).value)
  {
    FirstNewlineAfter(line, rest);
    var s := line + "\n" + rest;
    assert s != [] && |line| < |s|;
    assert s[..|line|] == line && s[|line| + 1..] == rest;
  }

  lemma {:induction false} LinesRoundTrip(lines: seq<string>)
    requires forall l | l in lines :: OneLine(l)
    ensures SplitLines(JoinLines(lines)) == Some(lines)
  {
    if lines != [] {
      LinesRoundTrip(lines[1..]);
      SplitLinesCons(lines[0], JoinLines(lines[1..]));
      assert lines == [lines[0]] + lines[1..];
    }
  }

  // ----- decimal numerals, as strconv.FormatInt prints a non-negative number

  function Digit(d: nat): char
    requires d < 10
  {
    '0' + d as char
  }

  function Decimal(n: nat): (s: string)
    ensures s != []
  {
    if n < 10 then [Digit(n)] else Decimal(n / 10) + [Digit(n % 10)]
  }

  function DigitValue(c: char): Option<nat> {
    if '0' <= c <= '9' then Some(c as int - '0' as int) else None
  }

  function ParseDecimal(s: string): Option<nat>
    decreases |s|
  {
    if s == [] then None else
      match DigitValue(s[|s| - 1])
      case None => None
      case Some(d) =>
        if |s| == 1 then Some(d) else
        match ParseDecimal(s[..|s| - 1])
        case None => None
        case Some(n) => Some(10 * n + d)
  }

  lemma {:induction false} DecimalRoundTrip(n: nat)
    ensures ParseDecimal(Decimal(n)) == Some(n)
    ensures OneLine(Decimal(n))
  {
    if n >= 10 {
      DecimalRoundTrip(n / 10);
      var s := Decimal(n);
      assert s[..|s| - 1] == Decimal(n / 10);
    }
  }

  // ----- lower-case hexadecimal, as hex.EncodeToString prints a digest

  predicate LowerHexDigit(c: char) {
    '0' <= c <= '9' || 'a' <= c <= 'f'
  }

  predicate LowerHex(s: string) {
    forall i | 0 <= i < |s| :: LowerHexDigit(s[i])
  }

  predicate Bytes(s: string) {
    forall i | 0 <= i < |s| :: s[i] as int < 256
  }

  function HexDigit(d: nat): (c: char)
    requires d < 16
    ensures LowerHexDigit(c)
  {
    if d < 10 then '0' + d as char else 'a' + (d - 10) as char
  }

  function Hex(s: string): (r: string)
    requires Bytes(s)
    ensures |r| == 2 * |s| && LowerHex(r)
  {
    if s == [] then "" else
      [HexDigit(s[0] as int / 16), HexDigit(s[0] as int % 16)] + Hex(s[1..])
  }

  lemma {:induction false} HexInjective(a: string, b: string)
    requires Bytes(a) && Bytes(b)
    requires Hex(a) == Hex(b)
    ensures a == b
  {
    assert |a| == |b|;
    if a != [] {
      var x, y := Hex(a), Hex(b);
      assert x[0] == y[0] && x[1] == y[1];
      assert a[0] as int / 16 == b[0] as int / 16 && a[0] as int % 16 == b[0] as int % 16;
      assert x[2..] == Hex(a[1..]) && y[2..] == Hex(b[1..]);
      HexInjective(a[1..], b[1..]);
      assert a == [a[0]] + a[1..] && b == [b[0]] + b[1..];
    }
  }

  // ----- fixed-width big-endian integers, as struct.pack('>Q', n) writes them with width 8

  function Power256(width: nat): (p: nat)
    ensures p > 0
  {
    if width == 0 then 1 else 256 * Power256(width - 1)
  }

  function BigEndian(n: nat, width: nat): (s: string)
    ensures |s| == width
  {
    if width == 0 then "" else BigEndian(n / 256, width - 1) + [(n % 256) as char]
  }

  function FromBigEndian(s: string): nat {
    if s == [] then 0 else 256 * FromBigEndian(s[..|s| - 1]) + s[|s| - 1] as int
  }

  lemma {:induction false} BigEndianRoundTrip(n: nat, width: nat)
    requires n < Power256(width)
    ensures FromBigEndian(BigEndian(n, width)) == n
  {
    if width > 0 {
      var s := BigEndian(n, width);
      assert n / 256 < Power256(width - 1);
      assert s[..width - 1] == BigEndian(n / 256, width - 1);
      BigEndianRoundTrip(n / 256, width - 1);
    }
  }

  // ----- digests

  /**
  A digest function. SHA-256 enters only through the shape of its result, 32 bytes; `raw` is
  any function, cut to that shape.
  */
  datatype Hash = Hash(raw: string -> string) {
    function Of(s: string): (d: string)
      ensures |d| == 32 && Bytes(d)
    {
      if |raw(s)| == 32 && Bytes(raw(s)) then raw(s) else seq(32, _ => '\0')
    }
  }

  /** The digest function does not confuse these two strings. */
  predicate NoCollision(h: Hash, a: string, b: string) {
    h.Of(a) == h.Of(b) ==> a == b
  }
}
