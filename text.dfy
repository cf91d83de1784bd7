/** The string routines of Go's standard library that the core relies on:
    decimal formatting and parsing (`strconv`), `strings.ToUpper`,
    `strings.Join`, the `string([]byte)` conversion and the textual form
    of a `time.Duration`. */
module Text {
  import opened Common

  predicate IsDigit(c: char) {
    '0' <= c <= '9'
  }

  function DigitChar(d: nat): (c: char)
    requires d < 10
    ensures IsDigit(c)
  {
    ('0' as int + d) as char
  }

  function DigitValue(c: char): (d: nat)
    requires IsDigit(c)
    ensures d < 10 && DigitChar(d) == c
  {
    c as int - '0' as int
  }

  predicate AllDigits(s: string) {
    forall i :: 0 <= i < |s| ==> IsDigit(s[i])
  }

  /** The value of a string of decimal digits, most significant first. */
  function DigitsValue(s: string): (v: nat)
    requires AllDigits(s)
  {
    if s == [] then 0
    else DigitsValue(s[..|s| - 1]) * 10 + DigitValue(s[|s| - 1])
  }

  /** `strconv.FormatUint(n, 10)`: decimal digits without leading zeros. */
  function NatToString(n: nat): (s: string)
    ensures |s| >= 1 && AllDigits(s)
    ensures DigitsValue(s) == n
    ensures s[0] == '0' ==> n == 0
  {
    if n < 10 then [DigitChar(n)]
    else
      var prefix := NatToString(n / 10);
      var s := prefix + [DigitChar(n % 10)];
      assert s[..|s| - 1] == prefix;
      s
  }

  /** `strconv.FormatInt(i, 10)` and the `%d` verb. */
  function IntToString(i: int): (s: string)
    ensures |s| >= 1
    ensures i >= 0 ==> s == NatToString(i)
    ensures i < 0 ==> s == "-" + NatToString(-i)
  {
    if i >= 0 then NatToString(i) else "-" + NatToString(-i)
  }

  /** The error text `strconv.ParseInt` reports for a malformed number
      (`strconv.Quote`'s escaping of unprintable characters aside). */
  function SyntaxError(s: string): Error {
    Other("strconv.ParseInt: parsing \"" + s + "\": invalid syntax")
  }

  function RangeError(s: string): Error {
    Other("strconv.ParseInt: parsing \"" + s + "\": value out of range")
  }

  /** `strconv.ParseInt(s, 10, 64)`: an optional `+` or `-` sign followed
      by one or more decimal digits, within the int64 range. */
  function ParseInt(s: string): (r: Result<int>)
    ensures r.Ok? ==> MinInt64 <= r.value <= MaxInt64
    ensures r.Ok? ==> s != [] && (s[0] == '-' || s[0] == '+' || IsDigit(s[0]))
    ensures r.Ok? && r.value < 0 ==> s[0] == '-'
    ensures AllDigits(s) && s != [] && DigitsValue(s) <= MaxInt64 ==> r == Ok(DigitsValue(s))
  {
    if s == [] then Err(SyntaxError(s))
    else
      var negative := s[0] == '-';
      var body := if s[0] == '-' || s[0] == '+' then s[1..] else s;
      if body == [] || !AllDigits(body) then Err(SyntaxError(s))
      else
        var magnitude := DigitsValue(body);
        if negative && magnitude <= -MinInt64 then Ok(-(magnitude as int))
        else if !negative && magnitude <= MaxInt64 then Ok(magnitude)
        else Err(RangeError(s))
  }

  /** The four-character, zero-padded decimal form of n < 10000. */
  function Pad4(n: nat): (s: string)
    requires n < 10000
    ensures |s| == 4 && AllDigits(s)
  {
    [DigitChar(n / 10 / 10 / 10), DigitChar(n / 10 / 10 % 10), DigitChar(n / 10 % 10), DigitChar(n % 10)]
  }

  lemma Pad4Value(n: nat)
    requires n < 10000
    ensures DigitsValue(Pad4(n)) == n
  {
    var s := Pad4(n);
    assert s[..1][..0] == [] && s[..2][..1] == s[..1] && s[..3][..2] == s[..2] && s[..3] == s[..|s| - 1];
    var r := n / 10;
    var q := r / 10;
    assert DigitsValue(s[..1]) == q / 10;
    assert DigitsValue(s[..2]) == q / 10 * 10 + q % 10 == q;
    assert DigitsValue(s[..3]) == q * 10 + r % 10 == r;
    assert DigitsValue(s) == r * 10 + n % 10 == n;
  }

  /** A four-digit zero-padded length header parses back to the length. */
  lemma ParsePad4(n: nat)
    requires n < 10000
    ensures ParseInt(Pad4(n)) == Ok(n)
  {
    Pad4Value(n);
  }

  function ToUpperChar(c: char): (u: char)
    ensures !('a' <= u <= 'z')
  {
    if 'a' <= c <= 'z' then (c as int - 32) as char else c
  }

  /** `strings.ToUpper`, on the ASCII letters. */
  function ToUpper(s: string): (u: string)
    ensures |u| == |s|
    ensures forall i :: 0 <= i < |s| ==> u[i] == ToUpperChar(s[i])
  {
    if s == [] then [] else [ToUpperChar(s[0])] + ToUpper(s[1..])
  }

  /** `strings.Join(parts, sep)`. */
  function Join(parts: seq<string>, sep: string): (s: string)
  {
    if parts == [] then ""
    else if |parts| == 1 then parts[0]
    else parts[0] + sep + Join(parts[1..], sep)
  }

  /** Extending the last part extends the joined string by the same text. */
  lemma {:induction false} JoinExtendLast(parts: seq<string>, last: string, x: string, sep: string)
    ensures Join(parts + [last + x], sep) == Join(parts + [last], sep) + x
  {
    if parts != [] {
      assert (parts + [last + x])[1..] == parts[1..] + [last + x];
      assert (parts + [last])[1..] == parts[1..] + [last];
      JoinExtendLast(parts[1..], last, x, sep);
    }
  }

  /** `string(b)` for a byte slice: one character per byte. */
  function BytesToString(b: seq<byte>): (s: string)
    ensures |s| == |b|
    ensures forall i :: 0 <= i < |b| ==> s[i] as int == b[i]
  {
    if b == [] then "" else [b[0] as char] + BytesToString(b[1..])
  }

  /** The digits of `frac` (width `prec`), right-aligned, with trailing
      zeros removed, as `time.Duration.String`'s `fmtFrac` prints them
      after a dot; empty when the fraction is zero. */
  function FracString(frac: nat, prec: nat): string
    decreases prec
  {
    if prec == 0 || frac == 0 then ""
    else if frac % 10 == 0 then FracString(frac / 10, prec - 1)
    else FracDigits(frac, prec)
  }

  function FracDigits(v: nat, width: nat): string
    decreases width
  {
    if width == 0 then "" else FracDigits(v / 10, width - 1) + [DigitChar(v % 10)]
  }

  function WithFrac(whole: nat, frac: nat, prec: nat): string {
    var f := FracString(frac, prec);
    NatToString(whole) + (if f == "" then "" else "." + f)
  }

  /** `time.Duration.String()`: "72h0m0s", "20m0s", "1.5s", "1.5ms", "0s". */
  function DurationString(d: int): (s: string)
    ensures |s| >= 2
  {
    var u: nat := if d < 0 then -d else d;
    var sign := if d < 0 then "-" else "";
    if u == 0 then "0s"
    else if u < Microsecond then sign + NatToString(u) + "ns"
    else if u < Millisecond then sign + WithFrac(u / Microsecond, u % Microsecond, 3) + "µs"
    else if u < Second then sign + WithFrac(u / Millisecond, u % Millisecond, 6) + "ms"
    else
      var secs := WithFrac(u / Second % 60, u % Second, 9) + "s";
      var total := u / Second;
      if total < 60 then sign + secs
      else if total < 3600 then sign + NatToString(total / 60 % 60) + "m" + secs
      else sign + NatToString(total / 3600) + "h" + NatToString(total / 60 % 60) + "m" + secs
  }

  /** `strings.Split(s, sep)` for a one-character separator. */
  function Split(s: string, sep: char): (parts: seq<string>)
    ensures |parts| >= 1
  {
    if s == [] then [""]
    else
      var rest := Split(s[1..], sep);
      if s[0] == sep then [""] + rest else [[s[0]] + rest[0]] + rest[1..]
  }

  lemma {:induction false} SplitPrefix(p: string, tail: string, sep: char)
    requires sep !in p
    ensures Split(p + tail, sep) == [p + Split(tail, sep)[0]] + Split(tail, sep)[1..]
  {
    if p != [] {
      assert (p + tail)[1..] == p[1..] + tail;
      SplitPrefix(p[1..], tail, sep);
      assert [p[0]] + (p[1..] + Split(tail, sep)[0]) == p + Split(tail, sep)[0];
    } else {
      var parts := Split(tail, sep);
      assert p + tail == tail && p + parts[0] == parts[0];
      assert [parts[0]] + parts[1..] == parts;
    }
  }

  /** Splitting a join on its separator gives back the parts, provided no
      part contains the separator. */
  lemma {:induction false} SplitJoin(parts: seq<string>, sep: char)
    requires |parts| >= 1
    requires forall i :: 0 <= i < |parts| ==> sep !in parts[i]
    ensures Split(Join(parts, [sep]), sep) == parts
  {
    if |parts| == 1 {
      SplitPrefix(parts[0], "", sep);
      assert parts[0] + "" == parts[0];
    } else {
      var rest := Join(parts[1..], [sep]);
      SplitJoin(parts[1..], sep);
      assert Join(parts, [sep]) == parts[0] + ([sep] + rest);
      SplitPrefix(parts[0], [sep] + rest, sep);
      assert ([sep] + rest)[1..] == rest;
      assert Split([sep] + rest, sep) == [""] + parts[1..];
      assert parts[0] + "" == parts[0];
      assert [parts[0]] + parts[1..] == parts;
    }
  }
}
