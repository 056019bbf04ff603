/** The pieces of Go's strings and strconv packages that decide how header fields are read. */
module Text {

  predicate IsSpace(c: char) {
    || c in {'\t', '\n', '\U{0B}', '\U{0C}', '\r', ' ', '\U{85}', '\U{A0}', '\U{1680}'}
    || '\U{2000}' <= c <= '\U{200A}'
    || c in {'\U{2028}', '\U{2029}', '\U{202F}', '\U{205F}', '\U{3000}'}
  }

  function TrimLeft(s: string): string {
    if s != "" && IsSpace(s[0]) then TrimLeft(s[1..]) else s
  }

  function TrimRight(s: string): string {
    if s != "" && IsSpace(s[|s| - 1]) then TrimRight(s[..|s| - 1]) else s
  }

  function TrimSpace(s: string): string {
    TrimRight(TrimLeft(s))
  }

  /** strings.Split on a comma: never empty. */
  function Split(s: string): (parts: seq<string>)
    ensures |parts| >= 1
    ensures forall i :: 0 <= i < |parts| ==> ',' !in parts[i]
  {
    if s == "" then [""]
    else
      var rest := Split(s[1..]);
      if s[0] == ',' then [""] + rest else [[s[0]] + rest[0]] + rest[1..]
  }

  function Join(parts: seq<string>, sep: string): string {
    if parts == [] then ""
    else if |parts| == 1 then parts[0]
    else parts[0] + sep + Join(parts[1..], sep)
  }

  /** Splitting is a homomorphism from comma-joining to concatenation. */
  lemma {:induction false} SplitOfComma(a: string, b: string)
    ensures Split(a + "," + b) == Split(a) + Split(b)
  {
    var s := a + "," + b;
    if a == "" {
      assert s[0] == ',' && s[1..] == b;
    } else {
      var left, right := Split(a[1..]), Split(b);
      assert s[0] == a[0] && s[1..] == a[1..] + "," + b;
      assert Split(s[1..]) == left + right by {
        SplitOfComma(a[1..], b);
      }
      SplitStep(s, left, right);
      assert Split(s) == Split(a) + right;
    }
  }

  lemma SplitStep(s: string, left: seq<string>, right: seq<string>)
    requires s != "" && left != [] && Split(s[1..]) == left + right
    ensures Split(s) == (if s[0] == ',' then [""] + left else [[s[0]] + left[0]] + left[1..]) + right
  {
  }

  lemma SplitOfSpace(b: string)
    ensures Split(" " + b) == [" " + Split(b)[0]] + Split(b)[1..]
  {
    assert (" " + b)[1..] == b;
  }

  lemma TrimOfSpace(s: string)
    ensures TrimSpace(" " + s) == TrimSpace(s)
  {
    assert (" " + s)[1..] == s;
  }

  /** Text without a comma is one part. Together with SplitOfComma this says what Split is. */
  lemma {:induction false} SplitOfPart(s: string)
    requires ',' !in s
    ensures Split(s) == [s]
  {
    if s != "" {
      SplitOfPart(s[1..]);
      assert [s[1..]][1..] == [] && [s[0]] + s[1..] == s;
    }
  }

  predicate AllSpace(s: string) {
    forall i :: 0 <= i < |s| ==> IsSpace(s[i])
  }

  predicate NoSpaceAround(s: string) {
    s == "" || (!IsSpace(s[0]) && !IsSpace(s[|s| - 1]))
  }

  lemma {:induction false} TrimLeftMeans(s: string) returns (left: string)
    ensures s == left + TrimLeft(s) && AllSpace(left)
    ensures TrimLeft(s) == "" || !IsSpace(TrimLeft(s)[0])
  {
    hide IsSpace;
    if s != "" && IsSpace(s[0]) {
      left := TrimLeftMeans(s[1..]);
      left := [s[0]] + left;
    } else {
      left := "";
    }
  }

  lemma {:induction false} TrimRightMeans(s: string) returns (right: string)
    ensures s == TrimRight(s) + right && AllSpace(right)
    ensures TrimRight(s) == "" || !IsSpace(TrimRight(s)[|TrimRight(s)| - 1])
  {
    hide IsSpace;
    if s != "" && IsSpace(s[|s| - 1]) {
      right := TrimRightMeans(s[..|s| - 1]);
      right := right + [s[|s| - 1]];
    } else {
      right := "";
    }
  }

  /** Trimming takes the white space off both ends and nothing else. */
  lemma TrimMeans(s: string) returns (left: string, right: string)
    ensures s == left + TrimSpace(s) + right
    ensures AllSpace(left) && AllSpace(right) && NoSpaceAround(TrimSpace(s))
  {
    hide IsSpace;
    left := TrimLeftMeans(s);
    right := TrimRightMeans(TrimLeft(s));
    if TrimSpace(s) != "" {
      assert TrimSpace(s)[0] == TrimLeft(s)[0];
    }
  }

  /** The white space between header elements. */
  lemma BlanksAreSpaces()
    ensures IsSpace(' ') && IsSpace('\t')
    ensures forall c :: '!' <= c <= '~' ==> !IsSpace(c)
  {
  }

  const MIN_INT: int := -0x8000_0000_0000_0000
  const MAX_INT: int := 0x7FFF_FFFF_FFFF_FFFF
  const MAX_UINT: int := 0xFFFF_FFFF_FFFF_FFFF

  /** Two's-complement wrap-around of 64-bit arithmetic. */
  function Wrap(x: int): (r: int)
    ensures MIN_INT <= r <= MAX_INT
    ensures MIN_INT <= x <= MAX_INT ==> r == x
  {
    (x + 0x8000_0000_0000_0000) % 0x1_0000_0000_0000_0000 - 0x8000_0000_0000_0000
  }

  /** time.Time.Sub saturates instead of wrapping. */
  function Saturate(x: int): (r: int)
    ensures MIN_INT <= r <= MAX_INT
    ensures MIN_INT <= x <= MAX_INT ==> r == x
    ensures x >= 0 ==> r >= 0
  {
    if x < MIN_INT then MIN_INT else if x > MAX_INT then MAX_INT else x
  }

  /** Go's integer division truncates toward zero. */
  function Quotient(x: int, d: int): int
    requires d > 0
  {
    if x >= 0 then x / d else -((-x) / d)
  }

  /** Truncation loses less than one divisor, toward zero. */
  lemma QuotientTruncates(x: int, d: int)
    requires d > 0
    ensures x >= 0 ==> Quotient(x, d) * d <= x < Quotient(x, d) * d + d
    ensures x <= 0 ==> Quotient(x, d) * d - d < x <= Quotient(x, d) * d
  {
    assert x >= 0 ==> x == x / d * d + x % d;
    assert x < 0 ==> -x == -x / d * d + -x % d;
  }

  datatype Digits = Number(n: int) | BadSyntax | TooLarge

  /** strconv.ParseUint in base ten: stops at the first character that decides. */
  function ParseDigits(s: string, n: int): Digits
    decreases |s|
  {
    if s == "" then Number(n)
    else if !('0' <= s[0] <= '9') then BadSyntax
    else
      var m := n * 10 + (s[0] as int - '0' as int);
      if m > MAX_UINT then TooLarge else ParseDigits(s[1..], m)
  }

  /** strconv.Atoi: the value it returns also when it reports an error. */
  datatype Parsed = Parsed(value: int, ok: bool)

  function Atoi(s: string): (r: Parsed)
    ensures MIN_INT <= r.value <= MAX_INT
  {
    var negative := s != "" && s[0] == '-';
    var digits := if s != "" && (s[0] == '-' || s[0] == '+') then s[1..] else s;
    if digits == "" then Parsed(0, false)
    else
      match ParseDigits(digits, 0)
      case BadSyntax => Parsed(0, false)
      case TooLarge => Parsed(if negative then MIN_INT else MAX_INT, false)
      case Number(n) =>
        if !negative && n > MAX_INT then Parsed(MAX_INT, false)
        else if negative && n > -MIN_INT then Parsed(MIN_INT, false)
        else
          DigitsNonNegative(digits, 0);
          Parsed(if negative then -n else n, true)
  }

  lemma {:induction false} DigitsNonNegative(s: string, n: int)
    requires n >= 0
    ensures ParseDigits(s, n).Number? ==> ParseDigits(s, n).n >= n
    decreases |s|
  {
    if s != "" && '0' <= s[0] <= '9' {
      var m := n * 10 + (s[0] as int - '0' as int);
      if m <= MAX_UINT {
        DigitsNonNegative(s[1..], m);
      }
    }
  }

  predicate AllDigits(s: string) {
    forall i :: 0 <= i < |s| ==> '0' <= s[i] <= '9'
  }

  /** The number that decimal digits stand for. */
  function Decimal(s: string): (n: int)
    requires AllDigits(s)
    ensures n >= 0
  {
    if s == "" then 0 else 10 * Decimal(s[..|s| - 1]) + (s[|s| - 1] as int - '0' as int)
  }

  lemma {:induction false} OneMoreDigit(s: string, n: int, m: int, c: char)
    requires ParseDigits(s, n) == Number(m) && '0' <= c <= '9' && m * 10 + (c as int - '0' as int) <= MAX_UINT
    ensures ParseDigits(s + [c], n) == Number(m * 10 + (c as int - '0' as int))
    decreases |s|
  {
    if s == "" {
      assert (s + [c])[1..] == "";
    } else {
      assert (s + [c])[0] == s[0] && (s + [c])[1..] == s[1..] + [c];
      OneMoreDigit(s[1..], n * 10 + (s[0] as int - '0' as int), m, c);
    }
  }

  lemma {:induction false} DigitsAreDecimal(s: string)
    requires AllDigits(s) && Decimal(s) <= MAX_UINT
    ensures ParseDigits(s, 0) == Number(Decimal(s))
  {
    if s != "" {
      var n := |s| - 1;
      DigitsAreDecimal(s[..n]);
      OneMoreDigit(s[..n], 0, Decimal(s[..n]), s[n]);
      assert s[..n] + [s[n]] == s;
    }
  }

  /** Atoi reads decimal numbers with or without a sign. */
  lemma AtoiIsDecimal(s: string)
    requires s != "" && AllDigits(s) && Decimal(s) <= MAX_INT
    ensures Atoi(s) == Parsed(Decimal(s), true)
    ensures Atoi("-" + s) == Parsed(-Decimal(s), true)
    ensures Atoi("+" + s) == Parsed(Decimal(s), true)
  {
    hide ParseDigits;
    DigitsAreDecimal(s);
    assert ("-" + s)[1..] == s && ("+" + s)[1..] == s;
    assert '0' <= s[0] <= '9';
  }

  lemma {:induction false} OtherwiseBad(s: string, n: int)
    requires n >= 0 && !AllDigits(s)
    ensures !ParseDigits(s, n).Number?
    decreases |s|
  {
    if '0' <= s[0] <= '9' {
      assert !AllDigits(s[1..]) by {
        var i :| 0 <= i < |s| && !('0' <= s[i] <= '9');
        assert s[1..][i - 1] == s[i];
      }
      var m := n * 10 + (s[0] as int - '0' as int);
      if m <= MAX_UINT {
        OtherwiseBad(s[1..], m);
      }
    }
  }

  /** Anything but digits after an optional sign is an error. */
  lemma AtoiNeedsDigits(s: string)
    requires var digits := if s != "" && (s[0] == '-' || s[0] == '+') then s[1..] else s;
             digits == "" || !AllDigits(digits)
    ensures !Atoi(s).ok
  {
    var digits := if s != "" && (s[0] == '-' || s[0] == '+') then s[1..] else s;
    if digits != "" {
      OtherwiseBad(digits, 0);
    }
  }
}
