/** The few Python string operations the editor relies on, with Python's semantics:
    `str.split` and `str.join` on a one-character separator, `str(i)` and `int(s)` on
    integers, and `format(n, 'b')` for binary numerals. */
module PyStrings {

  datatype Option<+T> = None | Some(value: T)

  // ---------------------------------------------------------------------------
  // str.join and str.split with a one-character separator
  // ---------------------------------------------------------------------------

  /** `sep.join(parts)`: the parts with one separator between neighbours. */
  function Join(parts: seq<string>, sep: char): (s: string)
    ensures |s| >= |parts| - 1
    ensures |parts| >= 1 ==> parts[0] <= s
  {
    if |parts| == 0 then ""
    else if |parts| == 1 then parts[0]
    else parts[0] + [sep] + Join(parts[1..], sep)
  }

  /** `s.split(sep)`: the maximal separator-free pieces, always at least one (`"".split('.') == [""]`). */
  function Split(s: string, sep: char): (parts: seq<string>)
    ensures |parts| >= 1
    ensures forall i :: 0 <= i < |parts| ==> sep !in parts[i]
  {
    if s == [] then [""]
    else
      var rest := Split(s[1..], sep);
      if s[0] == sep then [""] + rest
      else [[s[0]] + rest[0]] + rest[1..]
  }

  /** Splitting and joining again gives back the string. */
  lemma {:induction false} JoinSplit(s: string, sep: char)
    ensures Join(Split(s, sep), sep) == s
  {
    if s != [] {
      var rest := Split(s[1..], sep);
      JoinSplit(s[1..], sep);
      if s[0] != sep && |rest| > 1 {
        assert Join(rest, sep) == rest[0] + [sep] + Join(rest[1..], sep);
      }
    }
  }

  /** A separator-free prefix glues onto the first piece. */
  lemma {:induction false} SplitPrefix(a: string, t: string, sep: char)
    requires sep !in a
    ensures Split(a + t, sep) == [a + Split(t, sep)[0]] + Split(t, sep)[1..]
  {
    if a == [] {
      assert a + t == t;
      assert a + Split(t, sep)[0] == Split(t, sep)[0];
      assert Split(t, sep) == [Split(t, sep)[0]] + Split(t, sep)[1..];
    } else {
      SplitPrefix(a[1..], t, sep);
      assert (a + t)[1..] == a[1..] + t;
      assert [a[0]] + (a[1..] + Split(t, sep)[0]) == a + Split(t, sep)[0];
    }
  }

  /** Joining separator-free pieces and splitting again gives back the pieces. */
  lemma {:induction false} SplitJoin(parts: seq<string>, sep: char)
    requires |parts| >= 1
    requires forall i :: 0 <= i < |parts| ==> sep !in parts[i]
    ensures Split(Join(parts, sep), sep) == parts
  {
    if |parts| == 1 {
      SplitPrefix(parts[0], "", sep);
      assert parts[0] + "" == parts[0];
    } else {
      var tail := Join(parts[1..], sep);
      SplitJoin(parts[1..], sep);
      SplitPrefix(parts[0], [sep] + tail, sep);
      assert parts[0] + [sep] + tail == parts[0] + ([sep] + tail);
      assert ([sep] + tail)[1..] == tail;
      assert Split([sep] + tail, sep) == [""] + Split(tail, sep);
      assert parts[0] + "" == parts[0];
      assert parts == [parts[0]] + parts[1..];
    }
  }

  // ---------------------------------------------------------------------------
  // Numerals: format(n, 'b'), str(i), int(s)
  // ---------------------------------------------------------------------------

  predicate IsDigit(c: char, base: nat)
  {
    '0' <= c && (c as int) - ('0' as int) < base
  }

  predicate AllDigits(s: string, base: nat)
  {
    forall i :: 0 <= i < |s| ==> IsDigit(s[i], base)
  }

  function DigitChar(d: nat): (c: char)
    requires d < 10
    ensures IsDigit(c, d + 1) && (c as int) - ('0' as int) == d
  {
    (('0' as int) + d) as char
  }

  /** The numeral of `n` in `base` without leading zeros (`format(n, 'b')` for base 2, `str(n)` for base 10). */
  function Digits(n: nat, base: nat): (s: string)
    requires 2 <= base <= 10
    ensures |s| >= 1 && AllDigits(s, base)
    ensures s[0] == '0' ==> n == 0
    decreases n
  {
    if n < base then [DigitChar(n)]
    else Digits(n / base, base) + [DigitChar(n % base)]
  }

  /** The value of a numeral in `base`; the inverse of `Digits`. */
  function ValueOf(s: string, base: nat): nat
    requires AllDigits(s, base)
  {
    if s == [] then 0
    else ValueOf(s[..|s| - 1], base) * base + ((s[|s| - 1] as int) - ('0' as int))
  }

  /** Appending a digit multiplies the value by the base and adds the digit. */
  lemma ValueOfSnoc(s: string, c: char, base: nat)
    requires AllDigits(s, base) && IsDigit(c, base)
    ensures AllDigits(s + [c], base)
    ensures ValueOf(s + [c], base) == ValueOf(s, base) * base + ((c as int) - ('0' as int))
  {
    assert (s + [c])[..|s + [c]| - 1] == s;
  }

  lemma DivMod(n: nat, base: nat)
    requires 2 <= base
    ensures n == (n / base) * base + n % base
    ensures n >= 1 ==> n / base < n
  {
  }

  lemma {:induction false} ValueOfDigits(n: nat, base: nat)
    requires 2 <= base <= 10
    ensures ValueOf(Digits(n, base), base) == n
  {
    if n >= base {
      var q, r := n / base, n % base;
      DivMod(n, base);
      ValueOfDigits(q, base);
      var prefix, c := Digits(q, base), DigitChar(r);
      assert Digits(n, base) == prefix + [c];
      ValueOfSnoc(prefix, c, base);
      assert ValueOf(prefix + [c], base) == q * base + r;
    }
  }

  /** `Digits` is injective: distinct numbers have distinct numerals. */
  lemma DigitsInjective(m: nat, n: nat, base: nat)
    requires 2 <= base <= 10
    requires Digits(m, base) == Digits(n, base)
    ensures m == n
  {
    ValueOfDigits(m, base);
    ValueOfDigits(n, base);
  }

  /** Python's `str(i)`. */
  function IntToString(i: int): (s: string)
    ensures |s| >= 1
    ensures forall k :: 0 <= k < |s| ==> IsDigit(s[k], 10) || (k == 0 && s[k] == '-')
  {
    if i < 0 then "-" + Digits(-i, 10) else Digits(i, 10)
  }

  /** Python's `int(s)` on a string: an optional sign and at least one decimal digit; anything
      else raises ValueError, here `None`. */
  function ParseInt(s: string): (r: Option<int>)
    ensures r.Some? <==> (|s| >= 1 && AllDigits(s, 10)) || (|s| >= 2 && s[0] in {'-', '+'} && AllDigits(s[1..], 10))
  {
    if |s| >= 1 && (s[0] == '-' || s[0] == '+') then
      var digits := s[1..];
      if |digits| >= 1 && AllDigits(digits, 10) then
        var v: int := ValueOf(digits, 10);
        Some(if s[0] == '-' then -v else v)
      else None
    else if |s| >= 1 && AllDigits(s, 10) then Some(ValueOf(s, 10))
    else None
  }

  /** `int(str(i)) == i`. */
  lemma ParseIntToString(i: int)
    ensures ParseInt(IntToString(i)) == Some(i)
  {
    if i < 0 {
      ValueOfDigits(-i, 10);
      assert ("-" + Digits(-i, 10))[1..] == Digits(-i, 10);
    } else {
      ValueOfDigits(i, 10);
    }
  }
}
