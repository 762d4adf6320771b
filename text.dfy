/** The two pieces of Go's standard library the report code calls on strings:
    `strings.Join` and `strconv.Itoa`. Beside each sits its inverse (`Split`
    on a one-character separator, and a decimal parser in the manner of
    `strconv.Atoi`) so that the round trips can be proved. */
module Text {

  datatype Option<T> = None | Some(value: T)

  /** `strings.Join(elems, sep)`: the elements with `sep` between neighbours;
      the empty list joins to the empty string. */
  function Join(elems: seq<string>, sep: string): (r: string)
    ensures |elems| == 0 ==> r == ""
    ensures |elems| == 1 ==> r == elems[0]
    ensures |elems| >= 1 ==> elems[0] <= r
  {
    if |elems| == 0 then ""
    else if |elems| == 1 then elems[0]
    else
      var front := Join(elems[..|elems| - 1], sep);
      assert elems[..|elems| - 1][0] == elems[0];
      front + sep + elems[|elems| - 1]
  }

  /** `strings.Split(s, [sep])`: the pieces of `s` between occurrences of
      `sep`. Like Go, it never returns an empty list: `Split("", sep) == [""]`. */
  function Split(s: string, sep: char): (r: seq<string>)
    ensures |r| >= 1
  {
    if |s| == 0 then [""]
    else
      var rest := Split(s[..|s| - 1], sep);
      if s[|s| - 1] == sep then rest + [""]
      else rest[..|rest| - 1] + [rest[|rest| - 1] + [s[|s| - 1]]]
  }

  /** A string without the separator splits into itself. */
  lemma {:induction false} SplitNoSeparator(s: string, sep: char)
    requires sep !in s
    ensures Split(s, sep) == [s]
  {
    if |s| > 0 {
      assert s == s[..|s| - 1] + [s[|s| - 1]];
      SplitNoSeparator(s[..|s| - 1], sep);
    }
  }

  /** Splitting `a + sep + b`, where `b` has no separator, splits `a` and
      then yields `b` as the last piece. */
  lemma {:induction false} SplitAfterSeparator(a: string, sep: char, b: string)
    requires sep !in b
    ensures Split(a + [sep] + b, sep) == Split(a, sep) + [b]
  {
    if |b| == 0 {
      assert a + [sep] + b == a + [sep];
      assert (a + [sep])[..|a|] == a;
    } else {
      var b' := b[..|b| - 1];
      var s := a + [sep] + b;
      assert s[..|s| - 1] == a + [sep] + b';
      assert b == b' + [b[|b| - 1]];
      SplitAfterSeparator(a, sep, b');
    }
  }

  /** Round trip: splitting a joined non-empty list of separator-free
      elements gives the list back. */
  lemma {:induction false} SplitJoin(elems: seq<string>, sep: char)
    requires |elems| >= 1
    requires forall i :: 0 <= i < |elems| ==> sep !in elems[i]
    ensures Split(Join(elems, [sep]), sep) == elems
  {
    var n := |elems| - 1;
    if n == 0 {
      SplitNoSeparator(elems[0], sep);
    } else {
      SplitJoin(elems[..n], sep);
      SplitAfterSeparator(Join(elems[..n], [sep]), sep, elems[n]);
      assert elems == elems[..n] + [elems[n]];
    }
  }

  /** Joining the concatenation of two non-empty lists puts one separator
      between their joins. */
  lemma {:induction false} JoinConcat(a: seq<string>, b: seq<string>, sep: string)
    requires |a| >= 1 && |b| >= 1
    ensures Join(a + b, sep) == Join(a, sep) + sep + Join(b, sep)
  {
    var n := |b| - 1;
    if n == 0 {
      assert (a + b)[..|a + b| - 1] == a;
    } else {
      assert (a + b)[..|a + b| - 1] == a + b[..n];
      JoinConcat(a, b[..n], sep);
    }
  }

  // ---------------------------------------------------------------------
  // Decimal rendering of integers

  predicate IsDigit(c: char) { '0' <= c <= '9' }

  function DigitChar(d: nat): (c: char)
    requires d < 10
    ensures IsDigit(c) && c as int - '0' as int == d
  {
    "0123456789"[d]
  }

  function DigitValue(c: char): (d: nat)
    requires IsDigit(c)
  {
    c as int - '0' as int
  }

  /** The shortest decimal numeral for `n`. */
  function NatToDecimal(n: nat): (r: string)
    ensures |r| >= 1 && AllDigits(r)
    decreases n
  {
    if n < 10 then [DigitChar(n)] else NatToDecimal(n / 10) + [DigitChar(n % 10)]
  }

  /** `strconv.Itoa(n)`: the decimal numeral of `n`, with a leading '-' for
      negative numbers. */
  function Itoa(n: int): (r: string)
    ensures |r| >= 1
    ensures r[0] == '-' <==> n < 0
  {
    if n < 0 then "-" + NatToDecimal(-n) else NatToDecimal(n)
  }

  predicate AllDigits(s: string) { forall i :: 0 <= i < |s| ==> IsDigit(s[i]) }

  /** The value of a string of decimal digits, most significant first. */
  function DigitsValue(s: string): nat
    requires AllDigits(s)
  {
    if |s| == 0 then 0 else DigitsValue(s[..|s| - 1]) * 10 + DigitValue(s[|s| - 1])
  }

  /** Parses an optional sign followed by one or more decimal digits, as
      `strconv.Atoi` does; anything else is rejected. */
  function ParseInt(s: string): (r: Option<int>)
  {
    if |s| > 0 && (s[0] == '-' || s[0] == '+') then
      var digits := s[1..];
      if |digits| > 0 && AllDigits(digits) then
        Some(if s[0] == '-' then 0 - DigitsValue(digits) as int else DigitsValue(digits))
      else None
    else if |s| > 0 && AllDigits(s) then Some(DigitsValue(s))
    else None
  }

  /** The numeral of a natural number is made of digits, has no leading zero
      unless it is "0", and reads back as that number. */
  lemma {:induction false} NatToDecimalDigits(n: nat)
    ensures AllDigits(NatToDecimal(n))
    ensures NatToDecimal(n)[0] == '0' ==> n == 0
    ensures DigitsValue(NatToDecimal(n)) == n
    decreases n
  {
    var s := NatToDecimal(n);
    if n >= 10 {
      NatToDecimalDigits(n / 10);
      assert s[..|s| - 1] == NatToDecimal(n / 10);
    }
  }

  /** `Itoa` renders a minus sign exactly for negative numbers and otherwise
      only digits, without a superfluous leading zero. */
  lemma ItoaShape(n: int)
    ensures var r := Itoa(n);
      && |r| >= 1
      && (r[0] == '-' <==> n < 0)
      && AllDigits(if n < 0 then r[1..] else r)
      && (n < 0 ==> |r| >= 2 && r[1] != '0')
      && (n >= 0 && r[0] == '0' ==> r == "0")
  {
    NatToDecimalDigits(if n < 0 then -n else n);
    if n < 0 {
      assert Itoa(n)[1..] == NatToDecimal(-n);
    } else if NatToDecimal(n)[0] == '0' {
      assert n == 0;
    }
  }

  /** Round trip: parsing the rendering of any integer gives it back. */
  lemma ParseItoa(n: int)
    ensures ParseInt(Itoa(n)) == Some(n)
  {
    var m := if n < 0 then -n else n;
    NatToDecimalDigits(m);
    if n < 0 {
      assert Itoa(n)[1..] == NatToDecimal(m);
    } else {
      assert Itoa(n)[0] != '-' && Itoa(n)[0] != '+';
    }
  }
}
