/** String helpers shared by the logger model: substring search (Python's
    `t in s`), fixed-width and plain decimal rendering of numbers, joining with a
    separator, and the concatenation that writing a list of lines performs. */
module Text {

  // ---------------------------------------------------------------------------
  // Substrings

  /** `t` occurs in `s` starting at index `i`. */
  predicate OccursAt(t: string, s: string, i: int) {
    0 <= i <= |s| - |t| && s[i..i + |t|] == t
  }

  /** Python's `t in s` for two strings: `t` occurs contiguously in `s`. */
  predicate IsSubstring(t: string, s: string)
    decreases |s|
  {
    |t| <= |s| && (s[..|t|] == t || (0 < |s| && IsSubstring(t, s[1..])))
  }

  /** The recursive search agrees with the positional definition of an occurrence. */
  lemma {:induction false} SubstringAt(t: string, s: string)
    ensures IsSubstring(t, s) <==> exists i :: OccursAt(t, s, i)
    decreases |s|
  {
    if IsSubstring(t, s) {
      if s[..|t|] == t {
        assert OccursAt(t, s, 0);
      } else {
        SubstringAt(t, s[1..]);
        var j :| OccursAt(t, s[1..], j);
        assert s[j + 1..j + 1 + |t|] == s[1..][j..j + |t|];
        assert OccursAt(t, s, j + 1);
      }
    } else {
      forall i | OccursAt(t, s, i)
        ensures false
      {
        if i == 0 {
          assert false;
        } else {
          assert s[1..][i - 1..i - 1 + |t|] == s[i..i + |t|];
          assert OccursAt(t, s[1..], i - 1);
          SubstringAt(t, s[1..]);
        }
      }
    }
  }

  // ---------------------------------------------------------------------------
  // Decimal digits

  function Pow10(n: nat): (r: nat)
    ensures r >= 1
  {
    if n == 0 then 1 else 10 * Pow10(n - 1)
  }

  predicate IsDigit(c: char) {
    '0' <= c <= '9'
  }

  predicate AllDigits(s: string) {
    forall i :: 0 <= i < |s| ==> IsDigit(s[i])
  }

  function DigitChar(d: nat): (c: char)
    requires d < 10
    ensures IsDigit(c) && c as int - '0' as int == d
  {
    (d + '0' as int) as char
  }

  function DigitValue(c: char): (d: nat)
    requires IsDigit(c)
    ensures d < 10 && DigitChar(d) == c
  {
    c as int - '0' as int
  }

  /** `n` written with exactly `width` digits, zero-padded on the left
      (strftime's `%H`, `%M`, `%S` with width 2 and `%f` with width 6). */
  function Digits(n: nat, width: nat): (s: string)
    requires n < Pow10(width)
    ensures |s| == width && AllDigits(s)
  {
    if width == 0 then "" else Digits(n / 10, width - 1) + [DigitChar(n % 10)]
  }

  /** The number a string of decimal digits denotes (most significant first). */
  function Value(s: string): (n: nat)
    requires AllDigits(s)
    ensures n < Pow10(|s|)
  {
    if s == [] then 0 else Value(s[..|s| - 1]) * 10 + DigitValue(s[|s| - 1])
  }

  /** Reading back a zero-padded rendering gives the number. */
  lemma {:induction false} ValueOfDigits(n: nat, width: nat)
    requires n < Pow10(width)
    ensures Value(Digits(n, width)) == n
  {
    if width > 0 {
      var s := Digits(n, width);
      assert s[..|s| - 1] == Digits(n / 10, width - 1);
      ValueOfDigits(n / 10, width - 1);
    }
  }

  lemma DivModDigit(m: nat, d: nat)
    requires d < 10
    ensures (m * 10 + d) / 10 == m && (m * 10 + d) % 10 == d
  {
  }

  /** Every digit string of length `width` is the rendering of its value: the
      fixed-width rendering is onto, hence a bijection with its inverse `Value`. */
  lemma {:induction false} DigitsOfValue(s: string)
    requires AllDigits(s)
    ensures Digits(Value(s), |s|) == s
  {
    if s != [] {
      var init := s[..|s| - 1];
      DigitsOfValue(init);
      var n := Value(s);
      var d := DigitValue(s[|s| - 1]);
      assert n == Value(init) * 10 + d;
      DivModDigit(Value(init), d);
      assert Digits(n, |s|) == Digits(Value(init), |init|) + [DigitChar(d)];
      assert init + [s[|s| - 1]] == s;
    }
  }

  /** Python's `str` of a non-negative int: shortest decimal rendering. */
  function NatToString(n: nat): (s: string)
    ensures 1 <= |s| && AllDigits(s)
    ensures |s| > 1 ==> s[0] != '0'
  {
    if n < 10 then [DigitChar(n)] else NatToString(n / 10) + [DigitChar(n % 10)]
  }

  lemma {:induction false} ValueOfNatToString(n: nat)
    ensures Value(NatToString(n)) == n
  {
    if n >= 10 {
      var s := NatToString(n);
      assert s[..|s| - 1] == NatToString(n / 10);
      ValueOfNatToString(n / 10);
    }
  }

  /** A digit string with a non-zero first digit denotes a positive number. */
  lemma {:induction false} ValuePositive(s: string)
    requires s != [] && AllDigits(s) && s[0] != '0'
    ensures Value(s) >= 1
  {
    if |s| > 1 {
      var init := s[..|s| - 1];
      assert init[0] == s[0];
      ValuePositive(init);
    }
  }

  /** The decimal text of a number is unique: any digit string without a
      leading zero that denotes `n` is `NatToString(n)`. */
  lemma {:induction false} CanonicalDecimal(d: string, n: nat)
    requires d != [] && AllDigits(d) && (|d| > 1 ==> d[0] != '0') && Value(d) == n
    ensures d == NatToString(n)
  {
    if |d| == 1 {
      assert Value(d) == DigitValue(d[0]);
    } else {
      var init := d[..|d| - 1];
      assert init[0] == d[0];
      ValuePositive(init);
      var last := DigitValue(d[|d| - 1]);
      assert n == Value(init) * 10 + last;
      DivModDigit(Value(init), last);
      CanonicalDecimal(init, Value(init));
      assert init + [d[|d| - 1]] == d;
    }
  }

  /** Python's `str` of an int: the decimal text of its magnitude, after a
      `-` for a negative int. */
  function IntToString(i: int): (s: string)
    ensures 1 <= |s|
    ensures i < 0 <==> s[0] == '-'
    ensures i >= 0 ==> AllDigits(s) && Value(s) == i
    ensures i < 0 ==> AllDigits(s[1..]) && Value(s[1..]) == -i
    ensures var d := if i < 0 then s[1..] else s; |d| > 1 ==> d[0] != '0'
  {
    ValueOfNatToString(if i < 0 then -i else i);
    assert i < 0 ==> ("-" + NatToString(-i))[1..] == NatToString(-i);
    if i < 0 then "-" + NatToString(-i) else NatToString(i)
  }

  // ---------------------------------------------------------------------------
  // Joining and concatenation

  /** `sep.join(xs)`. */
  function Join(xs: seq<string>, sep: string): string {
    if |xs| == 0 then ""
    else if |xs| == 1 then xs[0]
    else xs[0] + sep + Join(xs[1..], sep)
  }

  /** Appending one more item to a non-empty join adds one separator and the item. */
  lemma {:induction false} JoinSnoc(xs: seq<string>, x: string, sep: string)
    requires xs != []
    ensures Join(xs + [x], sep) == Join(xs, sep) + sep + x
    decreases |xs|
  {
    if |xs| == 1 {
      assert (xs + [x])[1..] == [x];
    } else {
      assert (xs + [x])[1..] == xs[1..] + [x];
      JoinSnoc(xs[1..], x, sep);
    }
  }

  /** `"".join(xs)`, which is also what `writelines` puts in a file. */
  function Concat(xs: seq<string>): (r: string)
    ensures r == "" <==> forall i :: 0 <= i < |xs| ==> xs[i] == ""
    ensures xs != [] ==> |xs[0]| <= |r| && r[..|xs[0]|] == xs[0]
  {
    if xs == [] then "" else xs[0] + Concat(xs[1..])
  }

  /** Writing two runs of lines writes the first run, then the second. */
  lemma {:induction false} ConcatAppend(a: seq<string>, b: seq<string>)
    ensures Concat(a + b) == Concat(a) + Concat(b)
  {
    if a == [] {
      assert a + b == b;
    } else {
      assert (a + b)[1..] == a[1..] + b;
      ConcatAppend(a[1..], b);
    }
  }

  /** A line in the sense of a text file: it ends with its only newline. */
  predicate IsLine(l: string) {
    0 < |l| && l[|l| - 1] == '\n' && '\n' !in l[..|l| - 1]
  }

  /** Index of the first newline, or the last index when there is none. */
  function LineEnd(s: string): (k: nat)
    requires s != []
    ensures k < |s| && '\n' !in s[..k]
    ensures s[k] == '\n' || k == |s| - 1
  {
    if s[0] == '\n' || |s| == 1 then 0 else 1 + LineEnd(s[1..])
  }

  /** Reading a file back line by line (each piece keeps its newline). */
  function SplitLines(s: string): seq<string>
    decreases |s|
  {
    if s == [] then [] else
      var k := LineEnd(s);
      [s[..k + 1]] + SplitLines(s[k + 1..])
  }

  lemma LineEndOfLine(l: string, rest: string)
    requires IsLine(l)
    ensures LineEnd(l + rest) == |l| - 1
  {
    var s := l + rest;
    assert s[..|l|] == l;
  }

  /** Writing lines to a file and reading the file back gives the same lines,
      provided each one is a single newline-terminated line. */
  lemma {:induction false} SplitConcat(ls: seq<string>)
    requires forall i :: 0 <= i < |ls| ==> IsLine(ls[i])
    ensures SplitLines(Concat(ls)) == ls
  {
    if ls != [] {
      var s := Concat(ls);
      LineEndOfLine(ls[0], Concat(ls[1..]));
      assert s[..|ls[0]|] == ls[0];
      assert s[|ls[0]|..] == Concat(ls[1..]);
      SplitConcat(ls[1..]);
    }
  }

  /** A piece with an embedded newline is not read back as one line. */
  lemma SplitEmbeddedNewline()
    ensures SplitLines(Concat(["a\nb\n"])) == ["a\n", "b\n"]
  {
    var s := Concat(["a\nb\n"]);
    assert s == "a\nb\n";
    assert LineEnd(s) == 1;
    assert s[2..] == "b\n";
    assert LineEnd(s[2..]) == 1;
    assert s[2..][2..] == [];
    assert SplitLines(s[2..]) == [s[2..][..2]] + SplitLines(s[2..][2..]);
    assert SplitLines(s) == [s[..2]] + SplitLines(s[2..]);
    assert s[..2] == "a\n" && s[2..][..2] == "b\n";
  }
}
