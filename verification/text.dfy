/** String helpers with JavaScript semantics: `String.prototype.split` and
    `Array.prototype.join` on a one-character separator, and the decimal
    rendering of a non-negative integer that string concatenation performs. */
module Text {

  /** `suffix` is the tail of `s`. */
  predicate EndsWith(s: string, suffix: string)
  {
    |suffix| <= |s| && s[|s| - |suffix|..] == suffix
  }

  /** `s.split(c)`: the maximal runs of `s` free of `c`, in order. Like the
      JavaScript original, an empty string splits into one empty part and
      adjacent separators give empty parts. */
  function Split(s: string, c: char): (parts: seq<string>)
    ensures |parts| >= 1
    ensures forall i :: 0 <= i < |parts| ==> c !in parts[i]
    decreases |s|
  {
    if |s| == 0 then [""]
    else
      var rest := Split(s[1..], c);
      if s[0] == c then [""] + rest
      else [[s[0]] + rest[0]] + rest[1..]
  }

  /** `parts.join(c)`. */
  function Join(parts: seq<string>, c: char): string
    decreases |parts|
  {
    if |parts| == 0 then ""
    else if |parts| == 1 then parts[0]
    else parts[0] + [c] + Join(parts[1..], c)
  }

  /** Joining the parts of a split gives back the original string. */
  lemma {:induction false} JoinOfSplit(s: string, c: char)
    ensures Join(Split(s, c), c) == s
    decreases |s|
  {
    if |s| > 0 {
      var rest := Split(s[1..], c);
      JoinOfSplit(s[1..], c);
      if s[0] == c {
        assert ([""] + rest)[1..] == rest;
        assert Join([""] + rest, c) == "" + [c] + Join(rest, c);
        assert s == [s[0]] + s[1..];
      } else {
        var head := [s[0]] + rest[0];
        var parts := [head] + rest[1..];
        if |rest| == 1 {
          assert parts == [head];
          assert s == [s[0]] + s[1..];
        } else {
          assert parts[1..] == rest[1..];
          assert Join(rest, c) == rest[0] + [c] + Join(rest[1..], c);
          assert s == [s[0]] + s[1..];
        }
      }
    }
  }

  /** A string free of the separator splits into itself alone. */
  lemma {:induction false} SplitWithoutSeparator(s: string, c: char)
    requires c !in s
    ensures Split(s, c) == [s]
    decreases |s|
  {
    if |s| > 0 {
      SplitWithoutSeparator(s[1..], c);
      assert s == [s[0]] + s[1..];
    }
  }

  /** A separator after a separator-free prefix ends the first part. */
  lemma {:induction false} SplitAtFirstSeparator(a: string, b: string, c: char)
    requires c !in a
    ensures Split(a + [c] + b, c) == [a] + Split(b, c)
    decreases |a|
  {
    var s := a + [c] + b;
    if |a| == 0 {
      assert s[1..] == b;
    } else {
      assert s[1..] == a[1..] + [c] + b;
      SplitAtFirstSeparator(a[1..], b, c);
      assert a == [a[0]] + a[1..];
    }
  }

  /** Splitting a join of separator-free parts gives back the parts. */
  lemma {:induction false} SplitOfJoin(parts: seq<string>, c: char)
    requires |parts| >= 1
    requires forall i :: 0 <= i < |parts| ==> c !in parts[i]
    ensures Split(Join(parts, c), c) == parts
    decreases |parts|
  {
    if |parts| == 1 {
      SplitWithoutSeparator(parts[0], c);
    } else {
      SplitOfJoin(parts[1..], c);
      SplitAtFirstSeparator(parts[0], Join(parts[1..], c), c);
      assert parts == [parts[0]] + parts[1..];
    }
  }

  /** A string splits into a single part exactly when it has no separator. */
  lemma {:induction false} SplitIsSingleIff(s: string, c: char)
    ensures |Split(s, c)| == 1 <==> c !in s
  {
    if c !in s {
      SplitWithoutSeparator(s, c);
    } else {
      JoinOfSplit(s, c);
    }
  }

  /** Joining all but the last part, then the separator and the last part,
      is the join of all the parts. */
  lemma {:induction false} JoinSnoc(parts: seq<string>, c: char)
    requires |parts| >= 2
    ensures Join(parts, c) == Join(parts[..|parts| - 1], c) + [c] + parts[|parts| - 1]
    decreases |parts|
  {
    var init := parts[..|parts| - 1];
    if |parts| == 2 {
      assert init == [parts[0]];
      assert parts[1..] == [parts[1]];
    } else {
      JoinSnoc(parts[1..], c);
      assert parts[1..][..|parts| - 2] == init[1..];
      assert init[1..] == parts[1..|parts| - 1];
    }
  }

  /** Dropping the last of two or more separator-free parts: the join of
      the rest splits back into the rest, and the rest, the separator and
      the last part put back together give the whole join. */
  lemma JoinWithoutLast(parts: seq<string>, c: char)
    requires |parts| >= 2
    requires forall i :: 0 <= i < |parts| ==> c !in parts[i]
    ensures var init := parts[..|parts| - 1];
      && Split(Join(init, c), c) == init
      && Join(init, c) + [c] + parts[|parts| - 1] == Join(parts, c)
  {
    var init := parts[..|parts| - 1];
    assert forall i :: 0 <= i < |init| ==> init[i] == parts[i];
    SplitOfJoin(init, c);
    JoinSnoc(parts, c);
  }

  /** With at least two parts, the join starts with the first part, the
      separator and the second part, followed by the end or a separator. */
  lemma {:induction false} JoinStartsWithTwoParts(parts: seq<string>, c: char)
    requires |parts| >= 2
    ensures parts[0] + [c] + parts[1] <= Join(parts, c)
    ensures var n := |parts[0]| + 1 + |parts[1]|;
      n == |Join(parts, c)| || Join(parts, c)[n] == c
  {
    var rest := Join(parts[1..], c);
    assert Join(parts, c) == parts[0] + [c] + rest;
    if |parts| > 2 {
      assert parts[1..][1..] == parts[2..];
      assert rest == parts[1] + [c] + Join(parts[2..], c);
    }
  }

  /** The first part is the text before the first separator. */
  lemma {:induction false} FirstPartIsTextBeforeSeparator(s: string, c: char)
    ensures Split(s, c)[0] <= s
    ensures |Split(s, c)[0]| == |s| || s[|Split(s, c)[0]|] == c
  {
    var parts := Split(s, c);
    JoinOfSplit(s, c);
    if |parts| >= 2 {
      JoinStartsWithTwoParts(parts, c);
    }
  }

  // ---------------------------------------------------------------------
  // Decimal numerals, as JavaScript renders a non-negative integer

  predicate IsDigit(ch: char)
  {
    '0' <= ch <= '9'
  }

  predicate IsDigits(s: string)
  {
    forall i :: 0 <= i < |s| ==> IsDigit(s[i])
  }

  /** A numeral in the form JavaScript prints: digits, no leading zero
      except for "0" itself. */
  predicate IsCanonicalNumeral(s: string)
  {
    |s| >= 1 && IsDigits(s) && (|s| > 1 ==> s[0] != '0')
  }

  function DigitChar(d: nat): (ch: char)
    requires d < 10
    ensures IsDigit(ch)
  {
    ('0' as int + d) as char
  }

  function DigitValue(ch: char): (d: nat)
    requires IsDigit(ch)
    ensures d < 10
    ensures DigitChar(d) == ch
  {
    ch as int - '0' as int
  }

  /** The numeral of `n`, as `"" + n` produces it in JavaScript. */
  function Decimal(n: nat): (s: string)
    ensures IsCanonicalNumeral(s)
    ensures |s| == 1 <==> n < 10
  {
    if n < 10 then [DigitChar(n)]
    else Decimal(n / 10) + [DigitChar(n % 10)]
  }

  /** The value a string of digits denotes. */
  function NumeralValue(s: string): nat
    requires IsDigits(s)
  {
    if |s| == 0 then 0
    else NumeralValue(s[..|s| - 1]) * 10 + DigitValue(s[|s| - 1])
  }

  /** Reading a printed number back gives the number. */
  lemma {:induction false} NumeralValueOfDecimal(n: nat)
    ensures NumeralValue(Decimal(n)) == n
  {
    if n >= 10 {
      var s := Decimal(n);
      assert s[..|s| - 1] == Decimal(n / 10);
      NumeralValueOfDecimal(n / 10);
    }
  }

  /** A numeral whose first digit is not zero denotes a positive number. */
  lemma {:induction false} LeadingDigitPositive(s: string)
    requires |s| >= 1 && IsDigits(s) && s[0] != '0'
    ensures NumeralValue(s) >= 1
    decreases |s|
  {
    if |s| > 1 {
      LeadingDigitPositive(s[..|s| - 1]);
    }
  }

  /** Printing the value of a canonical numeral gives the numeral back. */
  lemma {:induction false} DecimalOfNumeralValue(s: string)
    requires IsCanonicalNumeral(s)
    ensures Decimal(NumeralValue(s)) == s
    decreases |s|
  {
    if |s| > 1 {
      var init := s[..|s| - 1];
      var d := DigitValue(s[|s| - 1]);
      LeadingDigitPositive(init);
      DecimalOfNumeralValue(init);
      var v := NumeralValue(init);
      var n := NumeralValue(s);
      assert n == v * 10 + d;
      LastDigit(v, d);
      assert n >= 10;
      assert Decimal(n) == Decimal(v) + [DigitChar(d)];
      assert s == init + [s[|s| - 1]];
    }
  }

  /** Appending a digit `d` to the numeral of `v` denotes `v * 10 + d`,
      whose quotient and remainder by ten give `v` and `d` back. */
  lemma LastDigit(v: nat, d: nat)
    requires d < 10
    ensures (v * 10 + d) / 10 == v && (v * 10 + d) % 10 == d
  {
  }
}
