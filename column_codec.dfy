/**
 * Spreadsheet column labels (A, B, ..., Z, AA, AB, ...).
 *
 * A label is a bijective base-26 numeral: the letters 'A'..'Z' stand for the
 * digit values 1..26 and there is no zero digit, so every positive number has
 * exactly one numeral. The column with zero-based index n carries the numeral
 * of n + 1.
 */
module ColumnCodec {
  import opened Sheets

  /** Every character is an upper-case letter 'A'..'Z'. */
  predicate IsLetters(s: string) {
    forall i :: 0 <= i < |s| ==> 'A' <= s[i] <= 'Z'
  }

  /** The last digit of the numeral for m: m mod 26, with 26 in place of 0. */
  function LastDigit(m: nat): (d: nat)
    requires m > 0
    ensures 1 <= d <= 26
    ensures d <= m && (m - d) % 26 == 0
    ensures (m - d) / 26 < m
  {
    if m % 26 == 0 then 26 else m % 26
  }

  /** The letter for digit value d: 1 is 'A', 26 is 'Z'. */
  function Letter(d: nat): (c: char)
    requires 1 <= d <= 26
    ensures 'A' <= c <= 'Z'
  {
    (65 + d - 1) as char
  }

  /** The bijective base-26 numeral of m; the empty string for 0. */
  function Numeral(m: nat): (s: string)
    ensures IsLetters(s)
    ensures |s| == 0 <==> m == 0
    decreases m
  {
    if m == 0 then ""
    else
      var d := LastDigit(m);
      Numeral((m - d) / 26) + [Letter(d)]
  }

  /** The label of the column with zero-based index `index`. */
  function Label(index: nat): (s: string)
    ensures |s| > 0 && IsLetters(s)
  {
    Numeral(index + 1)
  }

  /** The number a string of letters denotes, most significant digit first. */
  function Value(s: string): (v: nat)
    requires IsLetters(s)
    ensures v == 0 <==> s == []
  {
    if s == [] then 0
    else Value(s[..|s| - 1]) * 26 + (s[|s| - 1] as int - 64)
  }

  /** The zero-based column index a label names; None for anything that is not a label. */
  function Decode(s: string): (r: Option<nat>)
    ensures r.Some? <==> |s| > 0 && IsLetters(s)
  {
    if |s| > 0 && IsLetters(s) then Some(Value(s) - 1) else None
  }

  /** Reading a numeral back gives the number it was made from. */
  lemma {:induction false} ValueOfNumeral(m: nat)
    ensures Value(Numeral(m)) == m
    decreases m
  {
    if m > 0 {
      var d := LastDigit(m);
      var q := (m - d) / 26;
      ValueOfNumeral(q);
      var s := Numeral(m);
      assert s == Numeral(q) + [Letter(d)];
      assert s[..|s| - 1] == Numeral(q);
      assert q * 26 + d == m;
    }
  }

  /** Every string of letters is the numeral of its value: there is no second spelling. */
  lemma {:induction false} NumeralOfValue(s: string)
    requires IsLetters(s)
    ensures Numeral(Value(s)) == s
    decreases |s|
  {
    if s != [] {
      var init := s[..|s| - 1];
      var d := s[|s| - 1] as int - 64;
      NumeralOfValue(init);
      var v := Value(init);
      var m := Value(s);
      assert m == v * 26 + d;
      assert 1 <= d <= 26;
      assert LastDigit(m) == d by {
        if d == 26 {
          assert m == (v + 1) * 26;
        } else {
          assert m % 26 == d;
        }
      }
      assert (m - d) / 26 == v;
      assert Letter(d) == s[|s| - 1];
      assert s == init + [s[|s| - 1]];
    }
  }

  /** Decoding a label gives back its column index. */
  lemma DecodeLabel(index: nat)
    ensures Decode(Label(index)) == Some(index)
  {
    ValueOfNumeral(index + 1);
  }

  /** A string decodes to a column exactly when it is that column's label. */
  lemma LabelOfDecode(s: string, index: nat)
    ensures Decode(s) == Some(index) <==> Label(index) == s
  {
    if Decode(s) == Some(index) {
      NumeralOfValue(s);
    }
    if Label(index) == s {
      DecodeLabel(index);
    }
  }

  /** Distinct column indexes have distinct labels. */
  lemma LabelInjective(a: nat, b: nat)
    ensures Label(a) == Label(b) ==> a == b
  {
    DecodeLabel(a);
    DecodeLabel(b);
  }

  /** The first and last one- and two-letter labels, and the first three-letter one. */
  lemma LabelExamples()
    ensures Label(0) == "A" && Label(25) == "Z"
    ensures Label(26) == "AA" && Label(27) == "AB"
    ensures Label(701) == "ZZ" && Label(702) == "AAA"
  {
    ValueExample("A", 1);
    ValueExample("Z", 26);
    ValueExample("AA", 27);
    ValueExample("AB", 28);
    ValueExample("ZZ", 702);
    ValueExample("AAA", 703);
  }

  /** A string of letters whose value is m is the numeral of m. */
  lemma ValueExample(s: string, m: nat)
    requires IsLetters(s) && Value(s) == m
    ensures Numeral(m) == s
  {
    NumeralOfValue(s);
  }

  /** The value of the all-'A' string of length k: the smallest k-letter numeral. */
  function Ones(k: nat): nat {
    if k == 0 then 0 else Ones(k - 1) * 26 + 1
  }

  /** A k-letter string of letters has a value from Ones(k) up to, but not including, Ones(k + 1). */
  lemma {:induction false} ValueRange(s: string)
    requires IsLetters(s)
    ensures Ones(|s|) <= Value(s) < Ones(|s| + 1)
    decreases |s|
  {
    if s != [] {
      ValueRange(s[..|s| - 1]);
    }
  }

  /** Ones grows with k. */
  lemma {:induction false} OnesMonotone(j: nat, k: nat)
    requires j <= k
    ensures Ones(j) <= Ones(k)
    decreases k - j
  {
    if j < k {
      OnesMonotone(j + 1, k);
    }
  }

  /** A later column never has a shorter label; labels of length k are exactly those of the columns Ones(k) - 1 .. Ones(k + 1) - 2. */
  lemma LabelLength(a: nat, b: nat)
    ensures a <= b ==> |Label(a)| <= |Label(b)|
    ensures Ones(|Label(a)|) <= a + 1 < Ones(|Label(a)| + 1)
  {
    ValueOfNumeral(a + 1);
    ValueOfNumeral(b + 1);
    ValueRange(Label(a));
    ValueRange(Label(b));
    if a <= b && |Label(a)| > |Label(b)| {
      OnesMonotone(|Label(b)| + 1, |Label(a)|);
    }
  }

  /** s comes before t in dictionary order, where both strings have a position k. */
  predicate LexLess(s: string, t: string) {
    exists k :: 0 <= k < |s| && k < |t| && s[..k] == t[..k] && s[k] < t[k]
  }

  /** Spreadsheet column order: shorter labels first, labels of one length in dictionary order. */
  predicate ShortlexLess(s: string, t: string) {
    |s| < |t| || (|s| == |t| && LexLess(s, t))
  }

  /** Of two strings of letters of one length, the one of smaller value comes first in dictionary order. */
  lemma {:induction false} ValueLexLess(s: string, t: string)
    requires IsLetters(s) && IsLetters(t) && |s| == |t|
    requires Value(s) < Value(t)
    ensures LexLess(s, t)
    decreases |s|
  {
    var n := |s|;
    var s', t' := s[..n - 1], t[..n - 1];
    assert Value(s) == Value(s') * 26 + (s[n - 1] as int - 64);
    assert Value(t) == Value(t') * 26 + (t[n - 1] as int - 64);
    if Value(s') < Value(t') {
      ValueLexLess(s', t');
      var k :| 0 <= k < |s'| && s'[..k] == t'[..k] && s'[k] < t'[k];
      assert s[..k] == s'[..k] && t[..k] == t'[..k];
    } else if Value(s') == Value(t') {
      NumeralOfValue(s');
      NumeralOfValue(t');
      assert s[..n - 1] == t[..n - 1] && s[n - 1] < t[n - 1];
    }
  }

  /** No two strings come before each other in dictionary order. */
  lemma LexAsymmetric(s: string, t: string)
    ensures !(LexLess(s, t) && LexLess(t, s))
  {
  }

  /** A lower column index has an earlier label. */
  lemma LabelBefore(a: nat, b: nat)
    requires a < b
    ensures ShortlexLess(Label(a), Label(b))
  {
    var la, lb := Label(a), Label(b);
    assert |la| <= |lb| by {
      LabelLength(a, b);
    }
    if |la| == |lb| {
      assert Value(la) == a + 1 by {
        ValueOfNumeral(a + 1);
      }
      assert Value(lb) == b + 1 by {
        ValueOfNumeral(b + 1);
      }
      ValueLexLess(la, lb);
    }
  }

  /** Labels follow the columns: a lower index has an earlier label, and only a lower index does. */
  lemma LabelOrder(a: nat, b: nat)
    ensures a < b <==> ShortlexLess(Label(a), Label(b))
  {
    if a < b {
      LabelBefore(a, b);
    } else if b < a {
      LabelBefore(b, a);
      LexAsymmetric(Label(a), Label(b));
    }
  }

  /** The label of index a has length k exactly when Ones(k) <= a + 1 < Ones(k + 1). */
  lemma LabelLengthExactly(a: nat, k: nat)
    ensures |Label(a)| == k <==> Ones(k) <= a + 1 < Ones(k + 1)
  {
    var m := |Label(a)|;
    LabelLength(a, a);
    if k < m {
      OnesMonotone(k + 1, m);
    } else if m < k {
      OnesMonotone(m + 1, k);
    }
  }

  /**
   * The loop of `convert10to26`: peel off the last digit (1..26), prepend its letter,
   * and divide the rest, which is then a multiple of 26, by 26.
   */
  method Convert10To26(num: nat) returns (alpha: string)
    ensures alpha == Label(num)
    ensures |alpha| > 0 && IsLetters(alpha)
  {
    var n: nat := num + 1;
    alpha := "";
    while n > 0
      invariant Numeral(n) + alpha == Label(num)
      decreases n
    {
      var d := n % 26;
      if d == 0 {
        d := 26;
      }
      ghost var before := n;
      n := n - d;
      assert n % 26 == 0;  // so the division by 26 is exact
      alpha := [(65 + d - 1) as char] + alpha;
      n := n / 26;
      assert Numeral(before) == Numeral(n) + [Letter(d)];
    }
  }
}
