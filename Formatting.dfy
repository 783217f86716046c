/**
 * The display helpers formatNumber and formatTime. formatNumber is modelled on
 * the fixed-point string that Number.prototype.toFixed has already produced:
 * the model is the global replace of the pattern /\B(?=(\d{3})+(?!\d))/ by ",".
 */
module Formatting {
  import CostModel

  predicate IsDigit(c: char) { '0' <= c <= '9' }

  /** The regular-expression word characters [A-Za-z0-9_]. */
  predicate IsWordChar(c: char) { IsDigit(c) || 'a' <= c <= 'z' || 'A' <= c <= 'Z' || c == '_' }

  predicate AllDigits(d: string) { forall i :: 0 <= i < |d| ==> IsDigit(d[i]) }

  // ---------------------------------------------------------------------------
  // The regular expression

  /** The length of the maximal run of digits that starts at position p. */
  function DigitRun(s: string, p: nat): (n: nat)
    requires p <= |s|
    ensures n <= |s| - p
    decreases |s| - p
  {
    if p < |s| && IsDigit(s[p]) then 1 + DigitRun(s, p + 1) else 0
  }

  /** A word character at index i; outside the string there is none. */
  predicate WordAt(s: string, i: int) { 0 <= i < |s| && IsWordChar(s[i]) }

  /**
   * The pattern matches at position p (between s[p-1] and s[p]): `\B` holds
   * (both neighbours are word characters or neither is), and `(\d{3})+(?!\d)`
   * holds (the digits from p form a run whose length is a positive multiple of 3).
   */
  predicate BreakAt(s: string, p: nat)
    requires p <= |s|
  {
    && WordAt(s, p - 1) == WordAt(s, p)
    && DigitRun(s, p) >= 3 && DigitRun(s, p) % 3 == 0
  }

  /** Position p's part of the output: a comma where the pattern matches, then the character. */
  function Piece(s: string, p: nat): string
    requires p < |s|
  {
    (if BreakAt(s, p) then [','] else []) + [s[p]]
  }

  /** The output for the characters s[i..j]. */
  function Segment(s: string, i: nat, j: nat): string
    requires i <= j <= |s|
    decreases j - i
  {
    if i == j then [] else Segment(s, i, j - 1) + Piece(s, j - 1)
  }

  /**
   * formatNumber on the string toFixed produced. The pattern cannot match at
   * the end of the string (no digit follows), so only positions before a
   * character contribute.
   */
  function FormatNumber(s: string): string
  {
    Segment(s, 0, |s|)
  }

  // ---------------------------------------------------------------------------
  // Removing the commas gives the input back

  function StripCommas(t: string): string
  {
    if t == [] then [] else (if t[0] == ',' then [] else [t[0]]) + StripCommas(t[1..])
  }

  lemma {:induction false} StripCommasConcat(a: string, b: string)
    ensures StripCommas(a + b) == StripCommas(a) + StripCommas(b)
    decreases |a|
  {
    if a == [] {
      assert a + b == b;
    } else {
      var head := if a[0] == ',' then [] else [a[0]];
      assert (a + b)[0] == a[0] && (a + b)[1..] == a[1..] + b;
      assert StripCommas(a + b) == head + StripCommas(a[1..] + b);
      StripCommasConcat(a[1..], b);
      assert StripCommas(a) == head + StripCommas(a[1..]);
    }
  }

  lemma StripOne(c: char)
    ensures StripCommas([c]) == if c == ',' then [] else [c]
  {
    assert [c][1..] == [];
  }

  lemma {:induction false} SegmentStrip(s: string, i: nat, j: nat)
    requires i <= j <= |s|
    requires forall p :: i <= p < j ==> s[p] != ','
    ensures StripCommas(Segment(s, i, j)) == s[i..j]
    decreases j - i
  {
    if i < j {
      SegmentStrip(s, i, j - 1);
      PieceStrip(s, j - 1);
      StripCommasConcat(Segment(s, i, j - 1), Piece(s, j - 1));
      assert s[i..j - 1] + [s[j - 1]] == s[i..j];
    }
  }

  lemma PieceStrip(s: string, p: nat)
    requires p < |s| && s[p] != ','
    ensures StripCommas(Piece(s, p)) == [s[p]]
  {
    StripOne(s[p]);
    if BreakAt(s, p) {
      StripOne(',');
      StripCommasConcat([','], [s[p]]);
    }
  }

  /** Deleting the commas of the output gives back any comma-free input (every toFixed result is one). */
  lemma FormatNumberStripsBack(s: string)
    requires ',' !in s
    ensures StripCommas(FormatNumber(s)) == s
  {
    SegmentStrip(s, 0, |s|);
  }

  // ---------------------------------------------------------------------------
  // The integer part is grouped in threes from the right

  /** The reference grouping: digits in groups of three from the right. */
  function Grouped(d: string): string
    decreases |d|
  {
    if |d| <= 3 then d else Grouped(d[..|d| - 3]) + [','] + d[|d| - 3..]
  }

  /**
   * t is d grouped: t keeps the digits of d in order, starts with a digit, and
   * holds a comma exactly at every fourth position counted from the right (a
   * leading group of 1 to 3 digits, then groups of exactly 3).
   */
  ghost predicate IsGrouping(t: string, d: string)
  {
    && StripCommas(t) == d
    && |t| == |d| + (|d| - 1) / 3
    && |t| >= 1 && t[0] != ','
    && forall i :: 0 <= i < |t| ==> (t[i] == ',' <==> (|t| - 1 - i) % 4 == 3)
  }

  /** The reference grouping has that shape. */
  lemma {:induction false} GroupedShape(d: string)
    requires |d| >= 1 && AllDigits(d)
    ensures IsGrouping(Grouped(d), d)
    decreases |d|
  {
    if |d| <= 3 {
      SegmentStripDigits(d);
    } else {
      var h, l := d[..|d| - 3], d[|d| - 3..];
      assert AllDigits(h) && AllDigits(l);
      assert h + l == d;
      assert Grouped(d) == Grouped(h) + [','] + l;
      GroupedShape(h);
      GroupedStep(Grouped(h), h, l);
    }
  }

  /** One step of GroupedShape: a grouped prefix, a comma and three more digits. */
  lemma GroupedStep(th: string, h: string, l: string)
    requires |h| >= 1 && IsGrouping(th, h) && |l| == 3 && AllDigits(l)
    ensures IsGrouping(th + [','] + l, h + l)
  {
    var t := th + [','] + l;
    StripConcatComma(th, l);
    SegmentStripDigits(l);
    assert StripCommas(t) == h + l;
    assert |t| == |th| + 4;
    ShapeStep(th, l);
  }

  lemma StripConcatComma(a: string, b: string)
    ensures StripCommas(a + [','] + b) == StripCommas(a) + StripCommas(b)
  {
    StripCommasConcat(a + [','], b);
    StripCommasConcat(a, [',']);
    StripOne(',');
  }

  lemma ShapeStep(th: string, l: string)
    requires |th| >= 1 && th[0] != ',' && |l| == 3 && AllDigits(l)
    requires forall i :: 0 <= i < |th| ==> (th[i] == ',' <==> (|th| - 1 - i) % 4 == 3)
    ensures var t := th + [','] + l;
      t[0] != ',' && forall i :: 0 <= i < |t| ==> (t[i] == ',' <==> (|t| - 1 - i) % 4 == 3)
  {
    var t := th + [','] + l;
    forall i | 0 <= i < |t|
      ensures t[i] == ',' <==> (|t| - 1 - i) % 4 == 3
    {
      if i < |th| {
        assert t[i] == th[i];
        assert |t| - 1 - i == (|th| - 1 - i) + 4;
      } else if i > |th| {
        assert t[i] == l[i - |th| - 1];
      }
    }
  }

  lemma {:induction false} SegmentStripDigits(d: string)
    requires AllDigits(d)
    ensures StripCommas(d) == d
    decreases |d|
  {
    if d != [] {
      SegmentStripDigits(d[1..]);
      assert d == [d[0]] + d[1..];
    }
  }

  // ---------------------------------------------------------------------------
  // formatNumber on a fixed-point string

  /** A fractional part as toFixed writes it with at most 3 decimals: nothing, or '.' and up to 3 digits. */
  predicate IsShortFraction(frac: string)
  {
    frac == [] || (frac[0] == '.' && |frac| <= 4 && AllDigits(frac[1..]))
  }

  lemma SegmentSplit(s: string, i: nat, k: nat, j: nat)
    requires i <= k <= j <= |s|
    ensures Segment(s, i, j) == Segment(s, i, k) + Segment(s, k, j)
    decreases j - k
  {
    if k < j {
      SegmentSplit(s, i, k, j - 1);
    }
  }

  lemma {:induction false} SegmentPlain(s: string, i: nat, j: nat)
    requires i <= j <= |s|
    requires forall p :: i <= p < j ==> !BreakAt(s, p)
    ensures Segment(s, i, j) == s[i..j]
    decreases j - i
  {
    if i < j {
      SegmentPlain(s, i, j - 1);
      assert s[i..j - 1] + [s[j - 1]] == s[i..j];
    }
  }

  lemma {:induction false} DigitRunTo(s: string, p: nat, e: nat)
    requires p <= e <= |s|
    requires forall i :: p <= i < e ==> IsDigit(s[i])
    requires e == |s| || !IsDigit(s[e])
    ensures DigitRun(s, p) == e - p
    decreases e - p
  {
    if p < e {
      DigitRunTo(s, p + 1, e);
    }
  }

  /** Over a run of digits ending at e, the output up to k (a multiple of 3 before e) is the reference grouping. */
  lemma {:induction false} GroupedSegment(s: string, a: nat, k: nat, e: nat)
    requires a <= k <= e <= |s| && (e - k) % 3 == 0
    requires forall i :: a <= i < e ==> IsDigit(s[i])
    requires e == |s| || !IsDigit(s[e])
    requires a == 0 || !IsWordChar(s[a - 1])
    ensures Segment(s, a, k) == Grouped(s[a..k])
    decreases k - a
  {
    if k - a <= 3 {
      LeadingGroupUnbroken(s, a, k, e);
      SegmentPlain(s, a, k);
    } else {
      GroupedSegment(s, a, k - 3, e);
      GroupedSegmentStep(s, a, k, e);
    }
  }

  lemma GroupedSegmentStep(s: string, a: nat, k: nat, e: nat)
    requires a + 3 < k <= e <= |s| && (e - k) % 3 == 0
    requires forall i :: a <= i < e ==> IsDigit(s[i])
    requires e == |s| || !IsDigit(s[e])
    requires Segment(s, a, k - 3) == Grouped(s[a..k - 3])
    ensures Segment(s, a, k) == Grouped(s[a..k])
  {
    SegmentSplit(s, a, k - 3, k);
    TrailingGroup(s, a, k, e);
    GroupedSlices(s, a, k);
  }

  lemma GroupedSlices(s: string, a: nat, k: nat)
    requires a + 3 < k <= |s|
    ensures Grouped(s[a..k]) == Grouped(s[a..k - 3]) + [','] + s[k - 3..k]
  {
    var d := s[a..k];
    assert d[..|d| - 3] == s[a..k - 3];
    assert d[|d| - 3..] == s[k - 3..k];
  }

  /** No comma goes inside the leading group of 1 to 3 digits. */
  lemma LeadingGroupUnbroken(s: string, a: nat, k: nat, e: nat)
    requires a <= k <= e <= |s| && (e - k) % 3 == 0 && k - a <= 3
    requires forall i :: a <= i < e ==> IsDigit(s[i])
    requires e == |s| || !IsDigit(s[e])
    requires a == 0 || !IsWordChar(s[a - 1])
    ensures forall p :: a <= p < k ==> !BreakAt(s, p)
  {
    forall p | a <= p < k
      ensures !BreakAt(s, p)
    {
      DigitRunTo(s, p, e);
      if p == a {
        assert !WordAt(s, a - 1) && WordAt(s, a);
      } else {
        assert (e - p) % 3 != 0 by {
          assert e - p == (e - k) + (k - p) && 0 < k - p < 3;
        }
      }
    }
  }

  /** A later group of three digits gets exactly one comma, in front of it. */
  lemma TrailingGroup(s: string, a: nat, k: nat, e: nat)
    requires a + 3 < k <= e <= |s| && (e - k) % 3 == 0
    requires forall i :: a <= i < e ==> IsDigit(s[i])
    requires e == |s| || !IsDigit(s[e])
    ensures Segment(s, k - 3, k) == [','] + s[k - 3..k]
  {
    TrailingBreaks(s, a, k, e);
    assert Segment(s, k - 3, k - 3) == [];
    assert Segment(s, k - 3, k - 2) == [',', s[k - 3]];
    assert Segment(s, k - 3, k - 1) == [',', s[k - 3], s[k - 2]];
    assert s[k - 3..k] == [s[k - 3], s[k - 2], s[k - 1]];
  }

  lemma TrailingBreaks(s: string, a: nat, k: nat, e: nat)
    requires a + 3 < k <= e <= |s| && (e - k) % 3 == 0
    requires forall i :: a <= i < e ==> IsDigit(s[i])
    requires e == |s| || !IsDigit(s[e])
    ensures BreakAt(s, k - 3) && !BreakAt(s, k - 2) && !BreakAt(s, k - 1)
  {
    DigitRunTo(s, k - 3, e);
    DigitRunTo(s, k - 2, e);
    DigitRunTo(s, k - 1, e);
    assert WordAt(s, k - 4) && WordAt(s, k - 3);
  }

  /**
   * For an optional minus sign, an integer part and at most three decimals,
   * formatNumber groups the integer part in threes and leaves sign and decimals alone.
   */
  lemma FormatNumberFixedPoint(sign: string, d: string, frac: string)
    requires sign == "" || sign == "-"
    requires |d| >= 1 && AllDigits(d)
    requires IsShortFraction(frac)
    ensures FormatNumber(sign + d + frac) == sign + Grouped(d) + frac
  {
    var s := sign + d + frac;
    var a, e := |sign|, |sign| + |d|;
    ConcatSlices(sign, d, frac);
    DigitsInside(sign, d, frac);
    FormatNumberLayout(s, a, e);
  }

  lemma DigitsInside(x: string, y: string, z: string)
    requires AllDigits(y)
    ensures forall i :: |x| <= i < |x| + |y| ==> IsDigit((x + y + z)[i])
  {
    forall i | |x| <= i < |x| + |y|
      ensures IsDigit((x + y + z)[i])
    {
      assert (x + y + z)[i] == y[i - |x|];
    }
  }

  lemma ConcatSlices(x: string, y: string, z: string)
    ensures var s := x + y + z;
      && s[..|x|] == x && s[|x|..|x| + |y|] == y && s[|x| + |y|..] == z
      && |s| == |x| + |y| + |z|
      && (|x| > 0 ==> s[0] == x[0])
  {
  }

  /** The same, stated by positions: sign before a, integer digits in [a, e), decimals from e. */
  lemma FormatNumberLayout(s: string, a: nat, e: nat)
    requires a <= 1 && a < e <= |s| && (a == 1 ==> s[0] == '-')
    requires forall i :: a <= i < e ==> IsDigit(s[i])
    requires IsShortFraction(s[e..])
    ensures FormatNumber(s) == s[..a] + Grouped(s[a..e]) + s[e..]
  {
    assert e == |s| || s[e] == '.';
    SegmentThreeWay(s, a, e);
    SignSegment(s, a);
    GroupedSegment(s, a, e, e);
    FractionSegment(s, e);
  }

  lemma SegmentThreeWay(s: string, a: nat, e: nat)
    requires a <= e <= |s|
    ensures FormatNumber(s) == Segment(s, 0, a) + Segment(s, a, e) + Segment(s, e, |s|)
  {
    SegmentSplit(s, 0, a, |s|);
    SegmentSplit(s, a, e, |s|);
  }

  lemma SignSegment(s: string, a: nat)
    requires a <= 1 && a <= |s| && (a == 1 ==> s[0] == '-')
    ensures Segment(s, 0, a) == s[..a]
  {
    SignUnbroken(s, a);
    SegmentPlain(s, 0, a);
  }

  lemma FractionSegment(s: string, e: nat)
    requires e <= |s| && IsShortFraction(s[e..])
    ensures Segment(s, e, |s|) == s[e..]
  {
    FractionUnbroken(s, e);
    SegmentPlain(s, e, |s|);
  }

  lemma SignUnbroken(s: string, a: nat)
    requires a <= 1 && a <= |s| && (a == 1 ==> s[0] == '-')
    ensures forall p :: 0 <= p < a ==> !BreakAt(s, p)
  {
    if a == 1 {
      assert DigitRun(s, 0) == 0;
    }
  }

  lemma FractionUnbroken(s: string, e: nat)
    requires e <= |s| && IsShortFraction(s[e..])
    ensures forall p :: e <= p < |s| ==> !BreakAt(s, p)
  {
    forall p | e <= p < |s| ensures !BreakAt(s, p) {
      if p == e {
        assert s[p] == '.';
        assert DigitRun(s, p) == 0;
      } else if p == e + 1 {
        assert s[p - 1] == '.';
        assert IsDigit(s[e..][1..][0]);
        assert !WordAt(s, p - 1) && WordAt(s, p);
      } else {
        assert DigitRun(s, p) <= 2;
      }
    }
  }

  // ---------------------------------------------------------------------------
  // formatTime

  /** Decimal digits of a natural number, without leading zeros. */
  function NatToString(n: nat): (r: string)
    ensures |r| >= 1 && AllDigits(r)
    ensures n == 0 ==> r == "0"
    ensures n > 0 ==> r[0] != '0'
    decreases n
  {
    (if n < 10 then [] else NatToString(n / 10)) + [('0' as int + n % 10) as char]
  }

  /** JavaScript's conversion of an integer to text. */
  function IntToString(i: int): (r: string)
    ensures |r| >= 1
    ensures r[0] == '-' <==> i < 0
    ensures i < 0 ==> |r| >= 2 && AllDigits(r[1..]) && r[1] != '0'
    ensures i >= 0 ==> AllDigits(r) && (i == 0 ==> r == "0") && (i > 0 ==> r[0] != '0')
    ensures i < 0 ==> DigitsValue(r[1..]) == -i
    ensures i >= 0 ==> DigitsValue(r) == i
  {
    var n: nat := if i < 0 then -i else i;
    var t := NatToString(n);
    NatToStringValue(n);
    if i < 0 then
      assert (['-'] + t)[1..] == t;
      ['-'] + t
    else t
  }

  /** The value of a string of decimal digits. */
  function DigitsValue(s: string): nat
    requires AllDigits(s)
    decreases |s|
  {
    if s == [] then 0 else DigitsValue(s[..|s| - 1]) * 10 + (s[|s| - 1] as int - '0' as int)
  }

  /** Reading back the digits of a natural number gives the number. */
  lemma {:induction false} NatToStringValue(n: nat)
    ensures DigitsValue(NatToString(n)) == n
    decreases n
  {
    var prefix := if n < 10 then [] else NatToString(n / 10);
    var c := ('0' as int + n % 10) as char;
    assert NatToString(n) == prefix + [c];
    DigitsValueSnoc(prefix, c);
    if n >= 10 {
      NatToStringValue(n / 10);
    }
  }

  /** Appending a digit multiplies the value by ten and adds the digit. */
  lemma DigitsValueSnoc(t: string, c: char)
    requires AllDigits(t) && IsDigit(c)
    ensures AllDigits(t + [c])
    ensures DigitsValue(t + [c]) == DigitsValue(t) * 10 + (c as int - '0' as int)
  {
    assert (t + [c])[..|t|] == t;
  }


  /** JavaScript's Math.trunc and the remainder operator %, which keeps the sign of the dividend. */
  function Trunc(x: real): (t: int)
    ensures x >= 0.0 ==> t as real <= x < t as real + 1.0
    ensures x < 0.0 ==> t as real - 1.0 < x <= t as real
  {
    if x >= 0.0 then x.Floor else -((-x).Floor)
  }

  function JsRemainder(x: real, y: real): (r: real)
    requires y != 0.0
    ensures y > 0.0 && x >= 0.0 ==> 0.0 <= r < y
    ensures y > 0.0 && x < 0.0 ==> -y < r <= 0.0
    ensures y > 0.0 ==> x - r == y * Trunc(x / y) as real
  {
    if y > 0.0 then ScaleBetween(x, y, Trunc(x / y) as real); x - y * Trunc(x / y) as real
    else x - y * Trunc(x / y) as real
  }

  /** Multiplying a <= x / y < a + 1, or a - 1 < x / y <= a, through by a positive y. */
  lemma ScaleBetween(x: real, y: real, a: real)
    requires y > 0.0
    ensures x >= 0.0 ==> x / y >= 0.0
    ensures a <= x / y < a + 1.0 ==> y * a <= x < y * a + y
    ensures a - 1.0 < x / y <= a ==> y * a - y < x <= y * a
  {
    var q := x / y;
    if a <= q < a + 1.0 {
      ScaleBelow(x, y, a);
      ScaleAbove(x, y, a + 1.0);
    }
    if a - 1.0 < q <= a {
      ScaleBelow(x, y, a - 1.0);
      ScaleAbove(x, y, a);
    }
  }

  /** c <= x / y gives y * c <= x, and c < x / y gives y * c < x. */
  lemma ScaleBelow(x: real, y: real, c: real)
    requires y > 0.0
    ensures c <= x / y ==> y * c <= x
    ensures c < x / y ==> y * c < x
  {
    var q := x / y;
    assert x == y * q;
    assert y * (q - c) == x - y * c;
    MulPositive(y, q - c);
  }

  /** x / y <= c gives x <= y * c, and x / y < c gives x < y * c. */
  lemma ScaleAbove(x: real, y: real, c: real)
    requires y > 0.0
    ensures x / y <= c ==> x <= y * c
    ensures x / y < c ==> x < y * c
  {
    var q := x / y;
    assert x == y * q;
    assert y * (c - q) == y * c - x;
    MulPositive(y, c - q);
  }

  lemma MulPositive(y: real, d: real)
    requires y > 0.0
    ensures d >= 0.0 ==> y * d >= 0.0
    ensures d > 0.0 ==> y * d > 0.0
  {
  }

  datatype Duration = Duration(hours: int, minutes: int)

  /** The two numbers formatTime prints: floor(m / 60) and round(m % 60). */
  function TimeParts(m: real): Duration
  {
    Duration((m / 60.0).Floor, CostModel.JsRound(JsRemainder(m, 60.0)))
  }

  /** formatTime: "<hours>h <minutes>min". */
  function FormatTime(m: real): string
  {
    var d := TimeParts(m);
    IntToString(d.hours) + "h " + IntToString(d.minutes) + "min"
  }

  /** For a non-negative number of minutes the parts add up to the rounded total, but the minutes may reach 60. */
  lemma TimePartsTotal(m: real)
    requires m >= 0.0
    ensures var d := TimeParts(m);
      && 0 <= d.minutes <= 60
      && d.hours * 60 + d.minutes == CostModel.JsRound(m)
  {
  }

  /** For a whole, non-negative number of minutes, 0 <= minutes < 60 and hours * 60 + minutes is the input. */
  lemma TimePartsWholeMinutes(m: int)
    requires m >= 0
    ensures var d := TimeParts(m as real);
      && 0 <= d.minutes < 60
      && d.hours * 60 + d.minutes == m
      && d.hours == m / 60 && d.minutes == m % 60
  {
  }

  /** 59.6 minutes prints as "0h 60min": the minutes round up to 60 without carrying into the hours. */
  lemma FormatTimeSixtyMinutes()
    ensures TimeParts(59.6) == Duration(0, 60)
    ensures FormatTime(59.6) == "0h 60min"
  {
    assert (59.6 / 60.0).Floor == 0;
    assert Trunc(59.6 / 60.0) == 0;
    assert JsRemainder(59.6, 60.0) == 59.6;
    assert CostModel.JsRound(59.6) == 60;
    assert NatToString(0) == "0";
    assert NatToString(6) == "6";
    assert NatToString(60) == "60";
  }

  /** formatTime as evidently intended: round the total first, then split it, so that minutes stay below 60. */
  function RoundedTimeParts(m: real): (d: Duration)
    ensures 0 <= d.minutes < 60
    ensures d.hours * 60 + d.minutes == CostModel.JsRound(m)
  {
    var t := CostModel.JsRound(m);
    Duration(t / 60, t % 60)
  }

  /** On whole, non-negative minutes the corrected split agrees with formatTime as written. */
  lemma RoundedTimePartsAgree(m: int)
    requires m >= 0
    ensures RoundedTimeParts(m as real) == TimeParts(m as real)
  {
    TimePartsWholeMinutes(m);
    assert CostModel.JsRound(m as real) == m;
  }
}
