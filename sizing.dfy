/**
 * The dimension sliders: centimetre values turned into the box scale, and the
 * info label that echoes them.
 *
 * A slider value is modelled as the integer a range input with integer step
 * holds; the label shows that value's decimal text, the box scale is the value
 * times 0.01 computed exactly (no IEEE rounding).
 */
module Sizing {
  import opened Wrappers
  import opened Geometry

  /** The box scale createBox starts with: 0.3 on each axis. */
  const InitialScale: Vec3 := Vec3(0.3, 0.3, 0.3)

  /** Box scale in engine units (metres) for slider values in centimetres. */
  function Scale(w: int, h: int, d: int): (r: Vec3)
    ensures r.x * 100.0 == w as real && r.y * 100.0 == h as real && r.z * 100.0 == d as real
  {
    Vec3(w as real * 0.01, h as real * 0.01, d as real * 0.01)
  }

  /** The initial scale is what sliders standing at 30 cm would produce. */
  lemma InitialScaleIsThirtyCentimetres()
    ensures Scale(30, 30, 30) == InitialScale
  {
  }

  // ---------------------------------------------------------------------------
  // Decimal text of a slider value

  predicate IsDigit(c: char) {
    '0' <= c <= '9'
  }

  predicate AllDigits(s: string) {
    forall i :: 0 <= i < |s| ==> IsDigit(s[i])
  }

  function DigitChar(d: nat): (c: char)
    requires d < 10
    ensures IsDigit(c) && c as int - '0' as int == d
  {
    ('0' as int + d) as char
  }

  /** Decimal digits of a natural number, most significant first, without leading zeros. */
  function Digits(n: nat): (s: string)
    ensures |s| >= 1 && AllDigits(s)
    ensures |s| > 1 ==> s[0] != '0'
    decreases n
  {
    if n < 10 then [DigitChar(n)] else Digits(n / 10) + [DigitChar(n % 10)]
  }

  /** The number a string of decimal digits denotes (the empty string denotes 0). */
  function DigitsValue(s: string): nat
    requires AllDigits(s)
  {
    if |s| == 0 then 0
    else 10 * DigitsValue(s[..|s| - 1]) + (s[|s| - 1] as int - '0' as int)
  }

  lemma {:induction false} DigitsRoundTrip(n: nat)
    ensures DigitsValue(Digits(n)) == n
    decreases n
  {
    if n >= 10 {
      var s := Digits(n);
      assert s[..|s| - 1] == Digits(n / 10);
      DigitsRoundTrip(n / 10);
    }
  }

  /** The text of an integer slider value, as the browser writes it: optional minus, then digits. */
  function Decimal(v: int): (s: string)
    ensures |s| >= 1 && (AllDigits(s) || (s[0] == '-' && AllDigits(s[1..])))
  {
    if v < 0 then "-" + Digits(-v) else Digits(v)
  }

  predicate NoSpace(s: string) {
    forall i :: 0 <= i < |s| ==> s[i] != ' '
  }

  /** Reads back the text Decimal writes; None for anything else. */
  function ParseDecimal(s: string): (r: Option<int>)
    ensures r.Some? ==> |s| >= 1
  {
    if |s| >= 2 && s[0] == '-' && AllDigits(s[1..]) then Some(-(DigitsValue(s[1..]) as int))
    else if |s| >= 1 && AllDigits(s) then Some(DigitsValue(s))
    else None
  }

  /** The label text is an exact rendering of each slider value: it can be read back. */
  lemma DecimalRoundTrip(v: int)
    ensures ParseDecimal(Decimal(v)) == Some(v)
    ensures NoSpace(Decimal(v))
  {
    if v < 0 {
      var s := Decimal(v);
      assert s[1..] == Digits(-v);
      DigitsRoundTrip(-v);
    } else {
      DigitsRoundTrip(v);
    }
  }

  // ---------------------------------------------------------------------------
  // The info label

  /** "サイズ: " ("size: "), the label's fixed prefix. */
  const LabelPrefix: string := "\U{30B5}\U{30A4}\U{30BA}: "

  /** The info label text for slider values w, h, d. */
  function Label(w: int, h: int, d: int): (s: string)
    ensures |s| > |LabelPrefix| && s[..|LabelPrefix|] == LabelPrefix
    ensures s[|s| - 3..] == " cm"
  {
    LabelPrefix + Decimal(w) + " x " + Decimal(h) + " x " + Decimal(d) + " cm"
  }

  lemma SpaceAfterWord(a: string, b: string)
    ensures (a + ([' '] + b))[|a|] == ' '
  {
  }

  /** Two texts that both start with a space-free word followed by a space split the same way. */
  lemma SplitAtFirstSpace(a: string, b: string, a': string, b': string)
    requires NoSpace(a) && NoSpace(a')
    requires a + ([' '] + b) == a' + ([' '] + b')
    ensures a == a' && b == b'
  {
    var s := a + ([' '] + b);
    if |a| < |a'| {
      SpaceAfterWord(a, b);
      assert false;
    } else if |a'| < |a| {
      SpaceAfterWord(a', b');
      assert false;
    }
    assert a == s[..|a|] && a' == s[..|a'|];
    assert b == s[|a| + 1..] && b' == s[|a'| + 1..];
  }

  lemma PrefixCancel(p: string, x: string, y: string)
    requires p + x == p + y
    ensures x == y
  {
    assert x == (p + x)[|p|..];
    assert y == (p + y)[|p|..];
  }

  /** What follows the width in the label: "x <h> x <d> cm". */
  function AfterWidth(h: int, d: int): string {
    "x " + Decimal(h) + " x " + Decimal(d) + " cm"
  }

  /** What follows the height in the label: "x <d> cm". */
  function AfterHeight(d: int): string {
    "x " + Decimal(d) + " cm"
  }

  lemma LabelShape(w: int, h: int, d: int)
    ensures Label(w, h, d) == LabelPrefix + (Decimal(w) + ([' '] + AfterWidth(h, d)))
  {
  }

  lemma AfterWidthShape(h: int, d: int)
    ensures AfterWidth(h, d) == "x " + (Decimal(h) + ([' '] + AfterHeight(d)))
  {
  }

  lemma AfterHeightShape(d: int)
    ensures AfterHeight(d) == "x " + (Decimal(d) + ([' '] + "cm"))
  {
  }

  /** The label determines the three slider values: different sizes never show the same text. */
  lemma LabelInjective(w: int, h: int, d: int, w': int, h': int, d': int)
    requires Label(w, h, d) == Label(w', h', d')
    ensures w == w' && h == h' && d == d'
  {
    DecimalRoundTrip(w); DecimalRoundTrip(h); DecimalRoundTrip(d);
    DecimalRoundTrip(w'); DecimalRoundTrip(h'); DecimalRoundTrip(d');
    LabelShape(w, h, d); LabelShape(w', h', d');
    PrefixCancel(LabelPrefix, Decimal(w) + ([' '] + AfterWidth(h, d)), Decimal(w') + ([' '] + AfterWidth(h', d')));
    SplitAtFirstSpace(Decimal(w), AfterWidth(h, d), Decimal(w'), AfterWidth(h', d'));
    AfterWidthShape(h, d); AfterWidthShape(h', d');
    PrefixCancel("x ", Decimal(h) + ([' '] + AfterHeight(d)), Decimal(h') + ([' '] + AfterHeight(d')));
    SplitAtFirstSpace(Decimal(h), AfterHeight(d), Decimal(h'), AfterHeight(d'));
    AfterHeightShape(d); AfterHeightShape(d');
    PrefixCancel("x ", Decimal(d) + ([' '] + "cm"), Decimal(d') + ([' '] + "cm"));
    SplitAtFirstSpace(Decimal(d), "cm", Decimal(d'), "cm");
  }

  /** The worked example: sliders at 25, 30 and 15 cm. */
  lemma LabelAndScaleExample()
    ensures Label(25, 30, 15) == "\U{30B5}\U{30A4}\U{30BA}: 25 x 30 x 15 cm"
    ensures Scale(25, 30, 15) == Vec3(0.25, 0.30, 0.15)
  {
    assert Digits(25) == "25";
    assert Digits(30) == "30";
    assert Digits(15) == "15";
  }
}
