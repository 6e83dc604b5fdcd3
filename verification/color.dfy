/** Conversion between RGBA and HSLA colours, over exact reals (crates/gpui/src/color.rs). */
module Colors {

  datatype Rgba = Rgba(r: real, g: real, b: real, a: real)

  datatype Hsla = Hsla(h: real, s: real, l: real, a: real)

  function Abs(x: real): real {
    if x < 0.0 then -x else x
  }

  function Max(x: real, y: real): real {
    if x < y then y else x
  }

  function Min(x: real, y: real): real {
    if y < x then y else x
  }

  function Clamp(x: real): real {
    if x < 0.0 then 0.0 else if x > 1.0 then 1.0 else x
  }

  /** Products and quotients of two variables, named so that proofs can treat them as such. */
  function Product(x: real, y: real): real {
    x * y
  }

  function Ratio(x: real, y: real): real
    requires y != 0.0
  {
    x / y
  }

  /** The `%` of floating point numbers, which takes the sign of the dividend. */
  function Remainder(x: real, m: real): real
    requires m > 0.0
  {
    if x >= 0.0 then x - m * (x / m).Floor as real else x + m * (-x / m).Floor as real
  }

  function RemEuclid(x: real, m: real): real
    requires m > 0.0
  {
    var r := Remainder(x, m);
    if r < 0.0 then r + m else r
  }

  /** How far the brightest channel is above the darkest. */
  function Chroma(s: real, l: real): real {
    Product(1.0 - Abs(2.0 * l - 1.0), s)
  }

  /** The channels for hue sector `sector`, before clamping. */
  function Channels(sector: int, cm: real, xm: real, m: real): (real, real, real) {
    match sector
    case 0 => (cm, xm, m)
    case 6 => (cm, xm, m)
    case 1 => (xm, cm, m)
    case 2 => (m, cm, xm)
    case 3 => (m, xm, cm)
    case 4 => (xm, m, cm)
    case _ => (cm, m, xm)
  }

  function Unclamped(color: Hsla): (real, real, real) {
    var c := Chroma(color.s, color.l);
    var x := Product(c, 1.0 - Abs(Remainder(color.h * 6.0, 2.0) - 1.0));
    var m := color.l - c / 2.0;
    Channels((color.h * 6.0).Floor, c + m, x + m, m)
  }

  function ToRgba(color: Hsla): Rgba {
    var (r, g, b) := Unclamped(color);
    Rgba(Clamp(r), Clamp(g), Clamp(b), color.a)
  }

  function Brightest(c: Rgba): real {
    Max(c.r, Max(c.g, c.b))
  }

  function Darkest(c: Rgba): real {
    Min(c.r, Min(c.g, c.b))
  }

  /** Six times the hue. */
  function HueAngle(c: Rgba): real {
    var delta := Brightest(c) - Darkest(c);
    if delta == 0.0 then 0.0
    else if Brightest(c) == c.r then RemEuclid(Ratio(c.g - c.b, delta), 6.0)
    else if Brightest(c) == c.g then Ratio(c.b - c.r, delta) + 2.0
    else Ratio(c.r - c.g, delta) + 4.0
  }

  function Saturation(delta: real, l: real): real {
    if l == 0.0 || l == 1.0 then 0.0
    else if l < 0.5 then Ratio(delta, 2.0 * l)
    else Ratio(delta, 2.0 - 2.0 * l)
  }

  function ToHsla(c: Rgba): Hsla {
    var l := (Brightest(c) + Darkest(c)) / 2.0;
    Hsla(HueAngle(c) / 6.0, Saturation(Brightest(c) - Darkest(c), l), l, c.a)
  }

  predicate InUnit(x: real) {
    0.0 <= x <= 1.0
  }

  predicate RgbaValid(c: Rgba) {
    InUnit(c.r) && InUnit(c.g) && InUnit(c.b)
  }

  predicate HslaValid(c: Hsla) {
    0.0 <= c.h < 1.0 && InUnit(c.s) && InUnit(c.l)
  }

  // ----- Arithmetic -----

  lemma Quotient(a: real, d: real)
    requires d > 0.0 && 0.0 <= a <= d
    ensures Product(d, Ratio(a, d)) == a
    ensures 0.0 <= Ratio(a, d) <= 1.0
    ensures a < d ==> Ratio(a, d) < 1.0
    ensures a == d ==> Ratio(a, d) == 1.0
    ensures a == 0.0 ==> Ratio(a, d) == 0.0
    ensures a > 0.0 ==> Ratio(a, d) > 0.0
    ensures Ratio(-a, d) == -Ratio(a, d)
  {
    var q := a / d;
    assert d * q == a;
    Sign(d, q);
    Sign(d, q - 1.0);
    assert d * (q - 1.0) == d * q - d;
    assert (-a) / d == -(a / d);
  }

  lemma Sign(d: real, x: real)
    requires d > 0.0
    ensures (d * x > 0.0 <==> x > 0.0) && (d * x == 0.0 <==> x == 0.0)
  {
  }

  lemma QuotientOfProduct(d: real, e: real)
    requires d > 0.0
    ensures Ratio(Product(d, e), d) == e
  {
  }

  lemma Scaled(d: real, e: real)
    requires d >= 0.0 && 0.0 <= e <= 1.0
    ensures 0.0 <= Product(d, e) <= d
    ensures d > 0.0 && e < 1.0 ==> Product(d, e) < d
    ensures d > 0.0 && e > 0.0 ==> Product(d, e) > 0.0
    ensures Product(d, 1.0 - e) == d - Product(d, e)
    ensures Product(d, 1.0) == d && Product(d, 0.0) == 0.0 && Product(0.0, e) == 0.0
  {
    assert d * (1.0 - e) == d - d * e;
    if d > 0.0 {
      Sign(d, e);
      Sign(d, 1.0 - e);
    }
  }

  lemma FloorIs(q: real, k: int)
    requires k as real <= q < k as real + 1.0
    ensures q.Floor == k
  {
  }

  lemma RemainderTwo(q: real, k: int)
    requires 0 <= k <= 6 && k as real <= q < k as real + 1.0
    ensures Remainder(q, 2.0) == if k % 2 == 0 then q - k as real else q - k as real + 1.0
  {
    FloorIs(q / 2.0, k / 2);
  }

  lemma RemEuclidSix(x: real)
    requires -1.0 <= x <= 1.0
    ensures RemEuclid(x, 6.0) == if x < 0.0 then x + 6.0 else x
  {
    if x < 0.0 {
      FloorIs(-x / 6.0, 0);
    } else {
      FloorIs(x / 6.0, 0);
    }
  }

  /** How high the middle channel is in sector `k`, at fraction `f` of it: rising in even sectors, falling in odd ones. */
  function Height(k: int, f: real): real {
    if k % 2 == 0 then f else 1.0 - f
  }

  lemma HeightIs(k: int, f: real)
    requires 0 <= k <= 6 && 0.0 <= f < 1.0
    ensures 1.0 - Abs(Remainder(k as real + f, 2.0) - 1.0) == Height(k, f)
    ensures (k as real + f).Floor == k
  {
    RemainderTwo(k as real + f, k);
    FloorIs(k as real + f, k);
  }

  /** Lightness and saturation determine the chroma ... */
  lemma ChromaOfSaturation(lo: real, hi: real)
    requires 0.0 <= lo <= hi <= 1.0
    ensures var l := (hi + lo) / 2.0;
            Chroma(Saturation(hi - lo, l), l) == hi - lo && InUnit(Saturation(hi - lo, l)) && InUnit(l)
  {
    hide Product, Ratio;
    var l := (hi + lo) / 2.0;
    if l == 0.0 || l == 1.0 {
      Scaled(0.0, 0.0);
    } else {
      Quotient(hi - lo, if l < 0.5 then 2.0 * l else 2.0 - 2.0 * l);
    }
  }

  /** ... and conversely, unless there is none. */
  lemma SaturationOfChroma(s: real, l: real)
    requires 0.0 < s <= 1.0 && 0.0 < l < 1.0
    ensures 0.0 < Chroma(s, l) && Saturation(Chroma(s, l), l) == s
    ensures 0.0 <= l - Chroma(s, l) / 2.0 && l + Chroma(s, l) / 2.0 <= 1.0
  {
    hide Product, Ratio;
    var w := 1.0 - Abs(2.0 * l - 1.0);
    assert w == if l < 0.5 then 2.0 * l else 2.0 - 2.0 * l;
    Scaled(w, s);
    QuotientOfProduct(w, s);
  }

  // ----- The six sectors -----

  /** A colour whose channels lie in sector `k`, between `lo` and `hi`, at fraction `f`. */
  ghost predicate LaidOut(c: Rgba, k: int, f: real, lo: real, hi: real, mid: real) {
    && 0 <= k <= 5 && 0.0 <= f < 1.0
    && (c.r, c.g, c.b) == Channels(k, hi, mid, lo)
    && mid - lo == Product(hi - lo, Height(k, f))
  }

  /** A hue given by sector and fraction lays the channels out accordingly; hue one is the seventh sector. */
  lemma LayOut(h: Hsla, k: int, f: real)
    requires 0 <= k <= 6 && 0.0 <= f < 1.0 && h.h * 6.0 == k as real + f
    ensures var d := Chroma(h.s, h.l);
            var lo := h.l - d / 2.0;
            Unclamped(h) == Channels(k, d + lo, Product(d, Height(k, f)) + lo, lo)
  {
    hide Product, Chroma, Channels;
    HeightIs(k, f);
  }

  /** Every colour lies in the sector its hue angle names. */
  lemma Sector(c: Rgba) returns (k: int, f: real, mid: real)
    requires RgbaValid(c) && Darkest(c) < Brightest(c)
    ensures LaidOut(c, k, f, Darkest(c), Brightest(c), mid) && HueAngle(c) == k as real + f
  {
    hide Product, Ratio, RemEuclid;
    if Brightest(c) == c.r {
      k, f, mid := SectorRed(c);
    } else if Brightest(c) == c.g {
      k, f, mid := SectorGreen(c);
    } else {
      k, f, mid := SectorBlue(c);
    }
  }

  lemma SectorRed(c: Rgba) returns (k: int, f: real, mid: real)
    requires RgbaValid(c) && Darkest(c) < Brightest(c) && Brightest(c) == c.r
    ensures LaidOut(c, k, f, Darkest(c), Brightest(c), mid) && HueAngle(c) == k as real + f
  {
    hide Product, Ratio, RemEuclid;
    var d := Brightest(c) - Darkest(c);
    Scaled(d, 0.0);
    if c.g >= c.b {
      Quotient(c.g - c.b, d);
      RemEuclidSix(Ratio(c.g - c.b, d));
      k, f, mid := if c.g < c.r then 0 else 1, if c.g < c.r then Ratio(c.g - c.b, d) else 0.0, c.g;
    } else {
      Quotient(c.b - c.g, d);
      assert c.g - c.b == -(c.b - c.g);
      RemEuclidSix(Ratio(c.g - c.b, d));
      k, f, mid := 5, 1.0 - Ratio(c.b - c.g, d), c.b;
      assert Height(k, f) == Ratio(c.b - c.g, d);
    }
  }

  lemma SectorGreen(c: Rgba) returns (k: int, f: real, mid: real)
    requires RgbaValid(c) && Darkest(c) < Brightest(c) && Brightest(c) != c.r && Brightest(c) == c.g
    ensures LaidOut(c, k, f, Darkest(c), Brightest(c), mid) && HueAngle(c) == k as real + f
  {
    hide Product, Ratio, RemEuclid;
    var d := Brightest(c) - Darkest(c);
    Scaled(d, 0.0);
    if c.b >= c.r {
      Quotient(c.b - c.r, d);
      k, f, mid := if c.b < c.g then 2 else 3, if c.b < c.g then Ratio(c.b - c.r, d) else 0.0, c.b;
    } else {
      Quotient(c.r - c.b, d);
      assert c.b - c.r == -(c.r - c.b);
      k, f, mid := 1, 1.0 - Ratio(c.r - c.b, d), c.r;
      assert Height(k, f) == Ratio(c.r - c.b, d);
    }
  }

  lemma SectorBlue(c: Rgba) returns (k: int, f: real, mid: real)
    requires RgbaValid(c) && Darkest(c) < Brightest(c) && Brightest(c) != c.r && Brightest(c) != c.g
    ensures LaidOut(c, k, f, Darkest(c), Brightest(c), mid) && HueAngle(c) == k as real + f
  {
    hide Product, Ratio, RemEuclid;
    var d := Brightest(c) - Darkest(c);
    if c.r >= c.g {
      Quotient(c.r - c.g, d);
      k, f, mid := 4, Ratio(c.r - c.g, d), c.r;
    } else {
      Quotient(c.g - c.r, d);
      assert c.r - c.g == -(c.g - c.r);
      k, f, mid := 3, 1.0 - Ratio(c.g - c.r, d), c.g;
      assert Height(k, f) == Ratio(c.g - c.r, d);
    }
  }

  /** Channels laid out in a sector have that sector and fraction as hue angle. */
  lemma AngleOfLayout(c: Rgba, k: int, f: real, lo: real, hi: real, mid: real)
    requires 0.0 <= lo < hi <= 1.0 && LaidOut(c, k, f, lo, hi, mid)
    ensures Brightest(c) == hi && Darkest(c) == lo && HueAngle(c) == k as real + f
  {
    hide Product, Ratio, RemEuclid;
    var d, e := hi - lo, Height(k, f);
    Scaled(d, e);
    QuotientOfProduct(d, e);
    Quotient(mid - lo, d);
    Quotient(d, d);
    assert lo - mid == -(mid - lo);
    RemEuclidSix(e);
    RemEuclidSix(-e);
    RemEuclidSix(1.0);
  }

  // ----- From RGBA and back -----

  /** Every colour survives the way to HSLA and back; the HSLA form is in range and the clamps do nothing. */
  lemma RgbaRoundTrip(c: Rgba)
    requires RgbaValid(c)
    ensures HslaValid(ToHsla(c))
    ensures Unclamped(ToHsla(c)) == (c.r, c.g, c.b)
    ensures ToRgba(ToHsla(c)) == c
  {
    var hi, lo := Brightest(c), Darkest(c);
    ChromaOfSaturation(lo, hi);
    if lo < hi {
      var k, f, mid := Sector(c);
      LayOut(ToHsla(c), k, f);
      hide Unclamped, HueAngle, Saturation, Chroma, Product, Brightest, Darkest, Channels;
    } else {
      GrayRoundTrip(c);
    }
  }

  /** Channels outside the range are clamped, so that exactly the colours in range survive. */
  lemma RgbaRoundTripExactly(c: Rgba)
    ensures ToRgba(ToHsla(c)) == c <==> RgbaValid(c)
  {
    hide ToHsla, Unclamped;
    if RgbaValid(c) {
      RgbaRoundTrip(c);
    }
  }

  lemma GrayRoundTrip(c: Rgba)
    requires RgbaValid(c) && Darkest(c) == Brightest(c)
    ensures ToHsla(c) == Hsla(0.0, 0.0, c.r, c.a) && Unclamped(ToHsla(c)) == (c.r, c.g, c.b)
  {
    hide Product, Ratio;
    assert c.r == c.g == c.b;
    if 0.0 < c.r < 1.0 {
      Quotient(0.0, if c.r < 0.5 then 2.0 * c.r else 2.0 - 2.0 * c.r);
    }
    assert ToHsla(c) == Hsla(0.0, 0.0, c.r, c.a);
    Scaled(1.0 - Abs(2.0 * c.r - 1.0), 0.0);
    LayOut(ToHsla(c), 0, 0.0);
    Scaled(0.0, 0.0);
  }

  // ----- Which hue is which -----

  /** The hue tells which channel is brightest and to which side it leans: red around zero, green around a third
      and blue around two thirds of the circle. */
  lemma HueTellsOrder(c: Rgba)
    requires RgbaValid(c) && Darkest(c) < Brightest(c)
    ensures var h := ToHsla(c).h * 6.0;
            && (c.g < c.r && c.b < c.r && c.b <= c.g ==> 0.0 <= h < 1.0)
            && (c.r <= c.g && c.b < c.g && c.b <= c.r ==> 1.0 <= h <= 2.0)
            && (c.r < c.g && c.b < c.g && c.r <= c.b ==> 2.0 <= h < 3.0)
            && (c.g <= c.b && c.r < c.b && c.r <= c.g ==> 3.0 <= h <= 4.0)
            && (c.g < c.b && c.r < c.b && c.g <= c.r ==> 4.0 <= h < 5.0)
            && (c.b <= c.r && c.g < c.r && c.g < c.b ==> 5.0 <= h < 6.0)
  {
    var d := Brightest(c) - Darkest(c);
    if Brightest(c) == c.r {
      Quotient(if c.g >= c.b then c.g - c.b else c.b - c.g, d);
      RemEuclidSix(Ratio(c.g - c.b, d));
      assert c.g - c.b == -(c.b - c.g);
    } else if Brightest(c) == c.g {
      Quotient(if c.b >= c.r then c.b - c.r else c.r - c.b, d);
      assert c.b - c.r == -(c.r - c.b);
    } else {
      Quotient(if c.r >= c.g then c.r - c.g else c.g - c.r, d);
      assert c.r - c.g == -(c.g - c.r);
    }
    hide Ratio, Product, RemEuclid;
  }

  /** The lightness lies halfway between the brightest and the darkest channel; the saturation is their distance as a
      share of the largest one that the lightness allows. */
  lemma LightnessAndSaturation(c: Rgba)
    requires RgbaValid(c)
    ensures var h := ToHsla(c);
            && h.l - Darkest(c) == Brightest(c) - h.l
            && (h.l <= 0.5 ==> h.s * (2.0 * h.l) == Brightest(c) - Darkest(c))
            && (h.l >= 0.5 ==> h.s * (2.0 - 2.0 * h.l) == Brightest(c) - Darkest(c))
  {
    hide Saturation, HueAngle, Brightest, Darkest, Product;
    DarkestAndBrightest(c);
    ChromaOfSaturation(Darkest(c), Brightest(c));
    var h := ToHsla(c);
    Commutes(1.0 - Abs(2.0 * h.l - 1.0), h.s);
  }

  lemma Commutes(x: real, y: real)
    ensures Product(x, y) == y * x
  {
  }

  lemma DarkestAndBrightest(c: Rgba)
    ensures c.r <= Brightest(c) && c.g <= Brightest(c) && c.b <= Brightest(c) && Brightest(c) in {c.r, c.g, c.b}
    ensures Darkest(c) <= c.r && Darkest(c) <= c.g && Darkest(c) <= c.b && Darkest(c) in {c.r, c.g, c.b}
    ensures RgbaValid(c) ==> 0.0 <= Darkest(c) <= Brightest(c) <= 1.0
  {
  }

  /** The pure colours, and black and white. */
  lemma PureColours(a: real)
    ensures ToHsla(Rgba(1.0, 0.0, 0.0, a)) == Hsla(0.0, 1.0, 0.5, a)
    ensures ToHsla(Rgba(1.0, 1.0, 0.0, a)) == Hsla(1.0 / 6.0, 1.0, 0.5, a)
    ensures ToHsla(Rgba(0.0, 1.0, 0.0, a)) == Hsla(1.0 / 3.0, 1.0, 0.5, a)
    ensures ToHsla(Rgba(0.0, 1.0, 1.0, a)) == Hsla(0.5, 1.0, 0.5, a)
    ensures ToHsla(Rgba(0.0, 0.0, 1.0, a)) == Hsla(2.0 / 3.0, 1.0, 0.5, a)
    ensures ToHsla(Rgba(1.0, 0.0, 1.0, a)) == Hsla(5.0 / 6.0, 1.0, 0.5, a)
    ensures ToHsla(Rgba(0.0, 0.0, 0.0, a)) == Hsla(0.0, 0.0, 0.0, a)
    ensures ToHsla(Rgba(1.0, 1.0, 1.0, a)) == Hsla(0.0, 0.0, 1.0, a)
  {
    RemEuclidSix(0.0);
    RemEuclidSix(1.0);
    RemEuclidSix(-1.0);
  }

  // ----- From HSLA and back -----

  lemma ColourfulRoundTrip(c: Hsla)
    requires HslaValid(c) && 0.0 < c.s && 0.0 < c.l < 1.0
    ensures ToHsla(ToRgba(c)) == c
  {
    SaturationOfChroma(c.s, c.l);
    hide Product, Chroma, Saturation;
    var d := Chroma(c.s, c.l);
    var lo, hi := c.l - d / 2.0, c.l + d / 2.0;
    var k := (c.h * 6.0).Floor;
    var f := c.h * 6.0 - k as real;
    LayOut(c, k, f);
    var mid := Product(d, Height(k, f)) + lo;
    Scaled(d, Height(k, f));
    hide Unclamped, Height;
    assert Unclamped(c) == Channels(k, hi, mid, lo);
    var rgb := ToRgba(c);
    assert LaidOut(rgb, k, f, lo, hi, mid);
    AngleOfLayout(rgb, k, f, lo, hi, mid);
    hide HueAngle, Brightest, Darkest, Channels;
  }

  /** Hue one is the same red as hue zero. */
  lemma HueOneIsHueZero(c: Hsla)
    requires c.h == 1.0
    ensures ToRgba(c) == ToRgba(c.(h := 0.0))
  {
    hide Product, Chroma;
    LayOut(c, 6, 0.0);
    LayOut(c.(h := 0.0), 0, 0.0);
  }

  /** What becomes of a colour on the way to RGBA and back: without chroma it forgets its hue and saturation,
      and hue one becomes hue zero. */
  function Canonical(c: Hsla): Hsla {
    if c.s == 0.0 || c.l == 0.0 || c.l == 1.0 then Hsla(0.0, 0.0, c.l, c.a)
    else if c.h == 1.0 then c.(h := 0.0)
    else c
  }

  /** For every colour that `hsla` can construct, hue one included. */
  lemma HslaComesBack(c: Hsla)
    requires InUnit(c.h) && InUnit(c.s) && InUnit(c.l)
    ensures ToHsla(ToRgba(c)) == Canonical(c)
  {
    hide ToRgba, ToHsla;
    if c.h == 1.0 {
      HueOneIsHueZero(c);
    }
    var d := if c.h == 1.0 then c.(h := 0.0) else c;
    if 0.0 < c.s && 0.0 < c.l < 1.0 {
      ColourfulRoundTrip(d);
    } else {
      NoChroma(d);
      GrayOf(d);
    }
  }

  lemma GrayOf(c: Hsla)
    requires InUnit(c.l) && Unclamped(c) == (c.l, c.l, c.l)
    ensures ToHsla(ToRgba(c)) == Hsla(0.0, 0.0, c.l, c.a)
  {
    hide Unclamped, HueAngle, Saturation;
    assert ToRgba(c) == Rgba(c.l, c.l, c.l, c.a);
    GrayRoundTrip(ToRgba(c));
  }

  /** So a colour survives exactly if it has a hue below one to remember, or has hue and saturation zero. */
  lemma HslaRoundTrip(c: Hsla)
    requires InUnit(c.h) && InUnit(c.s) && InUnit(c.l)
    ensures ToHsla(ToRgba(c)) == c
            <==> (c.h < 1.0 && 0.0 < c.s && 0.0 < c.l < 1.0) || (c.h == 0.0 && c.s == 0.0)
  {
    hide ToRgba, ToHsla;
    HslaComesBack(c);
  }

  lemma NoChroma(c: Hsla)
    requires HslaValid(c) && (c.s == 0.0 || c.l == 0.0 || c.l == 1.0)
    ensures Unclamped(c) == (c.l, c.l, c.l)
  {
    hide Product;
    Scaled(1.0 - Abs(2.0 * c.l - 1.0), 0.0);
    Scaled(0.0, c.s);
    assert Chroma(c.s, c.l) == 0.0;
    var k := (c.h * 6.0).Floor;
    var f := c.h * 6.0 - k as real;
    LayOut(c, k, f);
    Scaled(0.0, Height(k, f));
  }
}
