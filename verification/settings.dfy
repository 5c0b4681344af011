/** The clip settings the component takes from its controls: the aspect
    table `ASPECTS` and the FPS field's clamp. */
module Settings {
  import opened Wrappers
  import opened JsString
  import opened Numbers

  /** Canvas size in pixels. */
  datatype Size = Size(w: nat, h: nat)

  /** `ASPECTS[key]` for the keys the aspect selector offers: the three
      table keys and their canvas sizes. The selector offers no other key,
      so any other key is modelled as absent. */
  function AspectSize(key: string): Option<Size>
  {
    if key == "16:9" then Some(Size(1920, 1080))
    else if key == "9:16" then Some(Size(1080, 1920))
    else if key == "1:1" then Some(Size(1080, 1080))
    else None
  }

  /** Reads a key of the form `<digits>:<digits>` as its two numbers. */
  function ParseRatio(key: string): Option<(nat, nat)>
  {
    if ':' !in key then None
    else
      var i := IndexOfColon(key);
      var a := key[..i];
      var b := key[i + 1..];
      if |a| == 0 || |b| == 0 || !AllDigits(a) || !AllDigits(b) then None
      else Some((ParseDecimal(a), ParseDecimal(b)))
  }

  predicate AllDigits(s: string)
  {
    forall i :: 0 <= i < |s| ==> '0' <= s[i] <= '9'
  }

  function IndexOfColon(s: string): (i: nat)
    requires ':' in s
    ensures i < |s| && s[i] == ':' && ':' !in s[..i]
  {
    if s[0] == ':' then 0
    else
      assert s == [s[0]] + s[1..];
      var j := IndexOfColon(s[1..]);
      assert s[..j + 1] == [s[0]] + s[1..][..j];
      j + 1
  }

  /** Every size in the table has exactly the proportions its key names,
      `w : h = a : b`, with the shorter side 1080 pixels; and exactly the
      three keys offered in the aspect selector are present. */
  lemma AspectMatchesKey(key: string)
    ensures AspectSize(key).Some? <==> key in {"16:9", "9:16", "1:1"}
    ensures AspectSize(key).Some? ==>
      && ParseRatio(key).Some?
      && var (a, b) := ParseRatio(key).value;
         var sz := AspectSize(key).value;
         && sz.w * b == sz.h * a
         && Min(sz.w, sz.h) == 1080
  {
    if key == "16:9" {
      RatioSixteenNine();
    } else if key == "9:16" {
      RatioNineSixteen();
    } else if key == "1:1" {
      RatioOneOne();
    }
  }

  lemma RatioSixteenNine()
    ensures ParseRatio("16:9") == Some((16, 9))
  {
    var k := "16:9";
    assert k[0] != ':' && k[1] != ':' && k[2] == ':';
    assert IndexOfColon(k[2..]) == 0;
    assert IndexOfColon(k[1..]) == 1 by { assert k[1..][1..] == k[2..]; }
    assert IndexOfColon(k) == 2;
    assert k[..2] == "16" && k[3..] == "9";
    DecimalDigits("16", 1, 6);
    DecimalDigit("9", 9);
  }

  lemma RatioNineSixteen()
    ensures ParseRatio("9:16") == Some((9, 16))
  {
    var k := "9:16";
    assert k[0] != ':' && k[1] == ':';
    assert IndexOfColon(k[1..]) == 0;
    assert IndexOfColon(k) == 1;
    assert k[..1] == "9" && k[2..] == "16";
    DecimalDigit("9", 9);
    DecimalDigits("16", 1, 6);
  }

  lemma RatioOneOne()
    ensures ParseRatio("1:1") == Some((1, 1))
  {
    var k := "1:1";
    assert k[0] != ':' && k[1] == ':';
    assert IndexOfColon(k[1..]) == 0;
    assert IndexOfColon(k) == 1;
    assert k[..1] == "1" && k[2..] == "1";
    DecimalDigit("1", 1);
  }

  /** A one-digit string reads as its digit. */
  lemma DecimalDigit(s: string, d: nat)
    requires d < 10 && s == [DigitChar(d)]
    ensures AllDigits(s) && ParseDecimal(s) == d
  {
    assert s[..0] == "";
  }

  /** A two-digit string reads as its tens and units. */
  lemma DecimalDigits(s: string, t: nat, u: nat)
    requires t < 10 && u < 10 && s == [DigitChar(t), DigitChar(u)]
    ensures AllDigits(s) && ParseDecimal(s) == 10 * t + u
  {
    assert s[..1] == [DigitChar(t)];
    DecimalDigit(s[..1], t);
  }

  /** The portrait size is the landscape size turned on its side. */
  lemma PortraitIsLandscapeTurned()
    ensures AspectSize("9:16").value == Size(AspectSize("16:9").value.h, AspectSize("16:9").value.w)
  {
  }

  /** A JavaScript number as `Number(e.target.value)` produces it: `NaN`,
      a finite value, or an infinity. */
  datatype JsNumber = NaN | Finite(v: real) | Infinity(negative: bool)

  const MinFps: real := 12.0
  const MaxFps: real := 60.0
  const DefaultFps: real := 30.0

  /** `x || 30`: NaN and zero are falsy and fall back to 30. */
  function OrDefault(x: JsNumber): JsNumber
  {
    if x == NaN || x == Finite(0.0) then Finite(DefaultFps) else x
  }

  /** `Math.max(12, Math.min(60, Number(v) || 30))` on the converted value. */
  function ClampFps(x: JsNumber): (fps: real)
    ensures MinFps <= fps <= MaxFps
    ensures x.Finite? && MinFps <= x.v <= MaxFps ==> fps == x.v
    ensures x == NaN || x == Finite(0.0) ==> fps == DefaultFps
    ensures x.Finite? && x.v != 0.0 && x.v < MinFps ==> fps == MinFps
    ensures x.Finite? && x.v > MaxFps ==> fps == MaxFps
    ensures x.Infinity? ==> fps == (if x.negative then MinFps else MaxFps)
  {
    match OrDefault(x)
    case Finite(v) =>
      MaxReal(MinFps, MinReal(MaxFps, v))
    case Infinity(negative) => if negative then MinFps else MaxFps
    case NaN => assert false; DefaultFps
  }

  /** Clamping a clamped value changes nothing. */
  lemma ClampFpsIdempotent(x: JsNumber)
    ensures ClampFps(Finite(ClampFps(x))) == ClampFps(x)
  {
  }
}
