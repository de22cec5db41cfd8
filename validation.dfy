/**
 * Dimension validation: the inclusive range rules for width and height, the
 * German-decimal normalisation of text input, and the whole-configuration check.
 */
module Validation {
  import opened JsNumber
  import opened PlateTypes
  import Layout

  datatype Dimension = Width | Height

  /** An inclusive range `[min, max]` in cm and the message shown when a value leaves it. */
  datatype Rule = Rule(min: real, max: real, message: string)

  /** The largest number of plates a configuration may hold. */
  const MAX_PLATES: nat := 10

  function RuleFor(d: Dimension): (rule: Rule)
    ensures rule.min <= rule.max
  {
    match d
    case Width => Rule(20.0, 300.0, "Breite muss zwischen 20 und 300 cm liegen")
    case Height => Rule(30.0, 128.0, "Höhe muss zwischen 30 und 128 cm liegen")
  }

  /** The shared dimension table of the application: minimum, maximum and default in cm. */
  datatype Bounds = Bounds(min: real, max: real, default: real)

  function PlateDimensions(d: Dimension): Bounds
  {
    match d
    case Width => Bounds(20.0, 300.0, 30.0)
    case Height => Bounds(30.0, 128.0, 30.0)
  }

  /** The validation rules agree with the dimension table, and each default lies within its rule. */
  lemma RulesMatchDimensionTable(d: Dimension)
    ensures RuleFor(d).min == PlateDimensions(d).min && RuleFor(d).max == PlateDimensions(d).max
    ensures RuleFor(d).min <= PlateDimensions(d).default <= RuleFor(d).max
  {
  }

  /** Index of the first `c` in `s`, or `|s|` when there is none. */
  function FirstIndexOf(s: string, c: char): (k: nat)
    ensures k <= |s|
    ensures k < |s| ==> s[k] == c
    ensures forall j :: 0 <= j < k ==> s[j] != c
  {
    if |s| == 0 then 0
    else if s[0] == c then 0
    else 1 + FirstIndexOf(s[1..], c)
  }

  /** `s.replace(a, b)` with a one-character pattern: only the FIRST `a` is replaced. */
  function ReplaceFirst(s: string, a: char, b: char): (r: string)
    ensures |r| == |s|
    ensures a !in s ==> r == s
    ensures a in s ==> var k := FirstIndexOf(s, a);
      r[k] == b && (forall j :: 0 <= j < |s| && j != k ==> r[j] == s[j])
  {
    var k := FirstIndexOf(s, a);
    if k == |s| then s else s[..k] + [b] + s[k + 1..]
  }

  /** Number of occurrences of `c` in `s`. */
  function Count(s: string, c: char): nat
  {
    if |s| == 0 then 0 else Count(s[..|s| - 1], c) + (if s[|s| - 1] == c then 1 else 0)
  }

  lemma {:induction false} CountZeroIffAbsent(s: string, c: char)
    ensures Count(s, c) == 0 <==> c !in s
  {
    if |s| > 0 {
      var init := s[..|s| - 1];
      CountZeroIffAbsent(init, c);
      assert s == init + [s[|s| - 1]];
      assert c in s <==> c in init || s[|s| - 1] == c;
    }
  }

  /** Replacing the first comma leaves one comma fewer and every other comma in place. */
  lemma ReplaceFirstCommaCount(s: string)
    ensures ',' in s ==> Count(ReplaceFirst(s, ',', '.'), ',') + 1 == Count(s, ',')
    ensures ',' !in s ==> ReplaceFirst(s, ',', '.') == s
  {
    if ',' in s {
      var k := FirstIndexOf(s, ',');
      var r := ReplaceFirst(s, ',', '.');
      assert s == s[..k] + [','] + s[k + 1..];
      assert r == s[..k] + ['.'] + s[k + 1..];
      CountAppend(s[..k] + [','], s[k + 1..], ',');
      CountAppend(s[..k], [','], ',');
      CountAppend(s[..k] + ['.'], s[k + 1..], ',');
      CountAppend(s[..k], ['.'], ',');
      assert Count([','], ',') == 1 by { assert [','][..0] == []; }
      assert Count(['.'], ',') == 0 by { assert ['.'][..0] == []; }
    }
  }

  lemma {:induction false} CountAppend(a: string, b: string, c: char)
    ensures Count(a + b, c) == Count(a, c) + Count(b, c)
    decreases |b|
  {
    if |b| == 0 {
      assert a + b == a;
    } else {
      var b' := b[..|b| - 1];
      CountAppend(a, b', c);
      assert (a + b)[..|a + b| - 1] == a + b';
    }
  }

  /**
   * `parseDecimalInput`: the first comma becomes a dot (German decimal
   * separator), then the text goes to the platform's `parseFloat`, which is
   * a parameter of the model.
   */
  function ParseDecimalInput(input: string, parseFloat: string -> Num): (n: Num)
    ensures ',' !in input ==> n == parseFloat(input)
  {
    parseFloat(ReplaceFirst(input, ',', '.'))
  }

  /** Only the first comma is normalised: "1,2,3" is parsed as "1.2,3". */
  lemma ParseReplacesOnlyFirstComma(parseFloat: string -> Num)
    ensures ParseDecimalInput("1,2,3", parseFloat) == parseFloat("1.2,3")
    ensures ParseDecimalInput("12,5", parseFloat) == parseFloat("12.5")
  {
    assert FirstIndexOf("1,2,3", ',') == 1 by {
      assert FirstIndexOf("1,2,3"[1..], ',') == 0;
    }
    assert "1,2,3"[..1] + ['.'] + "1,2,3"[2..] == "1.2,3";
    assert FirstIndexOf("12,5", ',') == 2 by {
      assert "12,5"[1..] == "2,5";
      assert FirstIndexOf("2,5"[1..], ',') == 0;
    }
    assert "12,5"[..2] + ['.'] + "12,5"[3..] == "12.5";
  }

  /** `{ isValid, error? }`. */
  datatype Validation = Validation(isValid: bool, error: Option<string>)

  /** `validateDimension`: NaN or a value outside the inclusive range is rejected with the rule's message. */
  function ValidateDimension(value: Num, d: Dimension): (v: Validation)
    ensures v.isValid <==> value.Fin? && RuleFor(d).min <= value.r <= RuleFor(d).max
    ensures v.error == if v.isValid then None else Some(RuleFor(d).message)
  {
    var rule := RuleFor(d);
    if value.NaN? || value.r < rule.min || value.r > rule.max then Validation(false, Some(rule.message))
    else Validation(true, None)
  }

  /** Both bounds are inclusive: 20 and 300 cm are valid widths, 19.9 and 300.1 are not. */
  lemma WidthBoundsAreInclusive()
    ensures ValidateDimension(Fin(20.0), Width).isValid && ValidateDimension(Fin(300.0), Width).isValid
    ensures !ValidateDimension(Fin(19.9), Width).isValid && !ValidateDimension(Fin(300.1), Width).isValid
    ensures !ValidateDimension(NaN, Width).isValid
  {
  }

  /** One plate passes the per-plate check of `isValidPlateConfiguration`. */
  predicate PlateIsValid(p: Plate)
  {
    ValidateDimension(p.width, Width).isValid && ValidateDimension(p.height, Height).isValid
  }

  /**
   * `isValidPlateConfiguration`: between 1 and 10 plates, and every plate
   * passes both dimension checks.
   */
  predicate IsValidPlateConfiguration(ps: seq<Plate>)
  {
    if |ps| == 0 || |ps| > MAX_PLATES then false
    else forall i :: 0 <= i < |ps| ==> PlateIsValid(ps[i])
  }

  /**
   * A configuration is valid exactly when it has 1 to 10 plates, all sizes
   * numeric, every width within 20..300 and every height within 30..128.
   */
  lemma ConfigurationBounds(ps: seq<Plate>)
    ensures IsValidPlateConfiguration(ps) <==>
      && 1 <= |ps| <= MAX_PLATES
      && AllFinite(ps)
      && forall i :: 0 <= i < |ps| ==> 20.0 <= ps[i].width.r <= 300.0 && 30.0 <= ps[i].height.r <= 128.0
  {
  }

  /** The default plate list, and a plate freshly added at 30 x 30, are valid. */
  lemma DefaultsAreValid(id: string)
    ensures IsValidPlateConfiguration(DEFAULT_PLATES)
    ensures PlateIsValid(Plate(id, Fin(30.0), Fin(30.0)))
  {
  }

  lemma {:induction false} SumWidthsBounded(ps: seq<Plate>, m: real)
    requires forall i :: 0 <= i < |ps| ==> Coerce(ps[i].width) <= m
    ensures Layout.SumWidths(ps) <= m * |ps| as real
  {
    if |ps| > 0 {
      var init := ps[..|ps| - 1];
      assert forall i :: 0 <= i < |init| ==> init[i] == ps[i];
      SumWidthsBounded(init, m);
    }
  }

  /**
   * For an accepted configuration the stage-width cap never applies: at
   * most ten plates of at most 300 cm give `pxW + 2 * PAD` well below 12000.
   */
  lemma ValidConfigurationIsNotCapped(ps: seq<Plate>)
    requires IsValidPlateConfiguration(ps)
    ensures Layout.ComputeSizes(ps).pxW + 2.0 * PAD < MAX_STAGE_WIDTH
    ensures Layout.ComputeSizes(ps).stageWidth == Layout.ComputeSizes(ps).pxW + 2.0 * PAD
  {
    SumWidthsBounded(ps, 300.0);
    assert Layout.SumWidths(ps) <= 3000.0;
  }
}
