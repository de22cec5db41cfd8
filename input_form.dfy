/**
 * The text-input rules of the plate input form: which keystrokes are taken,
 * the decimal-separator and one-decimal-place rules, the boundary check that
 * picks the first failing rule, the "revert to the last valid value" on blur,
 * and the millimetre read-out under each field.
 */
module InputForm {
  import opened JsNumber
  import Validation

  // ---------------------------------------------------------------------
  // Text predicates
  // ---------------------------------------------------------------------

  /** The characters `String.prototype.trim` removes. */
  predicate IsJsWhitespace(c: char)
  {
    || c == '\t' || c == '\n' || c == '\U{000B}' || c == '\U{000C}' || c == '\r' || c == ' '
    || c == '\U{00A0}' || c == '\U{1680}' || ('\U{2000}' <= c <= '\U{200A}')
    || c == '\U{2028}' || c == '\U{2029}' || c == '\U{202F}' || c == '\U{205F}'
    || c == '\U{3000}' || c == '\U{FEFF}'
  }

  /** `!value || value.trim() === ''`. */
  predicate IsBlank(s: string)
  {
    forall i :: 0 <= i < |s| ==> IsJsWhitespace(s[i])
  }

  predicate IsDigit(c: char) { '0' <= c <= '9' }

  predicate IsSeparator(c: char) { c == '.' || c == ',' }

  /** `/^[0-9.,]*$/`. */
  predicate MatchesNumberRegex(s: string)
  {
    forall i :: 0 <= i < |s| ==> IsDigit(s[i]) || IsSeparator(s[i])
  }

  /** `validateDecimalFormat`: empty, or at most one '.' or ',' in total. */
  predicate ValidateDecimalFormat(s: string)
  {
    s == "" || Validation.Count(s, '.') + Validation.Count(s, ',') <= 1
  }

  /** `s.split(c)` for a one-character separator. */
  function Split(s: string, c: char): (parts: seq<string>)
    ensures |parts| >= 1
    decreases |s|
  {
    var k := Validation.FirstIndexOf(s, c);
    if k == |s| then [s] else [s[..k]] + Split(s[k + 1..], c)
  }

  /**
   * `validateSingleDecimal`: with a '.' (or else a ',') the text must split
   * into exactly two parts whose second has at most one character.
   */
  predicate ValidateSingleDecimal(s: string)
  {
    if s == "" then true
    else if '.' in s then var parts := Split(s, '.'); |parts| == 2 && |parts[1]| <= 1
    else if ',' in s then var parts := Split(s, ','); |parts| == 2 && |parts[1]| <= 1
    else true
  }

  // ---------------------------------------------------------------------
  // Properties of the text predicates
  // ---------------------------------------------------------------------

  /** Splitting gives one part more than there are separators. */
  lemma {:induction false} SplitLength(s: string, c: char)
    ensures |Split(s, c)| == Validation.Count(s, c) + 1
    decreases |s|
  {
    var k := Validation.FirstIndexOf(s, c);
    if k == |s| {
      Validation.CountZeroIffAbsent(s, c);
    } else {
      SplitCountAt(s, c);
      SplitLength(s[k + 1..], c);
    }
  }

  /** Around the first separator the count splits into none before, one, and the rest after. */
  lemma SplitCountAt(s: string, c: char)
    requires Validation.FirstIndexOf(s, c) < |s|
    ensures var k := Validation.FirstIndexOf(s, c);
      Validation.Count(s, c) == 1 + Validation.Count(s[k + 1..], c)
  {
    var k := Validation.FirstIndexOf(s, c);
    assert s == s[..k] + [c] + s[k + 1..];
    Validation.CountAppend(s[..k] + [c], s[k + 1..], c);
    Validation.CountAppend(s[..k], [c], c);
    Validation.CountZeroIffAbsent(s[..k], c);
    assert Validation.Count([c], c) == 1 by { assert [c][..0] == []; }
  }

  /** With a single separator the parts are the text before it and the text after it. */
  lemma SplitOnce(s: string, c: char)
    requires Validation.Count(s, c) == 1
    ensures var k := Validation.FirstIndexOf(s, c);
      k < |s| && Split(s, c) == [s[..k], s[k + 1..]]
  {
    Validation.CountZeroIffAbsent(s, c);
    SplitCountAt(s, c);
    var k := Validation.FirstIndexOf(s, c);
    Validation.CountZeroIffAbsent(s[k + 1..], c);
  }

  /**
   * The one-decimal rule in terms of positions: the separator that counts
   * ('.' when present, else ',') occurs at most once and at most one
   * character follows it.
   */
  lemma SingleDecimalIff(s: string)
    ensures ValidateSingleDecimal(s) <==>
      s == "" ||
      var sep := if '.' in s then '.' else ',';
      sep !in s || (Validation.Count(s, sep) == 1 && Validation.FirstIndexOf(s, sep) + 2 >= |s|)
  {
    if s != "" {
      var sep := if '.' in s then '.' else ',';
      if sep in s {
        SplitLength(s, sep);
        Validation.CountZeroIffAbsent(s, sep);
        if Validation.Count(s, sep) == 1 {
          SplitOnce(s, sep);
        }
      }
    }
  }

  /** Two separators at different positions make the format check count at least two. */
  lemma TwoSeparatorsCount(s: string, i: nat, j: nat)
    requires i < j < |s| && IsSeparator(s[i])
    ensures IsSeparator(s[j]) ==> Validation.Count(s, '.') + Validation.Count(s, ',') >= 2
  {
    if IsSeparator(s[j]) {
      Validation.CountAppend(s[..j], s[j..], '.');
      Validation.CountAppend(s[..j], s[j..], ',');
      assert s == s[..j] + s[j..];
      assert s[..j][i] == s[i];
      assert s[j..][0] == s[j];
      Validation.CountZeroIffAbsent(s[..j], s[i]);
      Validation.CountZeroIffAbsent(s[j..], s[j]);
    }
  }

  /**
   * A text passing both format rules has at most one separator, and at most
   * one character after it.
   */
  lemma PassingTextShape(s: string)
    requires ValidateDecimalFormat(s) && ValidateSingleDecimal(s)
    ensures forall i, j :: 0 <= i < j < |s| && IsSeparator(s[i]) ==> !IsSeparator(s[j])
    ensures forall i :: 0 <= i < |s| && IsSeparator(s[i]) ==> i + 2 >= |s|
  {
    forall i, j | 0 <= i < j < |s| && IsSeparator(s[i]) ensures !IsSeparator(s[j]) {
      TwoSeparatorsCount(s, i, j);
    }
    SingleDecimalIff(s);
    forall i | 0 <= i < |s| && IsSeparator(s[i]) ensures i + 2 >= |s| {
      var sep := if '.' in s then '.' else ',';
      var k := Validation.FirstIndexOf(s, s[i]);
      assert k <= i;
      assert s[i] == sep;
      Validation.CountZeroIffAbsent(s, sep);
    }
  }

  /** "5." passes the one-decimal rule: an empty fraction is allowed. */
  lemma TrailingSeparatorPasses()
    ensures ValidateSingleDecimal("5.")
  {
    var s := "5.";
    assert s[0] == '5' && s[1] == '.';
    assert Validation.FirstIndexOf(s, '.') == 1 by {
      assert s[1..] == ['.'];
    }
    SplitCountAt(s, '.');
    assert s[2..] == [];
    SingleDecimalIff(s);
  }

  /** "5.25" fails the one-decimal rule: two characters follow the separator. */
  lemma TwoDecimalsFail()
    ensures !ValidateSingleDecimal("5.25")
  {
    var s := "5.25";
    assert s[1] == '.';
    SingleDecimalIff(s);
    assert Validation.FirstIndexOf(s, '.') <= 1;
  }

  /** "1.2.3" fails the one-decimal rule: it splits into three parts. */
  lemma TwoSeparatorsFail()
    ensures !ValidateSingleDecimal("1.2.3")
  {
    var s := "1.2.3";
    assert s[1] == '.' && s[3] == '.';
    SingleDecimalIff(s);
    TwoSeparatorsCount(s, 1, 3);
    Validation.CountZeroIffAbsent(s, ',');
  }

  // ---------------------------------------------------------------------
  // validateBoundary
  // ---------------------------------------------------------------------

  /** The error shown under a field; `NoError` is the empty string. */
  datatype FieldError =
    | NoError
    | Required
    | InvalidNumber
    | OneDecimalOnly
    | BelowMin(min: nat)
    | AboveMax(max: nat)

  function DigitChar(d: nat): char
    requires d < 10
  {
    ('0' as int + d) as char
  }

  /** The number a string of decimal digits denotes, most significant digit first. */
  function DecimalValue(s: string): nat
    requires forall i :: 0 <= i < |s| ==> IsDigit(s[i])
  {
    if |s| == 0 then 0
    else
      assert IsDigit(s[|s| - 1]);
      DecimalValue(s[..|s| - 1]) * 10 + (s[|s| - 1] as int - '0' as int)
  }

  /** A whole number written in decimal, as a template literal shows it. */
  function NatToString(n: nat): (s: string)
    ensures |s| >= 1
    ensures forall i :: 0 <= i < |s| ==> IsDigit(s[i])
    ensures DecimalValue(s) == n
    ensures s[0] == '0' ==> n == 0
  {
    if n < 10 then [DigitChar(n)] else NatToString(n / 10) + [DigitChar(n % 10)]
  }

  /** The text shown for each error. */
  function Message(e: FieldError): string
  {
    match e
    case NoError => ""
    case Required => "This field is required"
    case InvalidNumber => "Please enter a valid number"
    case OneDecimalOnly => "Only one decimal place allowed"
    case BelowMin(min) => "Value must be at least " + NatToString(min) + " cm"
    case AboveMax(max) => "Value must not exceed " + NatToString(max) + " cm"
  }

  /** Only the absence of an error is shown as an empty text. */
  lemma MessageEmptyIffNoError(e: FieldError)
    ensures Message(e) == "" <==> e == NoError
  {
    if e != NoError {
      assert |Message(e)| > 0;
    }
  }

  lemma NatToStringExamples()
    ensures NatToString(20) == "20" && NatToString(128) == "128"
    ensures NatToString(30) == "30" && NatToString(300) == "300"
  {
    assert NatToString(2) == "2";
    assert NatToString(1) == "1";
    assert NatToString(12) == "12";
    assert NatToString(3) == "3";
    assert NatToString(30) == "30";
  }

  /** The bound messages write the bound in decimal: "Value must be at least 20 cm". */
  lemma BoundMessages()
    ensures Message(BelowMin(20)) == "Value must be at least 20 cm"
    ensures Message(AboveMax(128)) == "Value must not exceed 128 cm"
  {
    NatToStringExamples();
  }

  /**
   * The error `validateBoundary` reports: the first failing rule in the
   * order required, format, one decimal place, number, minimum, maximum.
   */
  function BoundaryError(parse: string -> Num, s: string, min: nat, max: nat): FieldError
  {
    if IsBlank(s) then Required
    else if !ValidateDecimalFormat(s) then InvalidNumber
    else if !ValidateSingleDecimal(s) then OneDecimalOnly
    else
      var n := Validation.ParseDecimalInput(s, parse);
      if n.NaN? then InvalidNumber
      else if n.r < min as real then BelowMin(min)
      else if n.r > max as real then AboveMax(max)
      else NoError
  }

  /** The form's bounds for a dimension, from the shared dimension table. */
  function MinOf(d: Validation.Dimension): nat
  {
    match d
    case Width => 20
    case Height => 30
  }

  function MaxOf(d: Validation.Dimension): nat
  {
    match d
    case Width => 300
    case Height => 128
  }

  /**
   * The form accepts a text exactly when it is not blank, passes both
   * format rules, and the parsed value passes the store's dimension rule:
   * whatever the form accepts, `updatePlateDimension` accepts too.
   */
  lemma BoundaryMatchesDimensionRule(parse: string -> Num, s: string, d: Validation.Dimension)
    ensures BoundaryError(parse, s, MinOf(d), MaxOf(d)) == NoError <==>
      && !IsBlank(s)
      && ValidateDecimalFormat(s)
      && ValidateSingleDecimal(s)
      && Validation.ValidateDimension(Validation.ParseDecimalInput(s, parse), d).isValid
  {
    assert MinOf(d) as real == Validation.PlateDimensions(d).min;
    assert MaxOf(d) as real == Validation.PlateDimensions(d).max;
    Validation.RulesMatchDimensionTable(d);
  }

  /** Accepted text has at most one separator with at most one character (of any kind) after it, and parses in range. */
  lemma AcceptedText(parse: string -> Num, s: string, min: nat, max: nat)
    requires BoundaryError(parse, s, min, max) == NoError
    ensures s != ""
    ensures forall i, j :: 0 <= i < j < |s| && IsSeparator(s[i]) ==> !IsSeparator(s[j])
    ensures forall i :: 0 <= i < |s| && IsSeparator(s[i]) ==> i + 2 >= |s|
    ensures var n := Validation.ParseDecimalInput(s, parse); n.Fin? && min as real <= n.r <= max as real
  {
    PassingTextShape(s);
  }

  /** A blank text is reported as required before any other rule. */
  lemma BlankIsRequired(parse: string -> Num, min: nat, max: nat)
    ensures BoundaryError(parse, "", min, max) == Required
    ensures BoundaryError(parse, "  ", min, max) == Required
  {
  }

  /** The format rule comes first: "1.2.3" is reported as an invalid number. */
  lemma TwoSeparatorsAreInvalidNumber(parse: string -> Num, min: nat, max: nat)
    ensures BoundaryError(parse, "1.2.3", min, max) == InvalidNumber
  {
    var s := "1.2.3";
    assert s[0] == '1' && s[1] == '.' && s[3] == '.';
    assert !IsJsWhitespace(s[0]);
    TwoSeparatorsCount(s, 1, 3);
  }

  /** Then the one-decimal rule: "5.25" is reported as too many decimals. */
  lemma TwoDecimalsAreReported(parse: string -> Num, min: nat, max: nat)
    ensures BoundaryError(parse, "5.25", min, max) == OneDecimalOnly
  {
    var s := "5.25";
    assert s[0] == '5' && s[1] == '.';
    assert !IsJsWhitespace(s[0]);
    assert Validation.FirstIndexOf(s, '.') == 1 by {
      assert s[1..] == ".25";
    }
    SplitCountAt(s, '.');
    assert s[2..] == "25";
    assert '.' !in s[2..];
    Validation.CountZeroIffAbsent(s[2..], '.');
    assert ',' !in s;
    Validation.CountZeroIffAbsent(s, ',');
    TwoDecimalsFail();
  }

  /**
   * `convertToMm` without the number formatting: the last valid text when an
   * error is shown, 0 for an empty text or NaN, and otherwise the value times 10.
   */
  function ConvertToMm(parse: string -> Num, value: string, hasError: bool, lastValid: string): real
  {
    var v := if hasError then lastValid else value;
    if v == "" then 0.0
    else
      var n := Validation.ParseDecimalInput(v, parse);
      if n.NaN? then 0.0 else n.r * 10.0
  }

  /**
   * When the shown text (the last valid one under an error, the current one
   * otherwise) passes the boundary check, the read-out lies between ten
   * times the minimum and ten times the maximum.
   */
  lemma ConvertToMmWithinBounds(parse: string -> Num, value: string, hasError: bool, lastValid: string,
                                min: nat, max: nat)
    requires BoundaryError(parse, lastValid, min, max) == NoError
    requires !hasError ==> BoundaryError(parse, value, min, max) == NoError
    ensures 10.0 * min as real <= ConvertToMm(parse, value, hasError, lastValid) <= 10.0 * max as real
  {
    var v := if hasError then lastValid else value;
    AcceptedText(parse, v, min, max);
  }

  // ---------------------------------------------------------------------
  // One input field: value, error and last valid value
  // ---------------------------------------------------------------------

  /** The default text of both fields. */
  const DEFAULT_TEXT: string := "30"

  /**
   * One dimension field of the form: the text shown, the error under it and
   * the last value that passed the boundary check.
   */
  class DimensionField {
    const min: nat
    const max: nat
    /** The platform's `parseFloat`. */
    const parse: string -> Num
    var value: string
    var error: FieldError
    var lastValid: string

    /** The last valid text passes, and the error always describes the current text. */
    predicate Valid()
      reads this
    {
      && BoundaryError(parse, lastValid, min, max) == NoError
      && error == BoundaryError(parse, value, min, max)
    }

    /** Both fields start at "30"; `parse` must read "30" as 30. */
    constructor (d: Validation.Dimension, parse: string -> Num)
      requires parse(DEFAULT_TEXT) == Fin(30.0)
      ensures this.min == MinOf(d) && this.max == MaxOf(d) && this.parse == parse
      ensures value == DEFAULT_TEXT && lastValid == DEFAULT_TEXT && error == NoError
      ensures Valid()
    {
      min := MinOf(d);
      max := MaxOf(d);
      this.parse := parse;
      value := DEFAULT_TEXT;
      lastValid := DEFAULT_TEXT;
      error := NoError;
      new;
      assert !IsBlank(DEFAULT_TEXT) by { assert !IsJsWhitespace(DEFAULT_TEXT[0]); }
      assert ValidateDecimalFormat(DEFAULT_TEXT) by {
        Validation.CountZeroIffAbsent(DEFAULT_TEXT, '.');
        Validation.CountZeroIffAbsent(DEFAULT_TEXT, ',');
      }
    }

    /** `validateBoundary`: sets the error of the first failing rule and reports whether none failed. */
    method ValidateBoundary(s: string) returns (ok: bool)
      modifies this
      ensures error == BoundaryError(parse, s, min, max)
      ensures ok <==> error == NoError
      ensures value == old(value) && lastValid == old(lastValid)
    {
      if IsBlank(s) {
        error := Required;
        return false;
      }
      if !ValidateDecimalFormat(s) {
        error := InvalidNumber;
        return false;
      }
      if !ValidateSingleDecimal(s) {
        error := OneDecimalOnly;
        return false;
      }
      var n := Validation.ParseDecimalInput(s, parse);
      if n.NaN? {
        error := InvalidNumber;
        return false;
      }
      if n.r < min as real {
        error := BelowMin(min);
        return false;
      }
      if n.r > max as real {
        error := AboveMax(max);
        return false;
      }
      error := NoError;
      return true;
    }

    /**
     * `handleNumberInput`: text with a character outside `[0-9.,]` is
     * ignored; otherwise it is shown, checked, and remembered when it passes.
     */
    method HandleNumberInput(s: string)
      requires Valid()
      modifies this
      ensures Valid()
      ensures !MatchesNumberRegex(s) ==>
        value == old(value) && error == old(error) && lastValid == old(lastValid)
      ensures MatchesNumberRegex(s) ==>
        && value == s
        && error == BoundaryError(parse, s, min, max)
        && lastValid == (if error == NoError then s else old(lastValid))
    {
      if MatchesNumberRegex(s) {
        value := s;
        if IsBlank(s) {
          error := Required;
        } else {
          var ok := ValidateBoundary(s);
          if ok {
            lastValid := s;
          }
        }
      }
    }

    /**
     * `handleBlur`: a text that fails the boundary check (a blank one
     * included) is replaced by the last valid text, and the error is cleared.
     */
    method HandleBlur()
      requires Valid()
      modifies this
      ensures Valid()
      ensures error == NoError
      ensures value == if BoundaryError(parse, old(value), min, max) == NoError then old(value) else old(lastValid)
      ensures lastValid == old(lastValid)
    {
      var current := value;
      if IsBlank(current) {
        value := lastValid;
        error := NoError;
      }
      var ok := ValidateBoundary(current);
      if !ok {
        value := lastValid;
        error := NoError;
      }
    }

    /** The millimetre read-out under the field. */
    function Millimetres(): (mm: real)
      requires Valid()
      reads this
      ensures 10.0 * min as real <= mm <= 10.0 * max as real
    {
      ConvertToMmWithinBounds(parse, value, error != NoError, lastValid, min, max);
      ConvertToMm(parse, value, error != NoError, lastValid)
    }
  }
}
