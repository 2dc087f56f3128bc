// The numeric text field (SmartInput.jsx): the component's two pieces of
// state, the change handler that strips commas, rejects long or
// non-numeric text and reports the parsed number, and the effect that
// redraws the text while the field is not focused.

module SmartInputModel {
  import opened JsMath

  // ------------------------------------------------------------ text

  predicate IsDigit(ch: char)
  {
    '0' <= ch <= '9'
  }

  predicate AllDigits(s: string)
  {
    forall i :: 0 <= i < |s| ==> IsDigit(s[i])
  }

  predicate DigitsAndDots(s: string)
  {
    forall i :: 0 <= i < |s| ==> IsDigit(s[i]) || s[i] == '.'
  }

  function DotCount(s: string): nat
  {
    if s == [] then 0 else (if s[0] == '.' then 1 else 0) + DotCount(s[1..])
  }

  /** `value.replace(/,/g, '')`. */
  function StripCommas(s: string): (r: string)
    ensures forall i :: 0 <= i < |r| ==> r[i] != ','
    ensures forall ch :: ch != ',' ==> multiset(r)[ch] == multiset(s)[ch]
    ensures (forall i :: 0 <= i < |s| ==> s[i] != ',') ==> r == s
  {
    if s == [] then []
    else
      var rest := StripCommas(s[1..]);
      assert s == [s[0]] + s[1..];
      if s[0] == ',' then rest else [s[0]] + rest
  }

  /** Where the scan of `^-?[0-9]*\.?[0-9]*$` stands: before the optional
      sign, in the whole digits, or after the dot. */
  datatype Phase = Sign | Whole | Fraction

  /** The regular expression, read left to right; every phase accepts the
      end of the text. */
  predicate Matches(s: string, p: Phase)
  {
    if s == [] then true
    else match p
      case Sign => ((s[0] == '-' || IsDigit(s[0])) && Matches(s[1..], Whole)) || (s[0] == '.' && Matches(s[1..], Fraction))
      case Whole => (IsDigit(s[0]) && Matches(s[1..], Whole)) || (s[0] == '.' && Matches(s[1..], Fraction))
      case Fraction => IsDigit(s[0]) && Matches(s[1..], Fraction)
  }

  /** What the expression admits, stated without the scan: at most one
      leading minus, then digits with at most one dot among them. */
  predicate NumericShape(s: string)
  {
    var body := if |s| > 0 && s[0] == '-' then s[1..] else s;
    DigitsAndDots(body) && DotCount(body) <= 1
  }

  lemma {:induction false} DigitsHaveNoDots(s: string)
    ensures AllDigits(s) <==> DigitsAndDots(s) && DotCount(s) == 0
  {
    if s != [] {
      DigitsHaveNoDots(s[1..]);
      assert AllDigits(s) <==> IsDigit(s[0]) && AllDigits(s[1..]);
      assert DigitsAndDots(s) <==> (IsDigit(s[0]) || s[0] == '.') && DigitsAndDots(s[1..]);
    }
  }

  lemma {:induction false} FractionScan(s: string)
    ensures Matches(s, Fraction) <==> AllDigits(s)
  {
    if s != [] {
      FractionScan(s[1..]);
      assert AllDigits(s) <==> IsDigit(s[0]) && AllDigits(s[1..]);
    }
  }

  lemma {:induction false} WholeScan(s: string)
    ensures Matches(s, Whole) <==> DigitsAndDots(s) && DotCount(s) <= 1
  {
    if s != [] {
      WholeScan(s[1..]);
      FractionScan(s[1..]);
      DigitsHaveNoDots(s[1..]);
      assert DigitsAndDots(s) <==> (IsDigit(s[0]) || s[0] == '.') && DigitsAndDots(s[1..]);
    }
  }

  /** The scan accepts exactly the numeric shapes. */
  lemma RegexMeansNumericShape(s: string)
    ensures Matches(s, Sign) <==> NumericShape(s)
  {
    if s != [] {
      WholeScan(s[1..]);
      FractionScan(s[1..]);
      DigitsHaveNoDots(s[1..]);
      assert DigitsAndDots(s) <==> (IsDigit(s[0]) || s[0] == '.') && DigitsAndDots(s[1..]);
    }
  }

  // ------------------------------------------------------------ parsing

  function DigitValue(ch: char): nat
  {
    if IsDigit(ch) then (ch as int - '0' as int) else 0
  }

  /** The value of a digit string, most significant digit first. */
  function DigitsValue(ds: string): nat
  {
    if ds == [] then 0 else 10 * DigitsValue(ds[..|ds| - 1]) + DigitValue(ds[|ds| - 1])
  }

  function Pow10(n: nat): (r: nat)
    ensures r >= 1
  {
    if n == 0 then 1 else 10 * Pow10(n - 1)
  }

  /** The position of the first dot, or the length when there is none. */
  function DotIndex(s: string): (i: nat)
    ensures i <= |s|
    ensures forall k :: 0 <= k < i ==> s[k] != '.'
    ensures i < |s| ==> s[i] == '.'
  {
    if s == [] || s[0] == '.' then 0 else 1 + DotIndex(s[1..])
  }

  predicate HasDigit(s: string)
  {
    exists i :: 0 <= i < |s| && IsDigit(s[i])
  }

  /** `parseFloat` on a numeric shape: NaN when there is no digit at all
      ("", "-", ".", "-."), otherwise the signed decimal value. */
  function ParseFloat(raw: string): (r: Num)
    requires NumericShape(raw)
    ensures r.NaN? || r.Finite?
    ensures r.NaN? <==> !HasDigit(raw)
    ensures r.Finite? && |raw| > 0 && raw[0] == '-' ==> r.value <= 0.0
    ensures r.Finite? && !(|raw| > 0 && raw[0] == '-') ==> r.value >= 0.0
  {
    var negative := |raw| > 0 && raw[0] == '-';
    var body := if negative then raw[1..] else raw;
    var i := DotIndex(body);
    var whole := body[..i];
    var frac := if i < |body| then body[i + 1..] else "";
    DigitsFromParts(raw, negative, body, i);
    if |whole| + |frac| == 0 then NaN
    else
      var magnitude := DecimalValue(whole, frac);
      Finite(if negative then -magnitude else magnitude)
  }

  /** The value of `whole.frac`. */
  function DecimalValue(whole: string, frac: string): (v: real)
    ensures v >= 0.0
  {
    var f := DigitsValue(frac) as real / Pow10(|frac|) as real;
    assert f >= 0.0;
    DigitsValue(whole) as real + f
  }

  /** A shape has a digit exactly when the parts around its dot are not both empty. */
  lemma DigitsFromParts(raw: string, negative: bool, body: string, i: nat)
    requires NumericShape(raw)
    requires negative == (|raw| > 0 && raw[0] == '-')
    requires body == if negative then raw[1..] else raw
    requires i == DotIndex(body)
    ensures HasDigit(raw) <==> i + (if i < |body| then |body| - i - 1 else 0) > 0
  {
    if HasDigit(raw) {
      var k :| 0 <= k < |raw| && IsDigit(raw[k]);
      var j := if negative then k - 1 else k;
      assert body[j] == raw[k];
    }
    if i > 0 {
      assert IsDigit(body[0]);
      assert raw[if negative then 1 else 0] == body[0];
    } else if i < |body| && |body| - i - 1 > 0 {
      DigitAfterOnlyDot(body, i);
      assert raw[if negative then i + 2 else i + 1] == body[i + 1];
    }
  }

  /** In digits with at most one dot, what follows the dot is a digit. */
  lemma DigitAfterOnlyDot(body: string, i: nat)
    requires DigitsAndDots(body) && DotCount(body) <= 1
    requires i + 1 < |body| && body[i] == '.'
    ensures IsDigit(body[i + 1])
  {
    var frac := body[i + 1..];
    DotCountSplit(body, i + 1);
    DotCountAtEnd(body[..i + 1]);
    assert DigitsAndDots(frac) by { assert forall k :: 0 <= k < |frac| ==> frac[k] == body[i + 1 + k]; }
    DigitsHaveNoDots(frac);
    assert frac[0] == body[i + 1];
  }

  lemma {:induction false} DotCountSplit(s: string, n: nat)
    requires n <= |s|
    ensures DotCount(s) == DotCount(s[..n]) + DotCount(s[n..])
  {
    if n > 0 {
      DotCountSplit(s[1..], n - 1);
      assert s[1..][..n - 1] == s[..n][1..];
      assert s[1..][n - 1..] == s[n..];
    }
  }

  lemma {:induction false} DotCountAtEnd(s: string)
    requires |s| > 0 && s[|s| - 1] == '.'
    ensures DotCount(s) >= 1
  {
    if s[0] != '.' {
      assert s[1..][|s[1..]| - 1] == '.';
      DotCountAtEnd(s[1..]);
    }
  }

  /** A digit string parses to its decimal value. */
  lemma ParseWholeNumber(raw: string)
    requires raw != [] && AllDigits(raw)
    ensures NumericShape(raw)
    ensures ParseFloat(raw) == Finite(DigitsValue(raw) as real)
  {
    DigitsHaveNoDots(raw);
    assert IsDigit(raw[0]);
    NoDotMeansEnd(raw);
    assert raw[..|raw|] == raw;
  }

  lemma {:induction false} NoDotMeansEnd(s: string)
    requires AllDigits(s)
    ensures DotIndex(s) == |s|
  {
    if s != [] {
      assert AllDigits(s[1..]) by { assert forall i :: 0 <= i < |s[1..]| ==> s[1..][i] == s[i + 1]; }
      NoDotMeansEnd(s[1..]);
    }
  }

  /** Text the handler accepts: at most 12 characters once commas are
      gone, and empty or of the numeric shape. */
  predicate Accepts(raw: string)
    ensures Accepts(raw) <==> |raw| <= 12 && NumericShape(raw)
  {
    RegexMeansNumericShape(raw);
    |raw| <= 12 && (raw == "" || Matches(raw, Sign))
  }

  /** What `onChange` receives for accepted text: the parsed number, 0 for NaN. */
  function ChangeValue(raw: string): (v: real)
    requires Accepts(raw)
    ensures !HasDigit(raw) ==> v == 0.0
    ensures |raw| > 0 && raw[0] == '-' ==> v <= 0.0
    ensures !(|raw| > 0 && raw[0] == '-') ==> v >= 0.0
  {
    RegexMeansNumericShape(raw);
    var num := ParseFloat(raw);
    if num.NaN? then 0.0 else num.value
  }

  /** Up to twelve digits are accepted and reported as their decimal value. */
  lemma ChangeValueOfDigits(raw: string)
    requires raw != [] && |raw| <= 12 && AllDigits(raw)
    ensures Accepts(raw)
    ensures ChangeValue(raw) == DigitsValue(raw) as real
  {
    ParseWholeNumber(raw);
    RegexMeansNumericShape(raw);
  }

  /** Grouping commas are ignored: "1,234" is reported as 1234. */
  lemma GroupedDigitsExample()
    ensures StripCommas("1,234") == "1234"
    ensures Accepts("1234") && ChangeValue("1234") == 1234.0
  {
    assert StripCommas("234") == "234";
    assert StripCommas(",234") == StripCommas("234") by { assert ",234"[1..] == "234"; }
    assert StripCommas("1,234") == "1" + StripCommas(",234") by { assert "1,234"[1..] == ",234"; }
    ChangeValueOfDigits("1234");
    assert DigitsValue("1234") == 1234 by {
      assert "1234"[..3] == "123";
      assert "123"[..2] == "12";
      assert "12"[..1] == "1";
      assert "1"[..0] == "";
    }
  }

  /** A thirteenth character is refused, whatever it is. */
  lemma TooLongIsRefused(raw: string)
    requires |raw| > 12
    ensures !Accepts(raw)
  {
  }

  /** The text shown while unfocused: NaN, infinities and zero show as
      empty, every other value through the locale formatter. */
  function DisplayText(value: Num, grouping: real -> string): (r: string)
    ensures !value.Finite? || value.value == 0.0 ==> r == ""
    ensures value.Finite? && value.value != 0.0 ==> r == grouping(value.value)
  {
    var safeVal := if value.Finite? then value.value else 0.0;
    if safeVal == 0.0 then "" else grouping(safeVal)
  }

  // ------------------------------------------------------------ the component

  class SmartInput {
    var localValue: string
    var isFocused: bool

    constructor ()
      ensures localValue == "" && !isFocused
    {
      localValue := "";
      isFocused := false;
    }

    method Focus()
      modifies this
      ensures isFocused && localValue == old(localValue)
    {
      isFocused := true;
    }

    method Blur()
      modifies this
      ensures !isFocused && localValue == old(localValue)
    {
      isFocused := false;
    }

    /** The effect on `[value, isFocused]`: redraws the text only while unfocused. */
    method SyncDisplay(value: Num, grouping: real -> string)
      modifies this
      ensures isFocused == old(isFocused)
      ensures old(isFocused) ==> localValue == old(localValue)
      ensures !old(isFocused) ==> localValue == DisplayText(value, grouping)
    {
      if !isFocused {
        var safeVal := if value.Finite? then value.value else 0.0;
        localValue := if safeVal == 0.0 then "" else grouping(safeVal);
      }
    }

    /** handleChange: on accepted text, keeps the text as typed (commas
        included) and reports the parsed number; otherwise changes nothing
        and reports nothing. */
    method HandleChange(input: string) returns (sent: Option<real>)
      modifies this
      ensures isFocused == old(isFocused)
      ensures Accepts(StripCommas(input)) ==> localValue == input && sent == Some(ChangeValue(StripCommas(input)))
      ensures !Accepts(StripCommas(input)) ==> localValue == old(localValue) && sent.None?
    {
      var raw := StripCommas(input);
      if |raw| > 12 {
        return None;
      }
      if raw == "" || Matches(raw, Sign) {
        localValue := input;
        RegexMeansNumericShape(raw);
        var num := ParseFloat(raw);
        sent := Some(if num.NaN? then 0.0 else num.value);
      } else {
        sent := None;
      }
    }
  }
}
