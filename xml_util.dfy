/**
 * Attribute reads with defaults, .NET integer parsing and formatting as used for
 * attribute values, and the line-break normalisation helpers.
 * An element's attributes are modelled as a map from attribute name to value.
 */
module XmlUtil {
  import opened Wrappers

  /** The attributes of one XML element. */
  type Attrs = map<string, string>

  /** A 32-bit signed integer, the range of C#'s `int`. */
  type Int32 = x: int | -0x8000_0000 <= x < 0x8000_0000

  datatype XmlError =
    | ArgumentNull    // ArgumentNullException: the element passed in was null
    | FormatError     // FormatException from int.Parse
    | OverflowError   // OverflowException from int.Parse: outside the Int32 range
    | InvalidName     // XmlException: a name that is not a valid XML name

  // ---------------------------------------------------------------- attributes

  /** The value of attribute `name`, or "" when the element has no such attribute. */
  function AttributeIfExists(attrs: Attrs, name: string): (r: string)
    ensures name in attrs ==> r == attrs[name]
    ensures name !in attrs ==> r == ""
  {
    if name in attrs then attrs[name] else ""
  }

  /**
   * Whether a string converts to an `XName` without an exception: it must be non-empty,
   * and a plain local name must not contain ':' (a name starting with '{' is an expanded
   * name `{namespace}local`, whose namespace part may hold colons).
   */
  predicate ValidName(name: string) {
    |name| > 0 && (name[0] == '{' || ':' !in name)
  }

  /**
   * `GetAttributeIfExists`: a null element is an error, checked first; then the name is
   * converted to an `XName`, which fails for an invalid name; otherwise the value or "".
   */
  function GetAttributeIfExists(node: Option<Attrs>, name: string): (r: Result<string, XmlError>)
    ensures r.Err? <==> node.None? || !ValidName(name)
    ensures node.None? ==> r.error == ArgumentNull
    ensures node.Some? && !ValidName(name) ==> r.error == InvalidName
    ensures r.Ok? ==> r.value == AttributeIfExists(node.value, name)
  {
    match node
    case None => Err(ArgumentNull)
    case Some(attrs) => if ValidName(name) then Ok(AttributeIfExists(attrs, name)) else Err(InvalidName)
  }

  /** Whether the element has attribute `name` with exactly this value (`a != null && a.Value == value`). */
  predicate AttributeEquals(attrs: Attrs, name: string, value: string) {
    name in attrs && attrs[name] == value
  }

  /**
   * `XElement.SetAttributeValue`: a non-null value sets the attribute, null removes it.
   */
  function SetAttributeValue(attrs: Attrs, name: string, value: Option<string>): (r: Attrs)
    ensures value.Some? ==> name in r && r[name] == value.value
    ensures value.None? ==> name !in r
    ensures forall other :: other != name ==> (other in r <==> other in attrs)
    ensures forall other :: other != name && other in r ==> r[other] == attrs[other]
  {
    match value
    case Some(v) => attrs[name := v]
    case None => attrs - {name}
  }

  /** Setting an attribute and reading it back yields the value set, or "" after a removal. */
  lemma SetThenGetAttribute(attrs: Attrs, name: string, value: Option<string>, other: string)
    ensures AttributeIfExists(SetAttributeValue(attrs, name, value), name) == value.GetOr("")
    ensures other != name ==>
      AttributeIfExists(SetAttributeValue(attrs, name, value), other) == AttributeIfExists(attrs, other)
  {
  }

  // ---------------------------------------------------------------- integers

  /** The white space `int.Parse` skips before and after the number (NumberStyles.Integer). */
  predicate IsNumberWhite(c: char) {
    c == ' ' || '\t' <= c <= '\r'
  }

  predicate IsDigit(c: char) {
    '0' <= c <= '9'
  }

  predicate AllDigits(s: string) {
    forall i :: 0 <= i < |s| ==> IsDigit(s[i])
  }

  function TrimStart(s: string): (r: string)
    ensures |r| <= |s|
    ensures r == [] || !IsNumberWhite(r[0])
  {
    if |s| > 0 && IsNumberWhite(s[0]) then TrimStart(s[1..]) else s
  }

  function TrimEnd(s: string): (r: string)
    ensures |r| <= |s|
    ensures r == [] || !IsNumberWhite(r[|r| - 1])
  {
    if |s| > 0 && IsNumberWhite(s[|s| - 1]) then TrimEnd(s[..|s| - 1]) else s
  }

  function DigitValue(c: char): (d: nat)
    requires IsDigit(c)
    ensures d < 10
  {
    (c as int) - ('0' as int)
  }

  function DigitChar(d: nat): (c: char)
    requires d < 10
    ensures IsDigit(c) && DigitValue(c) == d
  {
    ((d + '0' as int) as char)
  }

  /** The number a string of decimal digits denotes, most significant digit first. */
  function DigitsValue(ds: string): nat
    requires AllDigits(ds)
  {
    if |ds| == 0 then 0 else DigitsValue(ds[..|ds| - 1]) * 10 + DigitValue(ds[|ds| - 1])
  }

  /**
   * `int.Parse` with the invariant culture: optional surrounding white space, an optional
   * leading sign, then one or more decimal digits; anything else is a format error, and a
   * number outside the Int32 range an overflow.
   */
  function ParseInt(s: string): (r: Result<Int32, XmlError>)
    ensures r.Err? ==> r.error == FormatError || r.error == OverflowError
    ensures TrimEnd(TrimStart(s)) == [] ==> r == Err(FormatError)
  {
    ParseTrimmed(TrimEnd(TrimStart(s)))
  }

  /** `int.Parse` after the surrounding white space is gone: a sign, then the digits. */
  function ParseTrimmed(t: string): Result<Int32, XmlError> {
    var ds := DigitPart(t);
    if |ds| == 0 || !AllDigits(ds) then Err(FormatError)
    else
      var v: int := if IsNegative(t) then -(DigitsValue(ds) as int) else DigitsValue(ds);
      if -0x8000_0000 <= v < 0x8000_0000 then Ok(v) else Err(OverflowError)
  }

  /** Whether a trimmed number starts with a minus sign. */
  predicate IsNegative(t: string) {
    |t| > 0 && t[0] == '-'
  }

  /** A trimmed number without its leading sign, if any. */
  function DigitPart(t: string): string {
    if |t| > 0 && (t[0] == '-' || t[0] == '+') then t[1..] else t
  }

  /** The decimal digits of a natural number, without leading zeros. */
  function NatToString(n: nat): (r: string)
    ensures |r| > 0 && AllDigits(r)
    ensures DigitsValue(r) == n
    decreases n
  {
    if n < 10 then [DigitChar(n)]
    else
      var prefix := NatToString(n / 10);
      var r := prefix + [DigitChar(n % 10)];
      assert r[..|r| - 1] == prefix;
      r
  }

  /** How an `int` attribute value is written (`XmlConvert.ToString`): a minus sign, then digits. */
  function IntToString(n: Int32): (r: string)
    ensures |r| > 0
    ensures n < 0 <==> r[0] == '-'
  {
    if n < 0 then "-" + NatToString(-(n as int)) else NatToString(n)
  }

  /** Trimming leaves a string alone when neither end is white space. */
  lemma TrimNoop(s: string)
    requires |s| > 0 && !IsNumberWhite(s[0]) && !IsNumberWhite(s[|s| - 1])
    ensures TrimEnd(TrimStart(s)) == s
  {
  }

  /** Digits alone parse to their value. */
  lemma ParseDigits(digits: string)
    requires |digits| > 0 && AllDigits(digits) && DigitsValue(digits) < 0x8000_0000
    ensures ParseInt(digits) == Ok(DigitsValue(digits))
  {
    assert IsDigit(digits[0]) && IsDigit(digits[|digits| - 1]);
    TrimNoop(digits);
    assert DigitPart(digits) == digits;
  }

  /** A minus sign followed by digits parses to the negated value. */
  lemma ParseNegatedDigits(digits: string)
    requires |digits| > 0 && AllDigits(digits) && DigitsValue(digits) <= 0x8000_0000
    ensures ParseInt("-" + digits) == Ok(-(DigitsValue(digits) as int))
  {
    var s := "-" + digits;
    assert s[|s| - 1] == digits[|digits| - 1];
    TrimNoop(s);
    NegatedTrimmed(digits);
  }

  /** The trimmed step of `ParseNegatedDigits`: the sign is read, then the digits. */
  lemma NegatedTrimmed(digits: string)
    requires |digits| > 0 && AllDigits(digits) && DigitsValue(digits) <= 0x8000_0000
    ensures ParseTrimmed("-" + digits) == Ok(-(DigitsValue(digits) as int))
  {
    var s := "-" + digits;
    assert s[0] == '-' && s[1..] == digits;
    assert IsNegative(s) && DigitPart(s) == digits;
  }

  /** An integer written as an attribute value parses back to the same integer. */
  lemma IntRoundTrip(n: Int32)
    ensures ParseInt(IntToString(n)) == Ok(n)
  {
    if n < 0 {
      ParseNegatedDigits(NatToString(-(n as int)));
    } else {
      ParseDigits(NatToString(n));
    }
  }

  /**
   * `GetIntAttributeIfExists`: a null element and an invalid name fail as in
   * `GetAttributeIfExists`; a missing attribute reads 0, a present one is parsed.
   */
  function GetIntAttributeIfExists(node: Option<Attrs>, name: string): (r: Result<Int32, XmlError>)
    ensures node.None? ==> r == Err(ArgumentNull)
    ensures node.Some? && !ValidName(name) ==> r == Err(InvalidName)
    ensures node.Some? && ValidName(name) && name !in node.value ==> r == Ok(0)
    ensures node.Some? && ValidName(name) && name in node.value ==> r == ParseInt(node.value[name])
  {
    match node
    case None => Err(ArgumentNull)
    case Some(attrs) =>
      if !ValidName(name) then Err(InvalidName)
      else if name in attrs then ParseInt(attrs[name]) else Ok(0)
  }

  // ---------------------------------------------------------------- line breaks

  /** `Char.IsWhiteSpace`: the Unicode space separators, line and paragraph separators, and the controls U+0009-U+000D and U+0085. */
  predicate IsWhiteSpace(c: char) {
    || ('\t' <= c <= '\r')
    || c == ' ' || c == '\U{0085}' || c == '\U{00A0}' || c == '\U{1680}'
    || ('\U{2000}' <= c <= '\U{200A}')
    || c == '\U{2028}' || c == '\U{2029}' || c == '\U{202F}' || c == '\U{205F}' || c == '\U{3000}'
  }

  /** `string.IsNullOrWhiteSpace`. */
  predicate IsNullOrWhiteSpace(s: Option<string>) {
    s.None? || forall i :: 0 <= i < |s.value| ==> IsWhiteSpace(s.value[i])
  }

  /** `s.Replace("\r", "")`: every carriage return deleted, every other character kept in order. */
  function RemoveCarriageReturns(s: string): (r: string)
    ensures '\r' !in r
    decreases |s|
  {
    if s == [] then []
    else (if s[0] == '\r' then [] else [s[0]]) + RemoveCarriageReturns(s[1..])
  }

  /** Only the carriage returns go: every other character stays, as often as before. */
  lemma {:induction false} RemoveCarriageReturnsCounts(s: string)
    ensures |RemoveCarriageReturns(s)| == |s| - multiset(s)['\r']
    ensures multiset(RemoveCarriageReturns(s)) == multiset(s)['\r' := 0]
    decreases |s|
  {
    if s != [] {
      assert s == [s[0]] + s[1..];
      RemoveCarriageReturnsCounts(s[1..]);
    }
  }

  /** Deleting carriage returns from a string with a known first character. */
  lemma RemoveCarriageReturnsCons(c: char, s: string)
    ensures RemoveCarriageReturns([c] + s) == (if c == '\r' then [] else [c]) + RemoveCarriageReturns(s)
  {
    assert ([c] + s)[1..] == s;
  }

  /** Deleting carriage returns distributes over concatenation. */
  lemma {:induction false} RemoveCarriageReturnsConcat(a: string, b: string)
    ensures RemoveCarriageReturns(a + b) == RemoveCarriageReturns(a) + RemoveCarriageReturns(b)
    decreases |a|
  {
    if a == [] {
      assert a + b == b;
    } else {
      var c, rest := a[0], a[1..];
      assert a == [c] + rest && a + b == [c] + (rest + b);
      var head: string := if c == '\r' then [] else [c];
      RemoveCarriageReturnsCons(c, rest + b);
      RemoveCarriageReturnsCons(c, rest);
      RemoveCarriageReturnsConcat(rest, b);
      var x, y := RemoveCarriageReturns(rest), RemoveCarriageReturns(b);
      assert head + (x + y) == (head + x) + y;
    }
  }

  /** A string without carriage returns is left as it is. */
  lemma {:induction false} RemoveCarriageReturnsNoop(s: string)
    requires '\r' !in s
    ensures RemoveCarriageReturns(s) == s
    decreases |s|
  {
    if s != [] {
      RemoveCarriageReturnsNoop(s[1..]);
    }
  }

  /** `NormalizeLineBreaks`: "" for null or white-space-only input, otherwise the input without '\r'. */
  function NormalizeLineBreaks(s: Option<string>): (r: string)
    ensures '\r' !in r
    ensures IsNullOrWhiteSpace(s) ==> r == ""
    ensures !IsNullOrWhiteSpace(s) ==>
      |r| == |s.value| - multiset(s.value)['\r'] && multiset(r) == multiset(s.value)['\r' := 0]
  {
    if IsNullOrWhiteSpace(s) then ""
    else
      RemoveCarriageReturnsCounts(s.value);
      RemoveCarriageReturns(s.value)
  }

  /** Normalising twice is the same as normalising once. */
  lemma NormalizeLineBreaksIdempotent(s: Option<string>)
    ensures NormalizeLineBreaks(Some(NormalizeLineBreaks(s))) == NormalizeLineBreaks(s)
  {
    var r := NormalizeLineBreaks(s);
    if !IsNullOrWhiteSpace(s) {
      var i :| 0 <= i < |s.value| && !IsWhiteSpace(s.value[i]);
      var c := s.value[i];
      assert c != '\r';
      assert c in multiset(s.value);
      assert multiset(r)[c] == multiset(s.value)[c];
      assert c in multiset(r);
      assert c in r;
      var k :| 0 <= k < |r| && r[k] == c;
      assert !IsNullOrWhiteSpace(Some(r));
      RemoveCarriageReturnsNoop(r);
    }
  }

  /** `s.Replace("\r", "\r\n")`. */
  function ExpandCarriageReturns(s: string): (r: string)
    ensures |r| == |s| + multiset(s)['\r']
    decreases |s|
  {
    if s == [] then []
    else
      assert s == [s[0]] + s[1..];
      (if s[0] == '\r' then "\r\n" else [s[0]]) + ExpandCarriageReturns(s[1..])
  }

  lemma {:induction false} ExpandCarriageReturnsNoop(s: string)
    requires '\r' !in s
    ensures ExpandCarriageReturns(s) == s
    decreases |s|
  {
    if s != [] {
      assert s[0] != '\r' && '\r' !in s[1..];
      ExpandCarriageReturnsNoop(s[1..]);
      assert s == [s[0]] + s[1..];
    }
  }

  /**
   * `DeNormalizeLineBreaks`: normalise, then expand each '\r' to "\r\n". The expansion runs
   * on a string that no longer holds any '\r', so it changes nothing: de-normalising is
   * exactly normalising.
   */
  function DeNormalizeLineBreaks(s: Option<string>): (r: string)
    ensures r == NormalizeLineBreaks(s)
  {
    if IsNullOrWhiteSpace(s) then ""
    else
      ExpandCarriageReturnsNoop(NormalizeLineBreaks(s));
      ExpandCarriageReturns(NormalizeLineBreaks(s))
  }
}
