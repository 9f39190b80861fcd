/**
 * `formatParameterName` of the mysqli driver: how a parameter's name is
 * written into SQL. A named parameter becomes `:name` after its leading
 * colons are stripped and its characters checked; a positional one
 * becomes `?`.
 */
module ParamName {
  import opened Wrappers
  import opened Php

  /** The `$type` argument: absent, the named or positional style, or anything else. */
  datatype Parameterization = Untyped | Named | Positional | OtherStyle(style: string)

  // ---------------------------------------------------------------------------
  // is_numeric
  // ---------------------------------------------------------------------------

  predicate AllSpaces(s: string) {
    forall i :: 0 <= i < |s| ==> IsSpace(s[i])
  }

  /** What may follow the mantissa: nothing, trailing white space, or an exponent and then white space. */
  predicate ExponentOk(s: string) {
    if |s| == 0 then true
    else if s[0] == 'e' || s[0] == 'E' then
      var t := DropSign(s[1..]);
      var d := LeadingDigits(t);
      |d| >= 1 && AllSpaces(t[|d|..])
    else AllSpaces(s)
  }

  /**
   * `is_numeric` on a string: optional leading white space, an optional
   * sign, digits with at most one decimal point (at least one digit in
   * all), an optional exponent, optional trailing white space.
   */
  predicate IsNumericString(s: string) {
    var t := DropSign(SkipSpaces(s));
    var d1 := LeadingDigits(t);
    var r1 := t[|d1|..];
    if |r1| > 0 && r1[0] == '.' then
      var d2 := LeadingDigits(r1[1..]);
      |d1| + |d2| >= 1 && ExponentOk(r1[1..][|d2|..])
    else |d1| >= 1 && ExponentOk(r1)
  }

  /** `is_numeric($name)` for an array key: integers always are. */
  predicate IsNumeric(name: Key) {
    match name
    case IntKey(_) => true
    case StrKey(s) => IsNumericString(s)
  }

  function KeyText(name: Key): string {
    match name
    case IntKey(i) => IntToString(i)
    case StrKey(s) => s
  }

  /** A string made only of digits is numeric. */
  lemma DigitsAreNumeric(s: string)
    requires |s| > 0 && forall i :: 0 <= i < |s| ==> IsDigit(s[i])
    ensures IsNumericString(s)
  {
    assert SkipSpaces(s) == s;
    assert DropSign(s) == s;
    LeadingDigitsOfDigits(s);
  }

  /** A string starting with `:` is not numeric. */
  lemma ColonNotNumeric(s: string)
    requires |s| > 0 && s[0] == ':'
    ensures !IsNumericString(s)
  {
    assert SkipSpaces(s) == s;
    assert DropSign(s) == s;
    assert LeadingDigits(s) == "";
  }

  // ---------------------------------------------------------------------------
  // formatParameterName
  // ---------------------------------------------------------------------------

  /** The characters allowed in a named parameter. */
  predicate WordChar(c: char) {
    ('a' <= c <= 'z') || ('A' <= c <= 'Z') || ('0' <= c <= '9') || c == '_'
  }

  predicate WordChars(s: string) {
    forall i :: 0 <= i < |s| ==> WordChar(s[i])
  }

  function InvalidMessage(name: string): string {
    "The AsyncMysqli param " + name + " contains invalid characters."
    + " Only alphabetic characters, digits, and underscores (_) are allowed."
  }

  /** Whether the name takes the named path. */
  predicate NamedPath(name: Key, ty: Parameterization) {
    (ty.Untyped? && !IsNumeric(name)) || ty.Named?
  }

  function FormatParameterName(name: Key, ty: Parameterization): (r: Result<string, string>)
    ensures !NamedPath(name, ty) ==> r == Ok("?")
    ensures NamedPath(name, ty) ==> (r.Ok? <==> WordChars(LTrim(KeyText(name), ':')))
    ensures NamedPath(name, ty) && r.Ok? ==>
      && |r.value| >= 1 && r.value[0] == ':' && (|r.value| > 1 ==> r.value[1] != ':')
      && WordChars(r.value[1..])
      && r.value[1..] == LTrim(KeyText(name), ':')
    ensures r.Err? ==> r.error == InvalidMessage(LTrim(KeyText(name), ':'))
  {
    if NamedPath(name, ty) then
      var bare := LTrim(KeyText(name), ':');
      if !WordChars(bare) then Err(InvalidMessage(bare)) else Ok(":" + bare)
    else Ok("?")
  }

  /** An untyped numeric name, or the positional style, gives `?`. */
  lemma PositionalMark(i: int, name: Key)
    ensures FormatParameterName(IntKey(i), Untyped) == Ok("?")
    ensures FormatParameterName(name, Positional) == Ok("?")
  {
  }

  /** Formatting a formatted named parameter changes nothing, untyped or named. */
  lemma FormatIdempotent(name: Key, ty: Parameterization)
    requires FormatParameterName(name, ty).Ok? && FormatParameterName(name, ty).value != "?"
    ensures var r := FormatParameterName(name, ty).value;
      && FormatParameterName(StrKey(r), Untyped) == Ok(r)
      && FormatParameterName(StrKey(r), Named) == Ok(r)
  {
    FormatsItself(FormatParameterName(name, ty).value);
  }

  /** A name that is not numeric takes the named path untyped too. */
  lemma UntypedAsNamed(name: Key)
    requires !IsNumeric(name)
    ensures FormatParameterName(name, Untyped) == FormatParameterName(name, Named)
  {
  }

  lemma FormatsItselfNamed(r: string)
    requires |r| >= 1 && r[0] == ':' && (|r| > 1 ==> r[1] != ':') && WordChars(r[1..])
    ensures FormatParameterName(StrKey(r), Named) == Ok(r)
  {
    LTrimOnce(r, ':');
    assert ":" + r[1..] == r;
  }

  /** `:` followed by a valid bare name formats to itself. */
  lemma FormatsItself(r: string)
    requires |r| >= 1 && r[0] == ':' && (|r| > 1 ==> r[1] != ':') && WordChars(r[1..])
    ensures FormatParameterName(StrKey(r), Untyped) == Ok(r)
    ensures FormatParameterName(StrKey(r), Named) == Ok(r)
  {
    FormatsItselfNamed(r);
    ColonNotNumeric(r);
    UntypedAsNamed(StrKey(r));
  }

  /** The leading colons are all stripped: `::a` and `a` format alike. */
  lemma ColonsStripped(bare: string, ty: Parameterization)
    requires |bare| > 0 && WordChars(bare) && ty.Named?
    ensures FormatParameterName(StrKey("::" + bare), ty) == FormatParameterName(StrKey(bare), ty)
    ensures FormatParameterName(StrKey(bare), ty) == Ok(":" + bare)
  {
    assert ("::" + bare)[1..] == ":" + bare;
    assert (":" + bare)[1..] == bare;
    assert bare[0] != ':' by { assert WordChar(bare[0]); }
  }
}
