/** The Ruby support library's colour values (Selenium::WebDriver::Support::Color): parsing the
    rgb(), rgba() and #hex notations of section 4.2 of CSS Color Module Level 3 as a browser
    reports them, and formatting a colour back into those notations. */
module SupportColor {
  import opened Wrappers
  import opened Strings

  /** A colour: integer channels as `Integer()` returns them, and the alpha as a number (an
      exact real here, a binary float in the source). */
  datatype Color = Color(red: int, green: int, blue: int, alpha: real)

  /** The forms whose channels the source computes in floating point: they are recognised, in
      their place in the order, but their arithmetic is not part of this model. */
  datatype FloatForm = RgbPercent | RgbaPercent | Hsl

  /** What `from_string` does with a text: builds a colour, reaches a floating-point branch, or
      raises ArgumentError with the message given. */
  datatype Parsed = Built(color: Color) | FloatBranch(form: FloatForm) | Invalid(message: string)

  // ---------------------------------------------------------------------------------------
  // Characters and tokens

  /** Ruby's `\s`: space, tab, line feed, vertical tab, form feed, carriage return. */
  predicate IsSpace(c: char)
  {
    c == ' ' || c == '\t' || c == '\n' || c == '\r' || c as int == 11 || c as int == 12
  }

  predicate IsHexDigit(c: char)
  {
    IsAsciiDigit(c) || 'a' <= c <= 'f' || 'A' <= c <= 'F'
  }

  function HexValue(c: char): (v: nat)
    requires IsHexDigit(c)
    ensures v < 16
  {
    if IsAsciiDigit(c) then c as int - '0' as int
    else if 'a' <= c <= 'f' then c as int - 'a' as int + 10
    else c as int - 'A' as int + 10
  }

  predicate AllDigits(t: string)
  {
    forall i | 0 <= i < |t| :: IsAsciiDigit(t[i])
  }

  /** `\d{1,3}`. */
  predicate UpToThreeDigits(t: string)
  {
    1 <= |t| <= 3 && AllDigits(t)
  }

  /** `\d{1,3}|\d{1,2}\.\d+` followed by "%". */
  predicate PercentToken(t: string)
  {
    |t| >= 2 && t[|t| - 1] == '%' &&
    var n := t[..|t| - 1];
    UpToThreeDigits(n) ||
    exists k | 1 <= k <= 2 && k + 1 < |n| :: AllDigits(n[..k]) && n[k] == '.' && AllDigits(n[k + 1..])
  }

  /** `0|1|0\.\d+`. */
  predicate AlphaToken(t: string)
  {
    t == "0" || t == "1" || (|t| >= 3 && t[..2] == "0." && AllDigits(t[2..]))
  }

  /** Leading whitespace removed. */
  function TrimStart(s: string): (r: string)
    ensures |r| <= |s| && r == s[|s| - |r|..]
    ensures r != [] ==> !IsSpace(r[0])
    ensures forall i | 0 <= i < |s| - |r| :: IsSpace(s[i])
  {
    if s != [] && IsSpace(s[0]) then TrimStart(s[1..]) else s
  }

  /** Trailing whitespace removed. */
  function TrimEnd(s: string): (r: string)
    ensures |r| <= |s| && r == s[..|r|]
    ensures r != [] ==> !IsSpace(r[|r| - 1])
    ensures forall i | |r| <= i < |s| :: IsSpace(s[i])
  {
    if s != [] && IsSpace(s[|s| - 1]) then TrimEnd(s[..|s| - 1]) else s
  }

  function Trim(s: string): string
  {
    TrimEnd(TrimStart(s))
  }

  /** Text that neither starts nor ends with whitespace is its own trimmed form. */
  lemma TrimmedAlready(s: string)
    requires s != [] && !IsSpace(s[0]) && !IsSpace(s[|s| - 1])
    ensures Trim(s) == s
  {
  }

  function TrimEach(parts: seq<string>): (r: seq<string>)
    ensures |r| == |parts|
  {
    if parts == [] then [] else [Trim(parts[0])] + TrimEach(parts[1..])
  }

  /** The arguments of `^\s*name\(` … `\)\s*$`: the text between the parentheses split at the
      commas, each piece without its surrounding whitespace. The anchored patterns are read as
      matching the whole text. */
  function Arguments(s: string, name: string): (r: Option<seq<string>>)
    ensures r.Some? ==> |r.value| >= 1
  {
    var t := Trim(s);
    if |t| >= |name| + 2 && t[..|name| + 1] == name + "(" && t[|t| - 1] == ')' then
      Some(TrimEach(Split(t[|name| + 1..|t| - 1], ',')))
    else None
  }

  /** The three arguments of `name(` … `)` when each is `\d{1,3}`. */
  predicate ThreeIntegers(s: string, name: string)
  {
    var a := Arguments(s, name);
    a.Some? && |a.value| == 3 &&
    UpToThreeDigits(a.value[0]) && UpToThreeDigits(a.value[1]) && UpToThreeDigits(a.value[2])
  }

  /** The three arguments of `name(` … `)` when each is a percentage. */
  predicate ThreePercents(s: string, name: string)
  {
    var a := Arguments(s, name);
    a.Some? && |a.value| == 3 &&
    PercentToken(a.value[0]) && PercentToken(a.value[1]) && PercentToken(a.value[2])
  }

  predicate MatchesRgb(s: string)
  {
    ThreeIntegers(s, "rgb")
  }

  predicate MatchesRgbPercent(s: string)
  {
    ThreePercents(s, "rgb")
  }

  /** Four arguments: three of `channel` and an alpha. */
  predicate MatchesRgba(s: string)
  {
    var a := Arguments(s, "rgba");
    a.Some? && |a.value| == 4 &&
    UpToThreeDigits(a.value[0]) && UpToThreeDigits(a.value[1]) && UpToThreeDigits(a.value[2]) && AlphaToken(a.value[3])
  }

  predicate MatchesRgbaPercent(s: string)
  {
    var a := Arguments(s, "rgba");
    a.Some? && |a.value| == 4 &&
    PercentToken(a.value[0]) && PercentToken(a.value[1]) && PercentToken(a.value[2]) && AlphaToken(a.value[3])
  }

  /** `\d{1,3}%`. */
  predicate WholePercent(t: string)
  {
    |t| >= 2 && t[|t| - 1] == '%' && UpToThreeDigits(t[..|t| - 1])
  }

  predicate MatchesHsl(s: string)
  {
    var a := Arguments(s, "hsl");
    var b := Arguments(s, "hsla");
    (a.Some? && |a.value| == 3 &&
     UpToThreeDigits(a.value[0]) && WholePercent(a.value[1]) && WholePercent(a.value[2])) ||
    (b.Some? && |b.value| == 4 &&
     UpToThreeDigits(b.value[0]) && WholePercent(b.value[1]) && WholePercent(b.value[2]) && AlphaToken(b.value[3]))
  }

  /** "#" followed by `n` hexadecimal digits at position `i`. */
  predicate HashDigitsAt(s: string, n: nat, i: nat)
  {
    i + n < |s| && s[i] == '#' && forall j | i < j <= i + n :: IsHexDigit(s[j])
  }

  /** The leftmost position where the unanchored `#` pattern with `n` digits matches, searching
      from `from`. */
  function FindHash(s: string, n: nat, from: nat): (r: Option<nat>)
    ensures r.Some? ==> from <= r.value && HashDigitsAt(s, n, r.value)
    ensures r.Some? ==> forall i | from <= i < r.value :: !HashDigitsAt(s, n, i)
    ensures r.None? ==> forall i | from <= i :: !HashDigitsAt(s, n, i)
    decreases |s| - from
  {
    if from + n >= |s| then None
    else if HashDigitsAt(s, n, from) then Some(from)
    else FindHash(s, n, from + 1)
  }

  // ---------------------------------------------------------------------------------------
  // Numbers

  /** The value of digits in base `base` (at most ten). */
  function DigitsValue(t: string, base: nat): (v: nat)
    requires 2 <= base <= 10 && AllDigits(t)
  {
    if t == [] then 0
    else DigitsValue(t[..|t| - 1], base) * base + (t[|t| - 1] as int - '0' as int)
  }

  /** Ruby's `Integer()` on a digit string: a leading zero makes it octal, where 8 and 9 are
      refused with ArgumentError. */
  function RubyInteger(t: string): (r: Option<int>)
    requires AllDigits(t)
    ensures r.Some? ==> r.value >= 0
    ensures r.None? <==> |t| > 1 && t[0] == '0' && exists i | 1 <= i < |t| :: t[i] == '8' || t[i] == '9'
  {
    if |t| > 1 && t[0] == '0' then
      if forall i | 1 <= i < |t| :: t[i] != '8' && t[i] != '9' then Some(DigitsValue(t[1..], 8)) else None
    else Some(DigitsValue(t, 10))
  }

  /** Ruby's `Float()` on an alpha token, as an exact value. */
  function AlphaValue(t: string): (a: real)
    requires AlphaToken(t)
    ensures 0.0 <= a <= 1.0
  {
    if t == "0" then 0.0
    else if t == "1" then 1.0
    else Fraction(t[2..])
  }

  /** 0.d₁d₂…dₙ. */
  function Fraction(digits: string): (f: real)
    requires AllDigits(digits)
    ensures 0.0 <= f < 1.0
  {
    if digits == [] then 0.0
    else ((digits[0] as int - '0' as int) as real + Fraction(digits[1..])) / 10.0
  }

  // ---------------------------------------------------------------------------------------
  // Parsing

  /** `new` on three integer strings and an alpha: `Integer()` may raise. */
  function Channels(r: string, g: string, b: string, alpha: real): (p: Parsed)
    requires UpToThreeDigits(r) && UpToThreeDigits(g) && UpToThreeDigits(b)
    ensures p.Built? <==> RubyInteger(r).Some? && RubyInteger(g).Some? && RubyInteger(b).Some?
    ensures p.Built? ==> p.color == Color(RubyInteger(r).value, RubyInteger(g).value, RubyInteger(b).value, alpha)
    ensures !p.FloatBranch?
  {
    var red := RubyInteger(r);
    var green := RubyInteger(g);
    var blue := RubyInteger(b);
    if red.None? then Invalid("invalid value for Integer(): " + r)
    else if green.None? then Invalid("invalid value for Integer(): " + g)
    else if blue.None? then Invalid("invalid value for Integer(): " + b)
    else Built(Color(red.value, green.value, blue.value, alpha))
  }

  /** Two hexadecimal digits as a number. */
  function HexPair(a: char, b: char): (v: nat)
    requires IsHexDigit(a) && IsHexDigit(b)
    ensures v < 256
  {
    HexValue(a) * 16 + HexValue(b)
  }

  /** `from_string`: the patterns in the source's order. */
  function FromString(s: string): (p: Parsed)
    ensures p.Built? ==> p.color.red >= 0 && p.color.green >= 0 && p.color.blue >= 0 && 0.0 <= p.color.alpha <= 1.0
  {
    if MatchesRgb(s) then
      var a := Arguments(s, "rgb").value;
      Channels(a[0], a[1], a[2], 1.0)
    else if MatchesRgbPercent(s) then FloatBranch(RgbPercent)
    else if MatchesRgba(s) then
      var a := Arguments(s, "rgba").value;
      Channels(a[0], a[1], a[2], AlphaValue(a[3]))
    else if MatchesRgbaPercent(s) then FloatBranch(RgbaPercent)
    else if FindHash(s, 6, 0).Some? then
      var i := FindHash(s, 6, 0).value;
      Built(Color(HexPair(s[i + 1], s[i + 2]), HexPair(s[i + 3], s[i + 4]), HexPair(s[i + 5], s[i + 6]), 1.0))
    else if FindHash(s, 3, 0).Some? then
      var i := FindHash(s, 3, 0).value;
      Built(Color(HexPair(s[i + 1], s[i + 1]), HexPair(s[i + 2], s[i + 2]), HexPair(s[i + 3], s[i + 3]), 1.0))
    else if MatchesHsl(s) then FloatBranch(Hsl)
    else Invalid("could not convert " + s + " into color")
  }

  /** A text in the rgb() notation is read by its first branch. */
  lemma FromRgbText(s: string)
    requires MatchesRgb(s)
    ensures var a := Arguments(s, "rgb").value;
      FromString(s) == Channels(a[0], a[1], a[2], 1.0)
  {
  }

  /** A text in the rgba() notation and not in the rgb() ones is read by the rgba branch. */
  lemma FromRgbaText(s: string)
    requires !MatchesRgb(s) && !MatchesRgbPercent(s) && MatchesRgba(s)
    ensures var a := Arguments(s, "rgba").value;
      FromString(s) == Channels(a[0], a[1], a[2], AlphaValue(a[3]))
  {
  }

  /** A text matching no pattern is refused, and only such a text. */
  lemma InvalidExactlyWhenNothingMatches(s: string)
    ensures FromString(s).Invalid? && !MatchesRgb(s) && !MatchesRgba(s) ==>
      !MatchesRgbPercent(s) && !MatchesRgbaPercent(s) && !MatchesHsl(s) &&
      FindHash(s, 6, 0).None? && FindHash(s, 3, 0).None?
    ensures (!MatchesRgb(s) && !MatchesRgbPercent(s) && !MatchesRgba(s) && !MatchesRgbaPercent(s) &&
      FindHash(s, 6, 0).None? && FindHash(s, 3, 0).None? && !MatchesHsl(s)) ==> FromString(s).Invalid?
  {
  }

  // ---------------------------------------------------------------------------------------
  // The colour's own members

  /** `==`: another Color (Some) with the same channels and alpha; anything else (None) differs. */
  predicate Equals(c: Color, other: Option<Color>)
  {
    other.Some? && [c.red, c.green, c.blue] == [other.value.red, other.value.green, other.value.blue] &&
    c.alpha == other.value.alpha
  }

  /** `hash`: `arrayHash` is the hash of the array of the four fields combined with the class's
      hash, which is not part of this model. */
  function HashOf(c: Color, arrayHash: (int, int, int, real) -> int): int
  {
    arrayHash(c.red, c.green, c.blue, c.alpha)
  }

  /** Equal colours hash alike, and `==` is value equality. */
  lemma EqualsAgreesWithHash(c: Color, d: Color, arrayHash: (int, int, int, real) -> int)
    ensures Equals(c, Some(d)) <==> c == d
    ensures Equals(c, Some(d)) ==> HashOf(c, arrayHash) == HashOf(d, arrayHash)
    ensures !Equals(c, None)
  {
    if Equals(c, Some(d)) {
      assert [c.red, c.green, c.blue][0] == c.red;
      assert [c.red, c.green, c.blue][1] == c.green;
      assert [c.red, c.green, c.blue][2] == c.blue;
    }
  }

  /** The channels as `rgb` and `rgba` interpolate them, separated by ", ". */
  function ChannelList(c: Color): string
  {
    IntToString(c.red) + (", " + (IntToString(c.green) + (", " + IntToString(c.blue))))
  }

  /** `rgb`. */
  function Rgb(c: Color): (s: string)
    ensures StartsWith(s, "rgb(") && s[|s| - 1] == ')'
  {
    "rgb(" + ChannelList(c) + ")"
  }

  /** `rgba`: an alpha of 1 is written "1"; `floatToS` is `Float#to_s`, which is not part of this
      model. */
  function Rgba(c: Color, floatToS: real -> string): (s: string)
    ensures StartsWith(s, "rgba(") && s[|s| - 1] == ')'
  {
    var a := if c.alpha == 1.0 then "1" else floatToS(c.alpha);
    "rgba(" + ChannelsAndAlpha(c, a) + ")"
  }

  /** The channels and the alpha text, separated by ", ". */
  function ChannelsAndAlpha(c: Color, a: string): string
  {
    IntToString(c.red) + (", " + (IntToString(c.green) + (", " + (IntToString(c.blue) + (", " + a)))))
  }

  /** An opaque colour's `rgba` ends in ", 1)". */
  lemma RgbaOpaqueEndsInOne(c: Color, floatToS: real -> string)
    requires c.alpha == 1.0
    ensures EndsWith(Rgba(c, floatToS), ", 1)")
  {
    var s, x := Rgba(c, floatToS), ChannelsAndAlpha(c, "1");
    assert x == ChannelList(c) + ", 1";
    assert s == "rgba(" + ChannelList(c) + ", 1)";
    assert s[|s| - 4..] == ", 1)";
  }

  /** `rgb` parses back to the same channels, opaque. */
  lemma RgbRoundTrip(c: Color)
    requires 0 <= c.red < 256 && 0 <= c.green < 256 && 0 <= c.blue < 256
    ensures FromString(Rgb(c)) == Built(c.(alpha := 1.0))
  {
    var r, g, b := IntToString(c.red), IntToString(c.green), IntToString(c.blue);
    ChannelsPlain(c);
    SplitThree(r, g, b);
    RgbArguments(ChannelList(c));
    ReadsAsRgb(Rgb(c), r, g, b);
    ChannelsReadBack(c, 1.0);
  }

  /** The three channel texts of a colour with channels below 256. */
  lemma ChannelsPlain(c: Color)
    requires 0 <= c.red < 256 && 0 <= c.green < 256 && 0 <= c.blue < 256
    ensures Plain(IntToString(c.red)) && Plain(IntToString(c.green)) && Plain(IntToString(c.blue))
    ensures UpToThreeDigits(IntToString(c.red)) && UpToThreeDigits(IntToString(c.green))
    ensures UpToThreeDigits(IntToString(c.blue))
  {
    ChannelText(c.red);
    ChannelText(c.green);
    ChannelText(c.blue);
  }

  /** `new` on the channel texts rebuilds the channels. */
  lemma ChannelsReadBack(c: Color, alpha: real)
    requires 0 <= c.red < 256 && 0 <= c.green < 256 && 0 <= c.blue < 256
    ensures UpToThreeDigits(IntToString(c.red)) && UpToThreeDigits(IntToString(c.green))
    ensures UpToThreeDigits(IntToString(c.blue))
    ensures Channels(IntToString(c.red), IntToString(c.green), IntToString(c.blue), alpha) ==
            Built(c.(alpha := alpha))
  {
    ChannelText(c.red);
    ChannelText(c.green);
    ChannelText(c.blue);
  }

  /** A text whose rgb() arguments are three integer texts is read by the first branch. */
  lemma ReadsAsRgb(s: string, r: string, g: string, b: string)
    requires Arguments(s, "rgb") == Some([r, g, b])
    requires UpToThreeDigits(r) && UpToThreeDigits(g) && UpToThreeDigits(b)
    ensures FromString(s) == Channels(r, g, b, 1.0)
  {
    RgbForm(s, r, g, b);
    FromRgbText(s);
  }

  lemma RgbForm(s: string, r: string, g: string, b: string)
    requires Arguments(s, "rgb") == Some([r, g, b])
    requires UpToThreeDigits(r) && UpToThreeDigits(g) && UpToThreeDigits(b)
    ensures MatchesRgb(s) && Arguments(s, "rgb").value == [r, g, b]
  {
  }

  /** A text whose rgba() arguments are three integer texts and an alpha, and which has no rgb()
      arguments, is read by the rgba branch. */
  lemma ReadsAsRgba(s: string, r: string, g: string, b: string, a: string)
    requires Arguments(s, "rgba") == Some([r, g, b, a]) && Arguments(s, "rgb").None?
    requires UpToThreeDigits(r) && UpToThreeDigits(g) && UpToThreeDigits(b) && AlphaToken(a)
    ensures FromString(s) == Channels(r, g, b, AlphaValue(a))
  {
    RgbaForm(s, r, g, b, a);
    FromRgbaText(s);
  }

  lemma RgbaForm(s: string, r: string, g: string, b: string, a: string)
    requires Arguments(s, "rgba") == Some([r, g, b, a]) && Arguments(s, "rgb").None?
    requires UpToThreeDigits(r) && UpToThreeDigits(g) && UpToThreeDigits(b) && AlphaToken(a)
    ensures !MatchesRgb(s) && !MatchesRgbPercent(s) && MatchesRgba(s)
    ensures Arguments(s, "rgba").value == [r, g, b, a]
  {
  }

  /** `rgba` parses back to the same colour, when the alpha is 1 or `Float#to_s` writes it as an
      alpha token that reads back as the alpha. */
  lemma RgbaRoundTrip(c: Color, floatToS: real -> string)
    requires 0 <= c.red < 256 && 0 <= c.green < 256 && 0 <= c.blue < 256
    requires c.alpha == 1.0 || (AlphaToken(floatToS(c.alpha)) && AlphaValue(floatToS(c.alpha)) == c.alpha)
    ensures FromString(Rgba(c, floatToS)) == Built(c)
  {
    var r, g, b := IntToString(c.red), IntToString(c.green), IntToString(c.blue);
    var a := if c.alpha == 1.0 then "1" else floatToS(c.alpha);
    AlphaReadsBack(c, floatToS, a);
    AlphaTokenPlain(a);
    ChannelsPlain(c);
    SplitFour(r, g, b, a);
    RgbaArguments(ChannelsAndAlpha(c, a));
    RgbaIsNotRgb(ChannelsAndAlpha(c, a));
    ReadsAsRgba(Rgba(c, floatToS), r, g, b, a);
    ChannelsReadBack(c, c.alpha);
  }

  lemma AlphaReadsBack(c: Color, floatToS: real -> string, a: string)
    requires c.alpha == 1.0 || (AlphaToken(floatToS(c.alpha)) && AlphaValue(floatToS(c.alpha)) == c.alpha)
    requires a == if c.alpha == 1.0 then "1" else floatToS(c.alpha)
    ensures AlphaToken(a) && AlphaValue(a) == c.alpha
  {
  }

  const HexDigits: string := "0123456789abcdef"

  /** The lowercase hexadecimal digits of `n`, without leading zeros. */
  function HexString(n: nat): (r: string)
    ensures |r| >= 1 && forall i | 0 <= i < |r| :: IsHexDigit(r[i])
  {
    if n < 16 then [HexDigits[n]] else HexString(n / 16) + [HexDigits[n % 16]]
  }

  /** `%02x`: at least two digits, zero-padded. */
  function Hex02(n: nat): (r: string)
    ensures |r| >= 2 && forall i | 0 <= i < |r| :: IsHexDigit(r[i])
  {
    if n < 16 then ['0', HexDigits[n]] else HexString(n)
  }

  /** A channel below 256 is written as exactly two digits that read back as the channel. */
  lemma Hex02ReadsBack(n: nat)
    requires n < 256
    ensures |Hex02(n)| == 2 && HexPair(Hex02(n)[0], Hex02(n)[1]) == n
  {
    HexDigitValue(0);
    HexDigitValue(n / 16);
    HexDigitValue(n % 16);
    if n >= 16 {
      assert HexString(n) == HexString(n / 16) + [HexDigits[n % 16]];
    }
  }

  lemma HexDigitValue(k: nat)
    requires k < 16
    ensures IsHexDigit(HexDigits[k]) && HexValue(HexDigits[k]) == k
  {
  }

  /** `hex`. */
  function Hex(c: Color): (s: string)
    requires c.red >= 0 && c.green >= 0 && c.blue >= 0
    ensures |s| >= 7 && s[0] == '#'
  {
    "#" + Hex02(c.red) + Hex02(c.green) + Hex02(c.blue)
  }

  /** Formatting as hex and parsing back gives the same channels, with alpha 1. */
  lemma HexRoundTrip(c: Color)
    requires 0 <= c.red < 256 && 0 <= c.green < 256 && 0 <= c.blue < 256
    ensures FromString(Hex(c)) == Built(Color(c.red, c.green, c.blue, 1.0))
  {
    var s := Hex(c);
    Hex02ReadsBack(c.red);
    Hex02ReadsBack(c.green);
    Hex02ReadsBack(c.blue);
    assert |s| == 7;
    NotAFunctionalForm(s);
    assert HashDigitsAt(s, 6, 0);
  }

  /** The functional notations start, after the whitespace, with their name. */
  lemma ArgumentsNeedName(s: string, name: string)
    requires name != []
    ensures Arguments(s, name).Some? ==> Trim(s) != [] && Trim(s)[0] == name[0]
  {
    var t := Trim(s);
    if Arguments(s, name).Some? {
      assert t[..|name| + 1][0] == (name + "(")[0];
    }
  }

  /** A text starting with "#" is no call of a named function. */
  lemma HashTextNoArguments(s: string, name: string)
    requires s != [] && s[0] == '#' && !IsSpace(s[|s| - 1]) && name != [] && name[0] != '#'
    ensures Arguments(s, name).None?
  {
    TrimmedAlready(s);
    assert (name + "(")[0] == name[0];
  }

  /** Nor is it in any of the functional notations. */
  lemma NotAFunctionalForm(s: string)
    requires s != [] && s[0] == '#' && !IsSpace(s[|s| - 1])
    ensures !MatchesRgb(s) && !MatchesRgbPercent(s) && !MatchesRgba(s) && !MatchesRgbaPercent(s)
    ensures !MatchesHsl(s)
  {
    HashTextNoArguments(s, "rgb");
    HashTextNoArguments(s, "rgba");
    HashTextNoArguments(s, "hsl");
    HashTextNoArguments(s, "hsla");
  }

  /** Three hexadecimal digits after "#" are each doubled: "#abc" is 0xaa, 0xbb, 0xcc. */
  lemma Hex3Doubles(s: string)
    requires |s| == 4 && s[0] == '#' && IsHexDigit(s[1]) && IsHexDigit(s[2]) && IsHexDigit(s[3])
    ensures FromString(s) == Built(Color(17 * HexValue(s[1]), 17 * HexValue(s[2]), 17 * HexValue(s[3]), 1.0))
  {
    ReadsAsShortHash(s);
    DoubledDigit(s[1]);
    DoubledDigit(s[2]);
    DoubledDigit(s[3]);
  }

  /** A digit written twice is seventeen times its value. */
  lemma DoubledDigit(x: char)
    requires IsHexDigit(x)
    ensures HexPair(x, x) == 17 * HexValue(x)
  {
  }

  lemma Hex3Example(s: string)
    requires s == "#abc"
    ensures FromString(s) == Built(Color(0xaa, 0xbb, 0xcc, 1.0))
  {
    assert s[0] == '#' && s[1] == 'a' && s[2] == 'b' && s[3] == 'c';
    Hex3Doubles(s);
  }

  /** A four-character text "#" and three hexadecimal digits, in no functional notation, is read
      by the three-digit branch. */
  lemma ReadsAsShortHash(s: string)
    requires |s| == 4 && HashDigitsAt(s, 3, 0)
    ensures FromString(s) == Built(Color(HexPair(s[1], s[1]), HexPair(s[2], s[2]), HexPair(s[3], s[3]), 1.0))
  {
    assert IsHexDigit(s[3]);
    NotAFunctionalForm(s);
    assert FindHash(s, 6, 0).None?;
    assert FindHash(s, 3, 0) == Some(0);
  }

  /** "rgb(1, 2, 3)" is red 1, green 2, blue 3, opaque. */
  lemma RgbExample(s: string)
    requires s == "rgb(1, 2, 3)"
    ensures FromString(s) == Built(Color(1, 2, 3, 1.0))
  {
    RgbRoundTrip(Color(1, 2, 3, 1.0));
    RgbText(s);
  }

  lemma RgbText(s: string)
    requires s == "rgb(1, 2, 3)"
    ensures Rgb(Color(1, 2, 3, 1.0)) == s
  {
    assert IntToString(1) == "1" && IntToString(2) == "2" && IntToString(3) == "3";
  }

  // ---------------------------------------------------------------------------------------
  // Reading formatted text back

  /** A piece between commas that needs no trimming. */
  predicate Plain(t: string)
  {
    t != [] && ',' !in t && !IsSpace(t[0]) && !IsSpace(t[|t| - 1])
  }

  /** The decimal text of a natural number reads back, in base ten, as the number. */
  lemma {:induction false} DecimalReadsBack(n: nat)
    ensures AllDigits(NatToString(n)) && DigitsValue(NatToString(n), 10) == n
    decreases n
  {
    var t := NatToString(n);
    if n >= 10 {
      DecimalReadsBack(n / 10);
      assert t[..|t| - 1] == NatToString(n / 10);
    }
  }

  /** The decimal text has no leading zero, except for zero itself, and a number below 1000 has
      at most three digits. */
  lemma {:induction false} DecimalShape(n: nat)
    ensures NatToString(n)[0] == '0' ==> n == 0
    ensures n < 1000 ==> |NatToString(n)| <= 3
    decreases n
  {
    if n >= 10 {
      DecimalShape(n / 10);
      assert NatToString(n)[0] == NatToString(n / 10)[0];
    }
  }

  /** `Integer()` reads back the decimal text of a natural number. */
  lemma IntegerReadsDecimal(n: nat)
    ensures AllDigits(NatToString(n)) && RubyInteger(NatToString(n)) == Some(n)
  {
    DecimalReadsBack(n);
    DecimalShape(n);
  }

  /** A leading zero makes `Integer()` read the remaining digits in octal. */
  lemma IntegerLeadingZeroIsOctal(t: string)
    requires AllDigits(t) && |t| > 1 && t[0] == '0'
    requires forall i | 1 <= i < |t| :: t[i] != '8' && t[i] != '9'
    ensures RubyInteger(t) == Some(DigitsValue(t[1..], 8))
  {
  }

  /** "010" is eight, "10" is ten. */
  lemma IntegerExamples(octal: string, decimal: string)
    requires octal == "010" && decimal == "10"
    ensures AllDigits(octal) && RubyInteger(octal) == Some(8)
    ensures AllDigits(decimal) && RubyInteger(decimal) == Some(10)
  {
    var one := decimal[..1];
    assert octal[1..] == decimal && one == "1" && one[..0] == [];
    assert DigitsValue(one, 8) == 1 && DigitsValue(one, 10) == 1;
    assert DigitsValue(decimal, 8) == 8 && DigitsValue(decimal, 10) == 10;
    assert octal[1] == '1' && octal[2] == '0';
  }

  /** A channel below 256 is written as one to three digits that `Integer()` reads back. */
  lemma ChannelText(n: int)
    requires 0 <= n < 256
    ensures UpToThreeDigits(IntToString(n)) && Plain(IntToString(n))
    ensures RubyInteger(IntToString(n)) == Some(n)
  {
    var t := IntToString(n);
    IntegerReadsDecimal(n);
    DecimalShape(n);
    assert t[0] != ',' && IsAsciiDigit(t[0]) && IsAsciiDigit(t[|t| - 1]);
    assert forall i | 0 <= i < |t| :: t[i] != ',';
  }

  /** Alpha tokens need no trimming and hold no comma. */
  lemma AlphaTokenPlain(a: string)
    requires AlphaToken(a)
    ensures Plain(a)
  {
    if a != "0" && a != "1" {
      assert a[0] == "0."[0] && a[1] == "0."[1];
      assert forall i | 2 <= i < |a| :: a[i] == a[2..][i - 2];
    }
  }

  /** A space and a plain piece trim to the piece. */
  lemma TrimSpaced(t: string)
    requires Plain(t)
    ensures Trim(" " + t) == t && ',' !in " " + t
  {
    assert (" " + t)[1..] == t;
  }

  /** `name(` followed by the arguments and `)`, with nothing around it, yields the arguments. */
  lemma ArgumentsOfCall(name: string, open: string, inner: string)
    requires name != [] && !IsSpace(name[0])
    requires |open| == |name| + 1 && open[..|name|] == name && open[|name|] == '('
    ensures Arguments(open + inner + ")", name) == Some(TrimEach(Split(inner, ',')))
  {
    var s := open + inner + ")";
    TrimmedAlready(s);
    assert s[..|name| + 1] == open == name + "(";
    assert s[|name| + 1..|s| - 1] == inner;
  }

  /** The arguments of "rgb(" … ")". */
  lemma RgbArguments(inner: string)
    ensures Arguments("rgb(" + inner + ")", "rgb") == Some(TrimEach(Split(inner, ',')))
  {
    ArgumentsOfCall("rgb", "rgb(", inner);
  }

  /** The arguments of "rgba(" … ")". */
  lemma RgbaArguments(inner: string)
    ensures Arguments("rgba(" + inner + ")", "rgba") == Some(TrimEach(Split(inner, ',')))
  {
    ArgumentsOfCall("rgba", "rgba(", inner);
  }

  /** "rgba(" … ")" has no arguments as "rgb". */
  lemma RgbaIsNotRgb(inner: string)
    ensures Arguments("rgba(" + inner + ")", "rgb").None?
  {
    var s := "rgba(" + inner + ")";
    TrimmedAlready(s);
    assert s[..4][3] == s[3] == 'a' != "rgb("[3];
  }

  /** Text that starts with another name followed by "(" has no arguments under `name`. */
  lemma OtherName(s: string, name: string, open: string)
    requires |name| < |open| <= |s| && s[..|open|] == open && open[|name|] != '('
    requires !IsSpace(s[0]) && !IsSpace(s[|s| - 1])
    ensures Arguments(s, name).None?
  {
    TrimmedAlready(s);
    assert s[..|name| + 1][|name|] == open[|name|] != (name + "(")[|name|];
  }

  /** Trimming piece by piece distributes over a first piece. */
  lemma TrimEachCons(x: string, rest: seq<string>)
    ensures TrimEach([x] + rest) == [Trim(x)] + TrimEach(rest)
  {
    assert ([x] + rest)[1..] == rest;
  }

  /** A plain piece, ", " and more: the piece is the first argument. */
  lemma PiecesComma(x: string, rest: string)
    requires Plain(x)
    ensures TrimEach(Split(x + (", " + rest), ',')) == [x] + TrimEach(Split(" " + rest, ','))
  {
    assert x + (", " + rest) == x + [','] + (" " + rest);
    SplitAtFirst(x, " " + rest, ',');
    TrimmedAlready(x);
    TrimEachCons(x, Split(" " + rest, ','));
  }

  /** The same after a space. */
  lemma PiecesSpacedComma(x: string, rest: string)
    requires Plain(x)
    ensures TrimEach(Split(" " + (x + (", " + rest)), ',')) == [x] + TrimEach(Split(" " + rest, ','))
  {
    TrimSpaced(x);
    assert " " + (x + (", " + rest)) == (" " + x) + [','] + (" " + rest);
    SplitAtFirst(" " + x, " " + rest, ',');
    TrimEachCons(" " + x, Split(" " + rest, ','));
  }

  /** The last piece after a space. */
  lemma PiecesSpacedLast(x: string)
    requires Plain(x)
    ensures TrimEach(Split(" " + x, ',')) == [x]
  {
    TrimSpaced(x);
    SplitWithoutSeparator(" " + x, ',');
    assert TrimEach([" " + x])[0] == x;
  }

  /** " g, b" gives the last two pieces. */
  lemma PiecesTwo(g: string, b: string)
    requires Plain(g) && Plain(b)
    ensures TrimEach(Split(" " + (g + (", " + b)), ',')) == [g, b]
  {
    PiecesSpacedComma(g, b);
    PiecesSpacedLast(b);
    ListOfTwo(TrimEach(Split(" " + (g + (", " + b)), ',')), g, b);
  }

  /** " g, b, a" gives the last three pieces. */
  lemma PiecesThree(g: string, b: string, a: string)
    requires Plain(g) && Plain(b) && Plain(a)
    ensures TrimEach(Split(" " + (g + (", " + (b + (", " + a)))), ',')) == [g, b, a]
  {
    PiecesSpacedComma(g, b + (", " + a));
    PiecesTwo(b, a);
    ListOfThree(TrimEach(Split(" " + (g + (", " + (b + (", " + a)))), ',')), g, b, a);
  }

  /** "r, g, b" gives the three pieces. */
  lemma SplitThree(r: string, g: string, b: string)
    requires Plain(r) && Plain(g) && Plain(b)
    ensures TrimEach(Split(r + (", " + (g + (", " + b))), ',')) == [r, g, b]
  {
    PiecesComma(r, g + (", " + b));
    PiecesTwo(g, b);
    ListOfThree(TrimEach(Split(r + (", " + (g + (", " + b))), ',')), r, g, b);
  }

  /** "r, g, b, a" gives the four pieces. */
  lemma SplitFour(r: string, g: string, b: string, a: string)
    requires Plain(r) && Plain(g) && Plain(b) && Plain(a)
    ensures TrimEach(Split(r + (", " + (g + (", " + (b + (", " + a))))), ',')) == [r, g, b, a]
  {
    PiecesComma(r, g + (", " + (b + (", " + a))));
    PiecesThree(g, b, a);
    ListOfFour(TrimEach(Split(r + (", " + (g + (", " + (b + (", " + a))))), ',')), r, g, b, a);
  }

  /** A first piece and the rest, written out as one list. */
  lemma ListOfTwo(x: seq<string>, p: string, q: string)
    requires x == [p] + [q]
    ensures x == [p, q]
  {
  }

  lemma ListOfThree(x: seq<string>, p: string, q: string, r: string)
    requires x == [p] + [q, r]
    ensures x == [p, q, r]
  {
  }

  lemma ListOfFour(x: seq<string>, p: string, q: string, r: string, t: string)
    requires x == [p] + [q, r, t]
    ensures x == [p, q, r, t]
  {
  }
}
