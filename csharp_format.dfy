/** String builders of the IDE's C# (WebDriver .NET) test formatter. The helpers it borrows from the
    shared WebDriver formatter (`capitalize`, `string`, `xlateArgument`) are parameters. */
module CSharpFormat {
  import opened Wrappers
  import opened Strings

  // ---------------------------------------------------------------------------------------------
  // Test class and method names

  /** The text between runs of characters outside [0-9A-Za-z], as JavaScript's `split` with the
      pattern `[^0-9A-Za-z]+` gives it: a leading or trailing run yields an empty piece. */
  function AlnumPieces(s: string): (r: seq<string>)
    ensures |r| >= 1
    decreases |s|
  {
    if s == [] then [""]
    else if IsAsciiAlnum(s[0]) then
      var rest := AlnumPieces(s[1..]);
      [[s[0]] + rest[0]] + rest[1..]
    else [""] + AlnumPieces(DropSeparators(s))
  }

  /** `s` without its leading run of characters outside [0-9A-Za-z]. */
  function DropSeparators(s: string): (r: string)
    ensures |r| <= |s| && (s != [] && !IsAsciiAlnum(s[0]) ==> |r| < |s|)
    ensures r == s[|s| - |r|..]
    ensures r == [] || IsAsciiAlnum(r[0])
  {
    if s == [] || IsAsciiAlnum(s[0]) then s else DropSeparators(s[1..])
  }

  /** The letters and digits of `s`, in order. */
  function AlnumOnly(s: string): (r: string)
    ensures forall i | 0 <= i < |r| :: IsAsciiAlnum(r[i])
  {
    if s == [] then ""
    else if IsAsciiAlnum(s[0]) then [s[0]] + AlnumOnly(s[1..])
    else AlnumOnly(s[1..])
  }

  function Concat(pieces: seq<string>): string
  {
    if pieces == [] then "" else pieces[0] + Concat(pieces[1..])
  }

  lemma {:induction false} AlnumOnlySkipsSeparators(s: string)
    ensures AlnumOnly(DropSeparators(s)) == AlnumOnly(s)
  {
    if s != [] && !IsAsciiAlnum(s[0]) {
      AlnumOnlySkipsSeparators(s[1..]);
    }
  }

  predicate AllAlnum(t: string)
  {
    forall j | 0 <= j < |t| :: IsAsciiAlnum(t[j])
  }

  /** Gluing the pieces back together gives exactly the letters and digits of the name. */
  lemma {:induction false} PiecesAreTheAlnumText(s: string)
    ensures Concat(AlnumPieces(s)) == AlnumOnly(s)
    decreases |s|
  {
    if s != [] {
      if IsAsciiAlnum(s[0]) {
        var rest := AlnumPieces(s[1..]);
        PiecesAreTheAlnumText(s[1..]);
        assert Concat(rest) == rest[0] + Concat(rest[1..]);
      } else {
        PiecesAreTheAlnumText(DropSeparators(s));
        AlnumOnlySkipsSeparators(s);
      }
    }
  }

  /** No piece holds anything but letters and digits. */
  lemma {:induction false} PiecesAreAlnum(s: string)
    ensures forall i | 0 <= i < |AlnumPieces(s)| :: AllAlnum(AlnumPieces(s)[i])
    decreases |s|
  {
    if s != [] {
      if IsAsciiAlnum(s[0]) {
        var rest := AlnumPieces(s[1..]);
        PiecesAreAlnum(s[1..]);
        assert AllAlnum(rest[0]);
        assert AlnumPieces(s)[0] == [s[0]] + rest[0];
        assert AlnumPieces(s)[1..] == rest[1..];
      } else {
        PiecesAreAlnum(DropSeparators(s));
        assert AlnumPieces(s)[1..] == AlnumPieces(DropSeparators(s));
      }
    }
  }

  /** `testClassName`: each piece capitalised, then concatenated. */
  function TestClassName(testName: string, capitalize: string -> string): string
  {
    var pieces := AlnumPieces(testName);
    Concat(seq(|pieces|, i requires 0 <= i < |pieces| => capitalize(pieces[i])))
  }

  /** With capitalisation left out of the picture, the class name is the letters and digits of
      the test name: every separator run is dropped and nothing else is. */
  lemma ClassNameKeepsAlnum(testName: string)
    ensures TestClassName(testName, x => x) == AlnumOnly(testName)
  {
    var pieces := AlnumPieces(testName);
    assert seq(|pieces|, i requires 0 <= i < |pieces| => (x => x)(pieces[i])) == pieces;
    PiecesAreTheAlnumText(testName);
  }

  /** `testMethodName`. */
  function TestMethodName(testName: string, capitalize: string -> string): (r: string)
    ensures |r| == |capitalize(testName)| + 7
    ensures StartsWith(r, "The") && EndsWith(r, "Test")
    ensures r[3..|r| - 4] == capitalize(testName)
  {
    "The" + capitalize(testName) + "Test"
  }

  /** Distinct capitalised names give distinct method names. */
  lemma MethodNamesDistinct(a: string, b: string, capitalize: string -> string)
    requires capitalize(a) != capitalize(b)
    ensures TestMethodName(a, capitalize) != TestMethodName(b, capitalize)
  {
  }

  // ---------------------------------------------------------------------------------------------
  // String arrays

  /** The items with `quote` (the shared formatter's `string`) applied to each. */
  function Quoted(items: seq<string>, quote: string -> string): (r: seq<string>)
    ensures |r| == |items|
  {
    seq(|items|, i requires 0 <= i < |items| => quote(items[i]))
  }

  /** `Join` with `sep` between neighbours, grown at the end. */
  lemma {:induction false} JoinSnoc(pieces: seq<string>, x: string, sep: string)
    ensures Join(pieces + [x], sep) == if pieces == [] then x else Join(pieces, sep) + sep + x
  {
    if |pieces| >= 2 {
      JoinSnoc(pieces[1..], x, sep);
      assert (pieces + [x])[1..] == pieces[1..] + [x];
    } else if |pieces| == 1 {
      assert (pieces + [x])[1..] == [x];
    }
  }

  /** The C# array expression for a list of strings. */
  function ArrayText(items: seq<string>, quote: string -> string): (r: string)
    ensures StartsWith(r, "new String[] {") && EndsWith(r, "}")
  {
    "new String[] {" + Join(Quoted(items, quote), ", ") + "}"
  }

  /** An empty list gives an empty array literal; a single item stands alone. */
  lemma ArrayTextSmall(x: string, quote: string -> string)
    ensures ArrayText([], quote) == "new String[] {}"
    ensures ArrayText([x], quote) == "new String[] {" + quote(x) + "}"
  {
    assert Quoted([x], quote) == [quote(x)];
  }

  /** `array`: the for loop that appends each item and a separator after all but the last. */
  method Array(items: seq<string>, quote: string -> string) returns (str: string)
    ensures str == ArrayText(items, quote)
  {
    str := "new String[] {";
    assert items[..0] == [];
    var i := 0;
    while i < |items|
      invariant 0 <= i <= |items|
      invariant str == ArrayPrefix(items, quote, i)
    {
      ArrayStep(items, quote, i);
      str := str + quote(items[i]);
      if i < |items| - 1 {
        str := str + ", ";
      }
      i := i + 1;
    }
    assert items[..i] == items;
    str := str + "}";
  }

  /** What the loop of `array` has written after `i` items. */
  ghost function ArrayPrefix(items: seq<string>, quote: string -> string, i: nat): string
    requires i <= |items|
  {
    "new String[] {" + Join(Quoted(items[..i], quote), ", ") + (if 0 < i < |items| then ", " else "")
  }

  /** One round of the loop of `array`. */
  lemma ArrayStep(items: seq<string>, quote: string -> string, i: nat)
    requires i < |items|
    ensures i < |items| - 1 ==> ArrayPrefix(items, quote, i) + quote(items[i]) + ", " == ArrayPrefix(items, quote, i + 1)
    ensures i == |items| - 1 ==> ArrayPrefix(items, quote, i) + quote(items[i]) == ArrayPrefix(items, quote, i + 1)
  {
    var q := Quoted(items[..i], quote);
    var x := quote(items[i]);
    assert Quoted(items[..i + 1], quote) == q + [x];
    JoinSnoc(q, x, ", ");
  }

  // ---------------------------------------------------------------------------------------------
  // Regular-expression patterns as C# string literals

  /** JavaScript's `replace` with a global literal pattern: every occurrence, scanning left to
      right, without overlaps. */
  function ReplaceAll(s: string, pat: string, rep: string): string
    requires |pat| > 0
    decreases |s|
  {
    if |s| < |pat| then s
    else if s[..|pat|] == pat then rep + ReplaceAll(s[|pat|..], pat, rep)
    else [s[0]] + ReplaceAll(s[1..], pat, rep)
  }

  /** Text that lacks some character of the pattern is left alone. */
  lemma {:induction false} ReplaceAllAbsent(s: string, pat: string, rep: string, x: char)
    requires |pat| > 0 && x in pat && x !in s
    ensures ReplaceAll(s, pat, rep) == s
    decreases |s|
  {
    if |s| >= |pat| {
      assert s[..|pat|] != pat by {
        var k :| 0 <= k < |pat| && pat[k] == x;
        assert s[..|pat|][k] == s[k];
      }
      ReplaceAllAbsent(s[1..], pat, rep, x);
    }
  }

  /** The pattern `"(?!\\)`: every double quote not followed by a backslash gets one in front. */
  function EscapeLoneQuotes(s: string): string
  {
    if s == [] then ""
    else if s[0] == '"' && !(|s| > 1 && s[1] == '\\') then "\\\"" + EscapeLoneQuotes(s[1..])
    else [s[0]] + EscapeLoneQuotes(s[1..])
  }

  lemma {:induction false} EscapeLoneQuotesAbsent(s: string)
    requires '"' !in s
    ensures EscapeLoneQuotes(s) == s
  {
    if s != [] {
      EscapeLoneQuotesAbsent(s[1..]);
    }
  }

  /** A replacement of one character by a text, everywhere. */
  function ReplaceChar(s: string, c: char, rep: string): string
  {
    if s == [] then "" else (if s[0] == c then rep else [s[0]]) + ReplaceChar(s[1..], c, rep)
  }

  lemma {:induction false} ReplaceCharAppend(a: string, b: string, c: char, rep: string)
    ensures ReplaceChar(a + b, c, rep) == ReplaceChar(a, c, rep) + ReplaceChar(b, c, rep)
  {
    if a == [] {
      assert a + b == b;
    } else {
      assert (a + b)[1..] == a[1..] + b;
      ReplaceCharAppend(a[1..], b, c, rep);
    }
  }

  lemma {:induction false} ReplaceCharKeepsOut(s: string, c: char, rep: string, x: char)
    requires x !in s && x !in rep
    ensures x !in ReplaceChar(s, c, rep)
  {
    if s != [] {
      ReplaceCharKeepsOut(s[1..], c, rep, x);
    }
  }

  const CR := '\r'
  const LF := '\n'

  /** The three character escapes the formatter applies: a backslash is doubled, a carriage
      return becomes `\r`, and a line feed becomes the alternation `(\n|\r\n)`. */
  function EscapeChar(c: char): string
  {
    if c == '\\' then "\\\\"
    else if c == CR then "\\r"
    else if c == LF then "(\\n|\\r\\n)"
    else [c]
  }

  function EscapeChars(s: string): string
  {
    if s == [] then "" else EscapeChar(s[0]) + EscapeChars(s[1..])
  }

  /** The quote handling of lines 111-114: variables spliced in as ` + "` and `" + ` keep their
      quotes; every other quote is escaped. */
  function QuotePasses(s: string): string
  {
    var a := ReplaceAll(s, " + \"", " + \"\\");
    var b := ReplaceAll(a, "\" + ", "\"\\ + ");
    var c := EscapeLoneQuotes(b);
    ReplaceAll(c, "\"\\", "\"")
  }

  function LinePasses(s: string): string
  {
    ReplaceChar(ReplaceChar(s, CR, "\\r"), LF, "(\\n|\\r\\n)")
  }

  /** `RegexpMatch.patternToString`: `None` is a null pattern. */
  function PatternToString(pattern: Option<string>): (r: string)
    ensures |r| >= 2 && r[0] == '"' && r[|r| - 1] == '"'
  {
    if pattern.None? then "\"\""
    else "\"" + LinePasses(QuotePasses(ReplaceChar(pattern.value, '\\', "\\\\"))) + "\""
  }

  lemma {:induction false} PassesPerChar(s: string)
    ensures LinePasses(ReplaceChar(s, '\\', "\\\\")) == EscapeChars(s)
  {
    if s != [] {
      var head := ReplaceChar([s[0]], '\\', "\\\\");
      var tail := ReplaceChar(s[1..], '\\', "\\\\");
      assert ReplaceChar(s, '\\', "\\\\") == head + tail by {
        assert s == [s[0]] + s[1..];
        ReplaceCharAppend([s[0]], s[1..], '\\', "\\\\");
      }
      assert LinePasses(head + tail) == LinePasses(head) + LinePasses(tail) by {
        ReplaceCharAppend(head, tail, CR, "\\r");
        ReplaceCharAppend(ReplaceChar(head, CR, "\\r"), ReplaceChar(tail, CR, "\\r"), LF, "(\\n|\\r\\n)");
      }
      PassesPerChar(s[1..]);
      PassesOneChar(s[0]);
    }
  }

  lemma PassesOneChar(c: char)
    ensures LinePasses(ReplaceChar([c], '\\', "\\\\")) == EscapeChar(c)
  {
    var once := ReplaceChar([c], '\\', "\\\\");
    assert [c][0] == c && [c][1..] == [];
    assert ReplaceChar([], '\\', "\\\\") == [];
    assert once == (if c == '\\' then "\\\\" else [c]) + [];
    if c == '\\' {
      assert once == "\\\\";
      ReplaceCharAbsent("\\\\", CR, "\\r");
      ReplaceCharAbsent("\\\\", LF, "(\\n|\\r\\n)");
    } else {
      assert once == [c];
      assert ReplaceChar([], CR, "\\r") == [];
      assert ReplaceChar([], LF, "(\\n|\\r\\n)") == [];
      if c == CR {
        assert ReplaceChar([c], CR, "\\r") == "\\r";
        ReplaceCharAbsent("\\r", LF, "(\\n|\\r\\n)");
      } else {
        assert ReplaceChar([c], CR, "\\r") == [c];
      }
    }
  }

  /** Replacing a character the text does not hold changes nothing. */
  lemma {:induction false} ReplaceCharAbsent(s: string, c: char, rep: string)
    requires c !in s
    ensures ReplaceChar(s, c, rep) == s
  {
    if s != [] {
      assert s[0] != c;
      assert c !in s[1..] by {
        assert forall x | x in s[1..] :: x in s;
      }
      ReplaceCharAbsent(s[1..], c, rep);
      assert s == [s[0]] + s[1..];
    }
  }

  /** A pattern without double quotes becomes a quoted C# literal with the three character
      escapes applied, and nothing else changed. */
  lemma QuoteFreePattern(p: string)
    requires '"' !in p
    ensures PatternToString(Some(p)) == "\"" + EscapeChars(p) + "\""
  {
    var doubled := ReplaceChar(p, '\\', "\\\\");
    ReplaceCharKeepsOut(p, '\\', "\\\\", '"');
    ReplaceAllAbsent(doubled, " + \"", " + \"\\", '"');
    ReplaceAllAbsent(doubled, "\" + ", "\"\\ + ", '"');
    EscapeLoneQuotesAbsent(doubled);
    ReplaceAllAbsent(doubled, "\"\\", "\"", '"');
    PassesPerChar(p);
  }

  /** The escaped text never holds a raw line break. */
  lemma {:induction false} EscapedHasNoLineBreak(s: string)
    ensures CR !in EscapeChars(s) && LF !in EscapeChars(s)
  {
    if s != [] {
      EscapedHasNoLineBreak(s[1..]);
    }
  }

  /** A null pattern gives the empty literal. */
  lemma NullPattern()
    ensures PatternToString(None) == "\"\""
  {
  }

  // ---------------------------------------------------------------------------------------------
  // Locators and navigation

  /** The locator strategies with a C# `By` counterpart. */
  function ByMethod(locatorType: string): Option<string>
  {
    if locatorType == "xpath" then Some("XPath")
    else if locatorType == "css" then Some("CssSelector")
    else if locatorType == "id" then Some("Id")
    else if locatorType == "link" then Some("LinkText")
    else if locatorType == "name" then Some("Name")
    else if locatorType == "tag_name" then Some("TagName")
    else None
  }

  /** `WDAPI.Driver.searchContext`: the `By` expression, or the thrown message for any other
      strategy. */
  function SearchContext(locatorType: string, locator: string, xlate: string -> string): (r: Result<string, string>)
    ensures r.Ok? <==> locatorType in {"xpath", "css", "id", "link", "name", "tag_name"}
    ensures r.Ok? ==> r.value == "By." + ByMethod(locatorType).value + "(" + xlate(locator) + ")"
    ensures r.Err? ==> r.error == "Error: unknown strategy [" + locatorType + "] for locator [" + locator + "]"
  {
    match ByMethod(locatorType)
    case Some(m) => Ok("By." + m + "(" + xlate(locator) + ")")
    case None => Err("Error: unknown strategy [" + locatorType + "] for locator [" + locator + "]")
  }

  /** Different strategies on the same locator give different expressions. */
  lemma SearchContextDistinguishes(t1: string, t2: string, locator: string, xlate: string -> string)
    requires t1 != t2
    requires SearchContext(t1, locator, xlate).Ok? && SearchContext(t2, locator, xlate).Ok?
    ensures SearchContext(t1, locator, xlate).value != SearchContext(t2, locator, xlate).value
  {
  }

  /** JavaScript's `substring(a, b)` with `0 <= a <= b`: both ends clamped to the length. */
  function Substring(s: string, a: nat, b: nat): string
    requires a <= b
  {
    var lo := if a <= |s| then a else |s|;
    var hi := if b <= |s| then b else |s|;
    s[lo..hi]
  }

  /** `WDAPI.Driver.prototype.get`: a quoted absolute http or https URL is used as it is; any
      other argument is taken relative to `baseURL`. */
  function Get(driverRef: string, url: string): string
  {
    if |url| > 1 && (Substring(url, 1, 8) == "http://" || Substring(url, 1, 9) == "https://") then
      driverRef + ".Navigate().GoToUrl(" + url + ")"
    else
      driverRef + ".Navigate().GoToUrl(baseURL + " + url + ")"
  }

  /** The URL is used as it is exactly when the text after its opening quote starts with a
      scheme, and is prefixed with the base URL otherwise. */
  lemma GetAbsoluteIff(driverRef: string, url: string)
    ensures |url| > 1 && (StartsWith(url[1..], "http://") || StartsWith(url[1..], "https://")) ==>
      Get(driverRef, url) == driverRef + ".Navigate().GoToUrl(" + url + ")"
    ensures !(|url| > 1 && (StartsWith(url[1..], "http://") || StartsWith(url[1..], "https://"))) ==>
      Get(driverRef, url) == driverRef + ".Navigate().GoToUrl(baseURL + " + url + ")"
  {
    if |url| > 1 {
      if |url| < 8 {
        assert |Substring(url, 1, 8)| < 7;
        assert |Substring(url, 1, 9)| < 8;
      } else if |url| < 9 {
        assert Substring(url, 1, 8) == url[1..][..7];
        assert |Substring(url, 1, 9)| < 8;
      } else {
        assert Substring(url, 1, 8) == url[1..][..7];
        assert Substring(url, 1, 9) == url[1..][..8];
      }
    }
  }

  // ---------------------------------------------------------------------------------------------
  // Select lists

  /** A select option locator: its kind ("index", "value", "label", ...) and its text. */
  datatype SelectLocator = SelectLocator(kind: string, text: string)

  /** The part after `Select`/`Deselect`: by index takes the text as it is, the others pass it
      through `xlateArgument`. */
  function ByWhat(loc: SelectLocator, xlate: string -> string): string
  {
    if loc.kind == "index" then "ByIndex(" + loc.text + ")"
    else if loc.kind == "value" then "ByValue(" + xlate(loc.text) + ")"
    else "ByText(" + xlate(loc.text) + ")"
  }

  /** `WDAPI.Element.prototype.select` as written: its text branch builds `new Select(`, a class
      the C# bindings do not have, where the other branches build `new SelectElement(`. */
  function SelectAsWritten(elementRef: string, loc: SelectLocator, xlate: string -> string): string
  {
    if loc.kind == "index" then "new SelectElement(" + elementRef + ").SelectByIndex(" + loc.text + ")"
    else if loc.kind == "value" then "new SelectElement(" + elementRef + ").SelectByValue(" + xlate(loc.text) + ")"
    else "new Select(" + elementRef + ").SelectByText(" + xlate(loc.text) + ")"
  }

  /** `select` with every branch on `SelectElement`. */
  function Select(elementRef: string, loc: SelectLocator, xlate: string -> string): (r: string)
    ensures StartsWith(r, "new SelectElement(" + elementRef + ").Select")
  {
    "new SelectElement(" + elementRef + ").Select" + ByWhat(loc, xlate)
  }

  /** `WDAPI.Element.prototype.deselect`. */
  function Deselect(elementRef: string, loc: SelectLocator, xlate: string -> string): (r: string)
    ensures StartsWith(r, "new SelectElement(" + elementRef + ").Deselect")
  {
    if loc.kind == "index" then "new SelectElement(" + elementRef + ").DeselectByIndex(" + loc.text + ")"
    else if loc.kind == "value" then "new SelectElement(" + elementRef + ").DeselectByValue(" + xlate(loc.text) + ")"
    else "new SelectElement(" + elementRef + ").DeselectByText(" + xlate(loc.text) + ")"
  }

  /** Selecting and deselecting build the same call on the same object, with only the verb
      differing. */
  lemma SelectMirrorsDeselect(elementRef: string, loc: SelectLocator, xlate: string -> string)
    ensures Select(elementRef, loc, xlate) == "new SelectElement(" + elementRef + ").Select" + ByWhat(loc, xlate)
    ensures Deselect(elementRef, loc, xlate) == "new SelectElement(" + elementRef + ").Deselect" + ByWhat(loc, xlate)
  {
  }

  /** The corrected `select` agrees with the code wherever the code uses `SelectElement`. */
  lemma SelectAgreesOnIndexAndValue(elementRef: string, loc: SelectLocator, xlate: string -> string)
    requires loc.kind == "index" || loc.kind == "value"
    ensures SelectAsWritten(elementRef, loc, xlate) == Select(elementRef, loc, xlate)
  {
    var prefix := "new SelectElement(" + elementRef;
    if loc.kind == "index" {
      assert ").SelectByIndex(" == ").Select" + "ByIndex(";
      Regroup(prefix, ").Select", "ByIndex(", loc.text, ")");
    } else {
      assert ").SelectByValue(" == ").Select" + "ByValue(";
      Regroup(prefix, ").Select", "ByValue(", xlate(loc.text), ")");
    }
  }

  lemma Regroup(p: string, x: string, y: string, t: string, z: string)
    ensures p + (x + y) + t + z == p + x + (y + t + z)
  {
  }

  /** By text, the code as written does not build a `SelectElement`, unlike `deselect`. */
  lemma SelectByTextBuildsSelect(elementRef: string, text: string, xlate: string -> string)
    ensures var r := SelectAsWritten(elementRef, SelectLocator("label", text), xlate);
      StartsWith(r, "new Select(") && !StartsWith(r, "new SelectElement(")
    ensures StartsWith(Deselect(elementRef, SelectLocator("label", text), xlate), "new SelectElement(")
  {
    var r := SelectAsWritten(elementRef, SelectLocator("label", text), xlate);
    assert r[..11] == "new Select(";
    assert r[10] == '(' && "new SelectElement("[10] == 'E';
  }

  // ---------------------------------------------------------------------------------------------
  // Evaluated JavaScript

  /** The characters JavaScript's `trim` removes: white space and line terminators. */
  predicate IsJsSpace(c: char)
  {
    c == '\t' || c == '\n' || c == '\U{000B}' || c == '\U{000C}' || c == '\r' || c == ' ' ||
    c == '\U{00A0}' || c == '\U{1680}' || ('\U{2000}' <= c <= '\U{200A}') || c == '\U{2028}' ||
    c == '\U{2029}' || c == '\U{202F}' || c == '\U{205F}' || c == '\U{3000}' || c == '\U{FEFF}'
  }

  function TrimLeft(s: string): (r: string)
    ensures |r| <= |s| && r == s[|s| - |r|..]
    ensures r == [] || !IsJsSpace(r[0])
  {
    if s != [] && IsJsSpace(s[0]) then TrimLeft(s[1..]) else s
  }

  function TrimRight(s: string): (r: string)
    ensures |r| <= |s| && r == s[..|r|]
    ensures r == [] || !IsJsSpace(r[|r| - 1])
  {
    if s != [] && IsJsSpace(s[|s| - 1]) then TrimRight(s[..|s| - 1]) else s
  }

  /** JavaScript's `trim`. */
  function Trim(s: string): (r: string)
    ensures |r| <= |s|
    ensures r == [] || (!IsJsSpace(r[0]) && !IsJsSpace(r[|r| - 1]))
  {
    var l := TrimLeft(s);
    var r := TrimRight(l);
    assert r != [] ==> r[0] == l[0];
    r
  }

  /** The pieces between semicolons, with the last one turned into a returned expression. */
  function ReturnLast(withoutSemi: string): (r: string)
    ensures |r| > 0 && r[|r| - 1] == ';'
  {
    var splitz := Split(withoutSemi, ';');
    Join(splitz[..|splitz| - 1] + ["return (" + splitz[|splitz| - 1] + "+\"\")"], ";") + ";"
  }

  /** `javaScriptFix` as written: the trailing semicolon is looked for in the trimmed text at
      the index of the untrimmed text's last character, so it is only seen when trimming
      removed nothing. */
  function JavaScriptFixAsWritten(sentence: string): string
  {
    if Contains(sentence, "return") then sentence else ReturnLast(StatementsAsWritten(sentence))
  }

  /** The trimmed text, cut before the index of the untrimmed text's last character when the
      trimmed text holds a semicolon there. */
  function StatementsAsWritten(sentence: string): string
  {
    var t := Trim(sentence);
    if |sentence| >= 1 && |sentence| - 1 < |t| && t[|sentence| - 1] == ';' then t[..|sentence| - 1]
    else t
  }

  /** The trimmed text without one trailing semicolon. */
  function Statements(sentence: string): (r: string)
    ensures r == Trim(sentence) || r + ";" == Trim(sentence)
  {
    var t := Trim(sentence);
    if |t| >= 1 && t[|t| - 1] == ';' then
      assert t[..|t| - 1] + ";" == t;
      t[..|t| - 1]
    else t
  }

  /** `javaScriptFix` with the trailing semicolon looked for at the end of the trimmed text. */
  function JavaScriptFix(sentence: string): string
  {
    if Contains(sentence, "return") then sentence else ReturnLast(Statements(sentence))
  }

  /** The last statement of a semicolon-separated text, and what comes before it. */
  function LastStatement(u: string): (r: string)
    ensures |r| <= |u| && ';' !in r
  {
    var splitz := Split(u, ';');
    JoinSplitLast(u);
    splitz[|splitz| - 1]
  }

  function LeadingStatements(u: string): string
  {
    u[..|u| - |LastStatement(u)|]
  }

  /** The last piece of the split is a suffix of the text, preceded by a semicolon when it is not
      the whole text. */
  lemma JoinSplitLast(u: string)
    ensures var splitz := Split(u, ';');
      |splitz[|splitz| - 1]| <= |u| &&
      u == (if |splitz| == 1 then "" else Join(splitz[..|splitz| - 1], ";") + ";") + splitz[|splitz| - 1]
  {
    var splitz := Split(u, ';');
    var init, last := splitz[..|splitz| - 1], splitz[|splitz| - 1];
    assert u == Join(splitz, ";") by {
      JoinSplit(u, ';');
    }
    if |splitz| > 1 {
      assert u == Join(init, ";") + ";" + last by {
        assert init + [last] == splitz;
        JoinSnoc(init, last, ";");
      }
    } else {
      assert splitz == [last];
    }
  }

  /** What `ReturnLast` builds: the leading statements unchanged, then the last statement
      wrapped as a returned string, then a semicolon. */
  lemma ReturnLastShape(u: string)
    ensures ReturnLast(u) == LeadingStatements(u) + ("return (" + LastStatement(u) + "+\"\")") + ";"
    ensures LeadingStatements(u) + LastStatement(u) == u
    ensures LeadingStatements(u) == [] || LeadingStatements(u)[|LeadingStatements(u)| - 1] == ';'
  {
    var splitz := Split(u, ';');
    var last := splitz[|splitz| - 1];
    JoinSplitLast(u);
    var wrapped := "return (" + last + "+\"\")";
    JoinSnoc(splitz[..|splitz| - 1], wrapped, ";");
    if |splitz| == 1 {
      assert splitz[..0] == [];
      assert LeadingStatements(u) == [];
    } else {
      var lead := Join(splitz[..|splitz| - 1], ";") + ";";
      assert u == lead + last;
      assert LeadingStatements(u) == lead;
    }
  }

  /** Text that mentions "return" is kept; any other text has its last statement returned as a
      string, with the statements before it kept and the semicolon at the end. */
  lemma JavaScriptFixShape(sentence: string)
    ensures Contains(sentence, "return") ==> JavaScriptFix(sentence) == sentence
    ensures !Contains(sentence, "return") ==>
      var u := Statements(sentence);
      JavaScriptFix(sentence) == LeadingStatements(u) + ("return (" + LastStatement(u) + "+\"\")") + ";" &&
      LeadingStatements(u) + LastStatement(u) == u
  {
    ReturnLastShape(Statements(sentence));
  }

  /** Without surrounding white space the code as written and the corrected version agree. */
  lemma AgreeWithoutSurroundingSpace(sentence: string)
    requires Trim(sentence) == sentence
    ensures JavaScriptFixAsWritten(sentence) == JavaScriptFix(sentence)
  {
    StatementsAgree(sentence);
  }

  lemma StatementsAgree(sentence: string)
    requires Trim(sentence) == sentence
    ensures StatementsAsWritten(sentence) == Statements(sentence)
  {
  }

  /** A single statement followed by a semicolon: the statement is kept and an empty expression
      is returned after it. */
  lemma ReturnLastAfterSemicolon(a: string)
    requires ';' !in a
    ensures ReturnLast(a + ";") == a + ";return (+\"\");"
  {
    var wrapped := "return (" + "" + "+\"\")";
    assert Split(a + ";", ';') == [a, ""] by {
      assert a + ";" == a + [';'] + "";
      SplitAtFirst(a, "", ';');
      SplitWithoutSeparator("", ';');
    }
    assert [a, ""][..1] + [wrapped] == [a, wrapped];
    assert Join([a, wrapped], ";") == a + ";" + wrapped;
  }

  /** A single statement without a semicolon is returned. */
  lemma ReturnLastOfOne(a: string)
    requires ';' !in a
    ensures ReturnLast(a) == "return (" + a + "+\"\");"
  {
    SplitWithoutSeparator(a, ';');
    var wrapped := "return (" + a + "+\"\")";
    assert [a][..0] + [wrapped] == [wrapped];
  }

  /** Text shorter than `return` cannot hold it. */
  lemma ShortHasNoReturn(sentence: string)
    requires |sentence| < |"return"|
    ensures !Contains(sentence, "return")
  {
  }

  /** Text with one trailing space and no leading one trims to the text before the space. */
  lemma TrimOneTrailingSpace(s: string)
    requires |s| >= 2 && !IsJsSpace(s[0]) && IsJsSpace(s[|s| - 1]) && !IsJsSpace(s[|s| - 2])
    ensures Trim(s) == s[..|s| - 1]
  {
    assert TrimLeft(s) == s;
    assert TrimRight(s) == TrimRight(s[..|s| - 1]);
  }

  lemma SampleTrimmed(sentence: string)
    requires sentence == "a; "
    ensures Trim(sentence) == "a;"
    ensures !Contains(sentence, "return")
  {
    ShortHasNoReturn(sentence);
    TrimOneTrailingSpace(sentence);
    assert sentence[..2] == "a;";
  }

  /** With a space after the semicolon, the code as written returns an empty expression and
      keeps the real last statement unreturned. */
  lemma TrailingSpaceLosesLastStatement(sentence: string)
    requires sentence == "a; "
    ensures JavaScriptFixAsWritten(sentence) == "a;return (+\"\");"
  {
    SampleTrimmed(sentence);
    assert StatementsAsWritten(sentence) == "a" + ";";
    ReturnLastAfterSemicolon("a");
  }

  /** The corrected version returns the last statement of the same text. */
  lemma TrailingSpaceReturnsLastStatement(sentence: string)
    requires sentence == "a; "
    ensures JavaScriptFix(sentence) == "return (a+\"\");"
  {
    SampleTrimmed(sentence);
    assert Statements(sentence) == "a";
    ReturnLastOfOne("a");
  }
}
