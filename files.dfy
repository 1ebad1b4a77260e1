/** Selenium Manager's file helpers (rust/src/files.rs): version-string parsing, driver file
    names and cache paths, and the choice of decompressor by detected file type. */
module ManagerFiles {
  import opened Wrappers
  import opened Strings

  const PARSE_ERROR: string := "Wrong browser/driver version"
  const ZIP: string := "zip"
  const GZ: string := "gz"
  const XML: string := "xml"

  /** Characters the `[^\d^.]` filter keeps. */
  predicate VersionChar(c: char)
  {
    IsAsciiDigit(c) || c == '^' || c == '.'
  }

  /** `re_numbers_dots.replace_all(token, "")`: drops every other character. */
  function KeepVersionChars(token: string): (r: string)
    ensures |r| <= |token|
    ensures forall i | 0 <= i < |r| :: VersionChar(r[i])
    ensures forall c | VersionChar(c) :: multiset(r)[c] == multiset(token)[c]
  {
    if token == [] then []
    else
      assert token == [token[0]] + token[1..];
      (if VersionChar(token[0]) then [token[0]] else []) + KeepVersionChars(token[1..])
  }

  /** The filter works piece by piece: filtering a concatenation concatenates the filtered
      pieces. With the single-character case this fixes the order of what is kept. */
  lemma {:induction false} KeepVersionCharsAppend(a: string, b: string)
    ensures KeepVersionChars(a + b) == KeepVersionChars(a) + KeepVersionChars(b)
    decreases |a|
  {
    if a == [] {
      assert a + b == b;
    } else {
      var head := if VersionChar(a[0]) then [a[0]] else [];
      assert (a + b)[0] == a[0] && (a + b)[1..] == a[1..] + b;
      KeepVersionCharsAppend(a[1..], b);
      assert KeepVersionChars(a + b) == head + (KeepVersionChars(a[1..]) + KeepVersionChars(b));
      assert KeepVersionChars(a) == head + KeepVersionChars(a[1..]);
      AppendAssoc(head, KeepVersionChars(a[1..]), KeepVersionChars(b));
    }
  }

  /** One character is kept exactly when it is a digit, '^' or '.'. */
  lemma KeepOneChar(c: char)
    ensures KeepVersionChars([c]) == (if VersionChar(c) then [c] else [])
  {
    assert [c][1..] == [];
  }

  /** Text made only of kept characters is unchanged. */
  lemma {:induction false} KeepAllVersionChars(token: string)
    requires forall i | 0 <= i < |token| :: VersionChar(token[i])
    ensures KeepVersionChars(token) == token
    decreases |token|
  {
    if token != [] {
      var rest := token[1..];
      KeepAllVersionChars(rest);
      KeepOneChar(token[0]);
      KeepVersionCharsAppend([token[0]], rest);
      assert [token[0]] + rest == token;
    }
  }

  /** Filtering twice is filtering once. */
  lemma KeepVersionCharsIdempotent(token: string)
    ensures KeepVersionChars(KeepVersionChars(token)) == KeepVersionChars(token)
  {
    KeepAllVersionChars(KeepVersionChars(token));
  }

  /** `re_versions.is_match`: the unanchored pattern needs digits, a dot and digits, and its
      optional leading groups never prevent a match. */
  predicate HasVersionPattern(s: string)
  {
    exists i | 0 <= i && i + 2 < |s| :: IsAsciiDigit(s[i]) && s[i + 1] == '.' && IsAsciiDigit(s[i + 2])
  }

  /** The token the loop stops at: the first whose filtered form has the pattern, else the last
      one's filtered form. */
  function SelectToken(tokens: seq<string>): (r: string)
    requires |tokens| >= 1
    ensures forall i | 0 <= i < |r| :: VersionChar(r[i])
  {
    var v := KeepVersionChars(tokens[0]);
    if HasVersionPattern(v) || |tokens| == 1 then v else SelectToken(tokens[1..])
  }

  /** At most one trailing dot is removed. */
  function DropOneTrailingDot(s: string): (r: string)
    ensures s == r || s == r + ['.']
    ensures EndsWith(s, ".") <==> s == r + ['.']
  {
    if |s| > 0 && s[|s| - 1] == '.' then s[..|s| - 1] else s
  }

  /** `parse_version`, as a function of the text. */
  function ParsedVersion(text: string): Result<string, string>
  {
    if Contains(ToLowerAscii(text), "error") then Err(PARSE_ERROR)
    else Ok(DropOneTrailingDot(SelectToken(Split(text, ' '))))
  }

  /** `parse_version`: the loop over space-separated tokens, stopping at the first that matches. */
  method ParseVersion(text: string) returns (r: Result<string, string>)
    ensures r == ParsedVersion(text)
  {
    if Contains(ToLowerAscii(text), "error") {
      return Err(PARSE_ERROR);
    }
    var tokens := Split(text, ' ');
    var parsed := "";
    var i := 0;
    while i < |tokens|
      invariant 0 <= i <= |tokens|
      invariant i < |tokens| ==> SelectToken(tokens) == SelectToken(tokens[i..])
      invariant i == |tokens| ==> SelectToken(tokens) == parsed
    {
      parsed := KeepVersionChars(tokens[i]);
      if HasVersionPattern(parsed) {
        break;
      }
      if i + 1 < |tokens| {
        assert tokens[i..][1..] == tokens[i + 1..];
      }
      i := i + 1;
    }
    assert SelectToken(tokens) == parsed;
    if |parsed| > 0 && parsed[|parsed| - 1] == '.' {
      parsed := parsed[..|parsed| - 1];
    }
    return Ok(parsed);
  }

  /** Any letter-case spelling of "error" in the text is refused. */
  lemma ErrorTextRefused(prefix: string, word: string, suffix: string)
    requires ToLowerAscii(word) == "error"
    ensures ParsedVersion(prefix + word + suffix) == Err(PARSE_ERROR)
  {
    var t := prefix + word + suffix;
    var lower := ToLowerAscii(t);
    assert |word| == 5;
    forall j | 0 <= j < 5
      ensures lower[|prefix| + j] == ToLowerAscii(word)[j]
    {
      assert t[|prefix| + j] == word[j];
    }
    assert lower[|prefix|..|prefix| + 5] == "error";
    assert OccursAt(lower, "error", |prefix|);
  }

  /** A successful parse holds only digits, '^' and '.', and comes from the first token with a
      version pattern when there is one. */
  lemma ParsedVersionShape(text: string, k: nat)
    requires !Contains(ToLowerAscii(text), "error")
    ensures ParsedVersion(text).Ok?
    ensures forall i | 0 <= i < |ParsedVersion(text).value| :: VersionChar(ParsedVersion(text).value[i])
    ensures (k < |Split(text, ' ')| && HasVersionPattern(KeepVersionChars(Split(text, ' ')[k])) &&
      (forall j | 0 <= j < k :: !HasVersionPattern(KeepVersionChars(Split(text, ' ')[j])))) ==>
      ParsedVersion(text).value == DropOneTrailingDot(KeepVersionChars(Split(text, ' ')[k]))
  {
    var tokens := Split(text, ' ');
    var selected := SelectToken(tokens);
    assert ParsedVersion(text) == Ok(DropOneTrailingDot(selected));
    DroppedDotKeepsVersionChars(selected);
    if k < |tokens| && HasVersionPattern(KeepVersionChars(tokens[k])) &&
       (forall j | 0 <= j < k :: !HasVersionPattern(KeepVersionChars(tokens[j]))) {
      FirstMatchSelected(tokens, k);
    }
  }

  lemma DroppedDotKeepsVersionChars(s: string)
    requires forall i | 0 <= i < |s| :: VersionChar(s[i])
    ensures forall i | 0 <= i < |DropOneTrailingDot(s)| :: VersionChar(DropOneTrailingDot(s)[i])
  {
    var r := DropOneTrailingDot(s);
    assert forall i | 0 <= i < |r| :: r[i] == s[i];
  }

  lemma {:induction false} FirstMatchSelected(tokens: seq<string>, k: nat)
    requires k < |tokens| && HasVersionPattern(KeepVersionChars(tokens[k]))
    requires forall j | 0 <= j < k :: !HasVersionPattern(KeepVersionChars(tokens[j]))
    ensures SelectToken(tokens) == KeepVersionChars(tokens[k])
  {
    if k > 0 {
      var rest := tokens[1..];
      assert !HasVersionPattern(KeepVersionChars(tokens[0]));
      assert SelectToken(tokens) == SelectToken(rest);
      assert rest[k - 1] == tokens[k];
      forall j | 0 <= j < k - 1
        ensures !HasVersionPattern(KeepVersionChars(rest[j]))
      {
        assert rest[j] == tokens[j + 1];
      }
      FirstMatchSelected(rest, k - 1);
    }
  }

  /** Without any matching token the last token's filtered form is used. */
  lemma {:induction false} NoMatchTakesLast(tokens: seq<string>)
    requires |tokens| >= 1
    requires forall j | 0 <= j < |tokens| :: !HasVersionPattern(KeepVersionChars(tokens[j]))
    ensures SelectToken(tokens) == KeepVersionChars(tokens[|tokens| - 1])
    decreases |tokens|
  {
    if |tokens| > 1 {
      var rest := tokens[1..];
      assert !HasVersionPattern(KeepVersionChars(tokens[0]));
      forall j | 0 <= j < |rest|
        ensures !HasVersionPattern(KeepVersionChars(rest[j]))
      {
        assert rest[j] == tokens[j + 1];
      }
      NoMatchTakesLast(rest);
    }
  }

  /** `get_binary_extension`; `isWindows` is `WINDOWS.is`, which is not part of this model. */
  function BinaryExtension(os: string, isWindows: string -> bool): (r: string)
    ensures r == ".exe" <==> isWindows(os)
    ensures r == "" <==> !isWindows(os)
  {
    if isWindows(os) then ".exe" else ""
  }

  /** `get_driver_filename`. */
  function DriverFilename(driverName: string, os: string, isWindows: string -> bool): (r: string)
    ensures StartsWith(r, driverName)
    ensures r[|driverName|..] == BinaryExtension(os, isWindows)
  {
    driverName + BinaryExtension(os, isWindows)
  }

  /** `compose_driver_path_in_cache`, a path as its list of components under the cache root. */
  function DriverPathInCache(cacheRoot: seq<string>, driverName: string, os: string, archFolder: string,
                             driverVersion: string, isWindows: string -> bool): (r: seq<string>)
    ensures |r| == |cacheRoot| + 4 && r[..|cacheRoot|] == cacheRoot
    ensures r[|cacheRoot|..] == [driverName, archFolder, driverVersion, DriverFilename(driverName, os, isWindows)]
  {
    cacheRoot + [driverName, archFolder, driverVersion, DriverFilename(driverName, os, isWindows)]
  }

  datatype Decompressor = Unzip | Untargz

  /** The dispatch in `uncompress` on the detected extension (None when the type cannot be
      inferred); `fileDebug` is the `{:?}` (Debug) text of the opened file, which the message
      shows. The archive readers themselves are not part of this model. */
  function ChooseDecompressor(extension: Option<string>, fileDebug: string): (r: Result<Decompressor, string>)
    ensures extension.None? ==> r.Err? && |r.error| >= |"Format for file "| && fileDebug <= r.error[|"Format for file "|..]
    ensures extension.Some? && EqualsIgnoreCase(extension.value, ZIP) ==> r == Ok(Unzip)
    ensures extension.Some? && EqualsIgnoreCase(extension.value, GZ) ==> r == Ok(Untargz)
    ensures extension.Some? && EqualsIgnoreCase(extension.value, XML) ==> r == Err(PARSE_ERROR)
    ensures r.Ok? ==> extension.Some? && (EqualsIgnoreCase(extension.value, ZIP) || EqualsIgnoreCase(extension.value, GZ))
  {
    match extension
    case None => Err("Format for file " + fileDebug + " cannot be inferred")
    case Some(ext) =>
      if EqualsIgnoreCase(ext, ZIP) then Ok(Unzip)
      else if EqualsIgnoreCase(ext, GZ) then Ok(Untargz)
      else if EqualsIgnoreCase(ext, XML) then Err(PARSE_ERROR)
      else Err("Downloaded file cannot be uncompressed (" + ext + " extension)")
  }

  /** The dispatch ignores letter case: "ZIP" and "Zip" unzip like "zip". */
  lemma DispatchIgnoresCase()
    ensures ChooseDecompressor(Some("ZIP"), "f") == Ok(Unzip)
    ensures ChooseDecompressor(Some("Gz"), "f") == Ok(Untargz)
    ensures ChooseDecompressor(Some("XML"), "f") == Err(PARSE_ERROR)
  {
    assert ToLowerAscii("ZIP") == "zip";
    assert ToLowerAscii("Gz") == "gz";
    assert ToLowerAscii("XML") == "xml";
    assert ToLowerAscii(ZIP) == "zip";
    assert ToLowerAscii(GZ) == "gz";
    assert ToLowerAscii(XML) == "xml";
  }
}
