/** The Ruby binding's W3C capabilities (Selenium::WebDriver::Remote::W3CCapabilities): a
    capability hash updated in place, the Firefox option translation, and the conversion of
    capability names to the spellings of section 7 of the W3C WebDriver specification. */
module RemoteCapabilities {
  import opened Wrappers
  import opened Strings

  /** A Ruby hash key: a Symbol, a String, or any other object (kept by its `inspect` text). */
  datatype Key = Sym(name: string) | Str(text: string) | OtherKey(inspect: string)

  /** Ruby values as far as the capabilities look at them. A `Proxy` object is kept by the hash
      it was built from; any other object by its class name and `inspect` text. */
  datatype RValue =
    | Nil
    | Bool(b: bool)
    | Int(i: int)
    | Text(s: string)
    | Symbol(name: string)
    | Hash(entries: seq<(Key, RValue)>)
    | Arr(items: seq<RValue>)
    | ProxyObj(settings: seq<(Key, RValue)>)
    | Opaque(className: string, inspect: string)

  /** A Ruby Hash: its entries in insertion order. */
  type Entries = seq<(Key, RValue)>

  datatype RubyError =
    | TypeError(message: string)
    | ArgumentError(message: string)
    | KeyError(key: Key)
    | NoMethodError(name: string)

  /** Ruby truthiness: only nil and false are falsy. */
  predicate Truthy(v: RValue)
  {
    !(v.Nil? || v == Bool(false))
  }

  // ---------------------------------------------------------------------------------------
  // Ruby Hash operations on insertion-ordered entries

  function KeySet(h: Entries): set<Key>
  {
    if h == [] then {} else {h[0].0} + KeySet(h[1..])
  }

  /** No key occurs twice, as in every Ruby Hash. */
  predicate IsHash(h: Entries)
  {
    forall i, j | 0 <= i < j < |h| :: h[i].0 != h[j].0
  }

  function Lookup(h: Entries, k: Key): (r: Option<RValue>)
    ensures r.Some? <==> k in KeySet(h)
  {
    if h == [] then None
    else if h[0].0 == k then Some(h[0].1)
    else Lookup(h[1..], k)
  }

  /** `hash[key]`: nil for a missing key. */
  function Get(h: Entries, k: Key): RValue
  {
    if Lookup(h, k).Some? then Lookup(h, k).value else Nil
  }

  /** `hash[key] = value`: an existing key keeps its place, a new one goes last. */
  function Put(h: Entries, k: Key, v: RValue): (r: Entries)
    ensures Lookup(r, k) == Some(v)
    ensures forall k' | k' != k :: Lookup(r, k') == Lookup(h, k')
    ensures KeySet(r) == KeySet(h) + {k}
    ensures k in KeySet(h) ==> |r| == |h|
    ensures k !in KeySet(h) ==> r == h + [(k, v)]
  {
    if h == [] then [(k, v)]
    else if h[0].0 == k then [(k, v)] + h[1..]
    else [h[0]] + Put(h[1..], k, v)
  }

  /** `hash.delete(key)`, for the hash it leaves. */
  function Delete(h: Entries, k: Key): (r: Entries)
    ensures Lookup(r, k) == None
    ensures forall k' | k' != k :: Lookup(r, k') == Lookup(h, k')
    ensures KeySet(r) == KeySet(h) - {k}
  {
    if h == [] then []
    else if h[0].0 == k then Delete(h[1..], k)
    else [h[0]] + Delete(h[1..], k)
  }

  /** Deleting keeps a hash's keys distinct. */
  lemma {:induction false} DeleteKeepsHash(h: Entries, k: Key)
    requires IsHash(h)
    ensures IsHash(Delete(h, k))
  {
    if h != [] {
      var rest := h[1..];
      assert IsHash(rest) by {
        forall i, j | 0 <= i < j < |rest|
          ensures rest[i].0 != rest[j].0
        {
          assert rest[i] == h[i + 1] && rest[j] == h[j + 1];
        }
      }
      DeleteKeepsHash(rest, k);
      if h[0].0 != k {
        NotInRest(h);
        var d := Delete(rest, k);
        assert h[0].0 !in KeySet(d);
        forall j | 0 <= j < |d|
          ensures d[j].0 != h[0].0
        {
          KeyAt(d, j);
        }
      }
    }
  }

  /** The key at a position is among the keys. */
  lemma {:induction false} KeyAt(h: Entries, j: nat)
    requires j < |h|
    ensures h[j].0 in KeySet(h)
  {
    if j > 0 {
      assert h[1..][j - 1] == h[j];
      KeyAt(h[1..], j - 1);
    }
  }

  /** `hash.merge!(other)`: the other hash's entries are stored one by one, in its order. */
  function Merge(h: Entries, other: Entries): (r: Entries)
    ensures KeySet(r) == KeySet(h) + KeySet(other)
    decreases |other|
  {
    if other == [] then h else Merge(Put(h, other[0].0, other[0].1), other[1..])
  }

  /** A merge lets the other hash win on shared keys and keeps every other entry. */
  lemma {:induction false} MergeOtherWins(h: Entries, other: Entries, k: Key)
    requires IsHash(other)
    ensures Lookup(Merge(h, other), k) == (if k in KeySet(other) then Lookup(other, k) else Lookup(h, k))
    decreases |other|
  {
    if other != [] {
      var rest := other[1..];
      assert IsHash(rest) by {
        forall i, j | 0 <= i < j < |rest|
          ensures rest[i].0 != rest[j].0
        {
          assert rest[i] == other[i + 1] && rest[j] == other[j + 1];
        }
      }
      MergeOtherWins(Put(h, other[0].0, other[0].1), rest, k);
      if k == other[0].0 {
        NotInRest(other);
      }
    }
  }

  /** The first key of a hash does not occur again. */
  lemma NotInRest(h: Entries)
    requires IsHash(h) && h != []
    ensures h[0].0 !in KeySet(h[1..])
  {
    var rest := h[1..];
    forall j | 0 <= j < |rest|
      ensures rest[j].0 != h[0].0
    {
      assert rest[j] == h[j + 1];
    }
    AbsentKey(rest, h[0].0);
  }

  /** A key held by no entry is not among the keys. */
  lemma {:induction false} AbsentKey(h: Entries, k: Key)
    requires forall j | 0 <= j < |h| :: h[j].0 != k
    ensures k !in KeySet(h)
  {
    if h != [] {
      assert forall j | 0 <= j < |h[1..]| :: h[1..][j] == h[j + 1];
      AbsentKey(h[1..], k);
    }
  }

  // ---------------------------------------------------------------------------------------
  // Key spelling

  /** No "_" is followed by an ASCII lowercase letter. */
  predicate NoUnderscoreLower(s: string)
  {
    forall i | 0 <= i < |s| - 1 :: !(s[i] == '_' && IsAsciiLower(s[i + 1]))
  }

  /** `camel_case`: every "_" followed by a lowercase letter is replaced by that letter upper-cased,
      scanning left to right without overlaps. */
  function CamelCase(s: string): (r: string)
    ensures |r| <= |s|
    ensures r != [] <==> s != []
    ensures s != [] ==> r[0] == (if |s| >= 2 && s[0] == '_' && IsAsciiLower(s[1]) then ToUpperChar(s[1]) else s[0])
  {
    if s == [] then []
    else if |s| >= 2 && s[0] == '_' && IsAsciiLower(s[1]) then [ToUpperChar(s[1])] + CamelCase(s[2..])
    else [s[0]] + CamelCase(s[1..])
  }

  /** No replacement is left to make afterwards, so camel-casing twice is camel-casing once. */
  lemma {:induction false} CamelCaseLeavesNoMatch(s: string)
    ensures NoUnderscoreLower(CamelCase(s))
    decreases |s|
  {
    if s != [] {
      var r := CamelCase(s);
      if |s| >= 2 && s[0] == '_' && IsAsciiLower(s[1]) {
        CamelCaseLeavesNoMatch(s[2..]);
        assert r == [ToUpperChar(s[1])] + CamelCase(s[2..]);
        assert forall i | 1 <= i < |r| - 1 :: r[i] == CamelCase(s[2..])[i - 1] && r[i + 1] == CamelCase(s[2..])[i];
      } else {
        CamelCaseLeavesNoMatch(s[1..]);
        var t := CamelCase(s[1..]);
        assert r == [s[0]] + t;
        assert forall i | 1 <= i < |r| - 1 :: r[i] == t[i - 1] && r[i + 1] == t[i];
        if |r| >= 2 && s[0] == '_' {
          assert !IsAsciiLower(s[1]);
          assert r[1] == t[0];
          assert !IsAsciiLower(r[1]) by {
            if |s| >= 3 && s[1] == '_' && IsAsciiLower(s[2]) {
              assert t[0] == ToUpperChar(s[2]);
            }
          }
        }
      }
    }
  }

  /** Text with nothing to replace is kept as it is. */
  lemma {:induction false} CamelCaseKeepsClean(s: string)
    requires NoUnderscoreLower(s)
    ensures CamelCase(s) == s
    decreases |s|
  {
    if s != [] {
      assert NoUnderscoreLower(s[1..]) by {
        forall i | 0 <= i < |s[1..]| - 1
          ensures !(s[1..][i] == '_' && IsAsciiLower(s[1..][i + 1]))
        {
          assert s[1..][i] == s[i + 1] && s[1..][i + 1] == s[i + 2];
        }
      }
      CamelCaseKeepsClean(s[1..]);
    }
  }

  lemma CamelCaseIdempotent(s: string)
    ensures CamelCase(CamelCase(s)) == CamelCase(s)
  {
    CamelCaseLeavesNoMatch(s);
    CamelCaseKeepsClean(CamelCase(s));
  }

  /** The known names become the W3C spellings. */
  lemma CamelCaseOfBrowserName()
    ensures CamelCase("browser_name") == "browserName"
  {
    CamelCaseOneWord("browser_name", "browser", 'n', "ame", "browserName");
  }

  lemma CamelCaseOfPlatformVersion()
    ensures CamelCase("platform_version") == "platformVersion"
  {
    CamelCaseOneWord("platform_version", "platform", 'v', "ersion", "platformVersion");
  }

  /** A name made of two words joined by one underscore. */
  lemma CamelCaseOneWord(s: string, a: string, c: char, b: string, t: string)
    requires '_' !in a && '_' !in b && IsAsciiLower(c)
    requires s == a + "_" + [c] + b && t == a + [ToUpperChar(c)] + b
    ensures CamelCase(s) == t
  {
    CamelCaseWord(a, c, b, "");
    assert s == a + "_" + [c] + b + "";
    assert t == a + [ToUpperChar(c)] + b + CamelCase("");
  }

  /** A word without underscores is kept, and "_" with a lowercase letter after it becomes that
      letter upper-cased. */
  lemma CamelCaseWord(a: string, c: char, b: string, rest: string)
    requires '_' !in a && '_' !in b && IsAsciiLower(c)
    ensures CamelCase(a + "_" + [c] + b + rest) == a + [ToUpperChar(c)] + b + CamelCase(rest)
  {
    var t := "_" + [c] + (b + rest);
    Reassociate(a, "_" + [c], b, rest);
    assert a + "_" + [c] == a + ("_" + [c]);
    CamelCasePlainPrefix(a, t);
    CamelCaseUnderscore(c, b + rest);
    CamelCasePlainPrefix(b, rest);
    Reassociate(a, [ToUpperChar(c)], b, CamelCase(rest));
  }

  lemma Reassociate(a: string, x: string, b: string, r: string)
    ensures a + (x + (b + r)) == a + x + b + r
  {
  }

  /** "_" followed by a lowercase letter becomes that letter upper-cased. */
  lemma CamelCaseUnderscore(c: char, u: string)
    requires IsAsciiLower(c)
    ensures CamelCase("_" + [c] + u) == [ToUpperChar(c)] + CamelCase(u)
  {
    var t := "_" + [c] + u;
    assert t[0] == '_' && t[1] == c && t[2..] == u;
  }

  /** A prefix without underscores passes through unchanged. */
  lemma {:induction false} CamelCasePlainPrefix(a: string, rest: string)
    requires '_' !in a
    ensures CamelCase(a + rest) == a + CamelCase(rest)
    decreases |a|
  {
    if a != [] {
      var t := a + rest;
      assert a[0] != '_' by { assert a[0] in a; }
      assert forall x | x in a[1..] :: x in a;
      assert t[0] == a[0] && t[1..] == a[1..] + rest;
      CamelCasePlainPrefix(a[1..], rest);
      assert CamelCase(t) == [a[0]] + CamelCase(t[1..]);
      assert [a[0]] + (a[1..] + CamelCase(rest)) == a + CamelCase(rest);
    } else {
      assert a + rest == rest;
    }
  }

  // ---------------------------------------------------------------------------------------
  // as_json

  /** `value.to_s` for the values whose text is fixed; `toS` is the method of any other object. */
  function ToS(v: RValue, toS: RValue -> string): string
  {
    match v
    case Nil => ""
    case Bool(b) => if b then "true" else "false"
    case Int(i) => IntToString(i)
    case Text(s) => s
    case Symbol(n) => n
    case _ => toS(v)
  }

  /** One step of `as_json`: the case on the key; `proxyJson` is `Proxy#as_json`, which is not part
      of this model. */
  function AddJson(m: map<string, RValue>, k: Key, v: RValue, toS: RValue -> string, proxyJson: RValue -> RValue)
    : Result<map<string, RValue>, RubyError>
  {
    if k == Sym("platform") then Ok(m["platform" := Text(ToUpperAscii(ToS(v, toS)))])
    else if k == Sym("proxy") then (if Truthy(v) then Ok(m["proxy" := proxyJson(v)]) else Ok(m))
    else if k == Sym("firefox_options") then Ok(m["moz:firefoxOptions" := v])
    else if k.Str? then Ok(m[k.text := v])
    else if k == Sym("firefox_binary") then Ok(m["firefox_binary" := v])
    else if k.Sym? then Ok(m[CamelCase(k.name) := v])
    else Err(TypeError("expected String or Symbol, got " + k.inspect))
  }

  /** `as_json`, entry by entry in insertion order. */
  function JsonOf(h: Entries, toS: RValue -> string, proxyJson: RValue -> RValue): Result<map<string, RValue>, RubyError>
    decreases |h|
  {
    if h == [] then Ok(map[])
    else
      match JsonOf(h[..|h| - 1], toS, proxyJson)
      case Err(e) => Err(e)
      case Ok(m) => AddJson(m, h[|h| - 1].0, h[|h| - 1].1, toS, proxyJson)
  }

  /** The name an entry is written under, if any: a nil or false proxy is left out. */
  function JsonName(k: Key, v: RValue): Option<string>
  {
    match k
    case Sym(n) =>
      if n == "platform" || n == "firefox_binary" then Some(n)
      else if n == "proxy" then (if Truthy(v) then Some(n) else None)
      else if n == "firefox_options" then Some("moz:firefoxOptions")
      else Some(CamelCase(n))
    case Str(s) => Some(s)
    case OtherKey(_) => None
  }

  /** The value an entry is written with. */
  function JsonValue(k: Key, v: RValue, toS: RValue -> string, proxyJson: RValue -> RValue): RValue
  {
    if k == Sym("platform") then Text(ToUpperAscii(ToS(v, toS)))
    else if k == Sym("proxy") then proxyJson(v)
    else v
  }

  /** The last entry written under `name`, if any. */
  function LastFor(h: Entries, name: string): (r: Option<(Key, RValue)>)
    ensures r.Some? ==> r.value in h && JsonName(r.value.0, r.value.1) == Some(name)
    decreases |h|
  {
    if h == [] then None
    else if JsonName(h[|h| - 1].0, h[|h| - 1].1) == Some(name) then Some(h[|h| - 1])
    else LastFor(h[..|h| - 1], name)
  }

  /** `as_json` fails exactly when some key is neither a String nor a Symbol. */
  lemma {:induction false} JsonFailsOnOtherKeys(h: Entries, toS: RValue -> string, proxyJson: RValue -> RValue)
    ensures JsonOf(h, toS, proxyJson).Err? <==> exists i | 0 <= i < |h| :: h[i].0.OtherKey?
    decreases |h|
  {
    if h != [] {
      var init := h[..|h| - 1];
      var last := h[|h| - 1];
      JsonFailsOnOtherKeys(init, toS, proxyJson);
      var before := JsonOf(init, toS, proxyJson);
      if before.Ok? {
        AddJsonFails(before.value, last.0, last.1, toS, proxyJson);
      }
      assert JsonOf(h, toS, proxyJson).Err? <==> before.Err? || last.0.OtherKey?;
      OtherKeyInInitOrLast(h, init);
    }
  }

  /** A key that is neither a String nor a Symbol sits in the leading entries or is the last. */
  lemma OtherKeyInInitOrLast(h: Entries, init: Entries)
    requires h != [] && init == h[..|h| - 1]
    ensures (exists i | 0 <= i < |h| :: h[i].0.OtherKey?) <==>
            (exists i | 0 <= i < |init| :: init[i].0.OtherKey?) || h[|h| - 1].0.OtherKey?
  {
    if exists i | 0 <= i < |h| :: h[i].0.OtherKey? {
      var i :| 0 <= i < |h| && h[i].0.OtherKey?;
      if i < |init| {
        assert init[i].0.OtherKey?;
      }
    }
    if exists i | 0 <= i < |init| :: init[i].0.OtherKey? {
      var i :| 0 <= i < |init| && init[i].0.OtherKey?;
      assert h[i] == init[i];
    }
  }

  /** One entry fails to convert exactly when its key is neither a String nor a Symbol. */
  lemma AddJsonFails(m: map<string, RValue>, k: Key, v: RValue, toS: RValue -> string, proxyJson: RValue -> RValue)
    ensures AddJson(m, k, v, toS, proxyJson).Err? <==> k.OtherKey?
  {
  }

  /** Each name of the JSON form holds the value of the last entry written under it, and no other
      name appears; so a later entry overrides an earlier one with the same spelling. */
  lemma {:induction false} JsonLastWins(h: Entries, toS: RValue -> string, proxyJson: RValue -> RValue, name: string)
    requires JsonOf(h, toS, proxyJson).Ok?
    ensures var m := JsonOf(h, toS, proxyJson).value;
      (name in m <==> LastFor(h, name).Some?) &&
      (name in m ==> m[name] == JsonValue(LastFor(h, name).value.0, LastFor(h, name).value.1, toS, proxyJson))
    decreases |h|
  {
    if h != [] {
      var init := h[..|h| - 1];
      JsonLastWins(init, toS, proxyJson, name);
      AddJsonWrites(JsonOf(init, toS, proxyJson).value, h[|h| - 1].0, h[|h| - 1].1, toS, proxyJson, name);
    }
  }

  /** One step writes its entry under the entry's name and leaves every other name alone. */
  lemma AddJsonWrites(m: map<string, RValue>, k: Key, v: RValue, toS: RValue -> string, proxyJson: RValue -> RValue,
                      name: string)
    requires AddJson(m, k, v, toS, proxyJson).Ok?
    ensures var m' := AddJson(m, k, v, toS, proxyJson).value;
      if JsonName(k, v) == Some(name) then name in m' && m'[name] == JsonValue(k, v, toS, proxyJson)
      else (name in m' <==> name in m) && (name in m ==> m'[name] == m[name])
  {
  }

  /** A capability held under its Ruby symbol and one held under its W3C string spelling give the
      same JSON form. */
  lemma SymbolAndStringSpellingsAgree(v: RValue, toS: RValue -> string, proxyJson: RValue -> RValue)
    ensures JsonOf([(Sym("browser_name"), v)], toS, proxyJson) == JsonOf([(Str("browserName"), v)], toS, proxyJson)
    ensures JsonOf([(Sym("browser_name"), v)], toS, proxyJson) == Ok(map["browserName" := v])
  {
    JsonOfOne(Sym("browser_name"), v, toS, proxyJson);
    JsonOfOne(Str("browserName"), v, toS, proxyJson);
    BrowserNameSymbolStep(Sym("browser_name"), v, toS, proxyJson);
    BrowserNameStringStep(Str("browserName"), v, toS, proxyJson);
  }

  lemma BrowserNameSymbolStep(k: Key, v: RValue, toS: RValue -> string, proxyJson: RValue -> RValue)
    requires k == Sym("browser_name")
    ensures AddJson(map[], k, v, toS, proxyJson) == Ok(map["browserName" := v])
  {
    assert |k.name| == 12;
    PlainSymbolStep(map[], k, v, toS, proxyJson);
    CamelCaseOfBrowserName();
  }

  /** A symbol of twelve characters, a length none of the special-cased symbols has, is written
      under its camel-cased name. */
  lemma PlainSymbolStep(m: map<string, RValue>, k: Key, v: RValue, toS: RValue -> string, proxyJson: RValue -> RValue)
    requires k.Sym? && |k.name| == 12
    ensures AddJson(m, k, v, toS, proxyJson) == Ok(m[CamelCase(k.name) := v])
  {
    assert k != Sym("platform") && k != Sym("proxy") && k != Sym("firefox_options") && k != Sym("firefox_binary");
  }

  lemma BrowserNameStringStep(k: Key, v: RValue, toS: RValue -> string, proxyJson: RValue -> RValue)
    requires k == Str("browserName")
    ensures AddJson(map[], k, v, toS, proxyJson) == Ok(map["browserName" := v])
  {
  }

  /** The JSON form of a one-entry hash is that entry's step. */
  lemma JsonOfOne(k: Key, v: RValue, toS: RValue -> string, proxyJson: RValue -> RValue)
    ensures JsonOf([(k, v)], toS, proxyJson) == AddJson(map[], k, v, toS, proxyJson)
  {
    assert [(k, v)][..0] == [];
  }

  /** The platform is written upper-cased; a nil proxy is left out. */
  lemma PlatformUpcasedProxyOmitted(toS: RValue -> string, proxyJson: RValue -> RValue)
    ensures JsonOf([(Sym("platform"), Symbol("mac")), (Sym("proxy"), Nil)], toS, proxyJson) == Ok(map["platform" := Text("MAC")])
  {
    var h := [(Sym("platform"), Symbol("mac")), (Sym("proxy"), Nil)];
    assert h[..1][..0] == [];
    assert h[..1] == [(Sym("platform"), Symbol("mac"))];
    assert ToUpperAscii("mac") == "MAC";
  }

  // ---------------------------------------------------------------------------------------
  // proxy=, merge!, ==

  /** The start of the message `proxy=` raises; the offending value's `inspect` text that follows
      it is not modelled. */
  const PROXY_TYPE_ERROR: string := "expected Hash or Selenium::WebDriver::Proxy, got "

  /** `proxy=`: a Hash is wrapped in a Proxy, a Proxy or nil is stored as it is, anything else is
      refused. */
  function WithProxy(h: Entries, proxy: RValue): (r: Result<Entries, RubyError>)
    ensures r.Ok? <==> proxy.Hash? || proxy.ProxyObj? || proxy.Nil?
    ensures r.Ok? ==> r.value == Put(h, Sym("proxy"), if proxy.Hash? then ProxyObj(proxy.entries) else proxy)
  {
    match proxy
    case Hash(e) => Ok(Put(h, Sym("proxy"), ProxyObj(e)))
    case ProxyObj(_) => Ok(Put(h, Sym("proxy"), proxy))
    case Nil => Ok(Put(h, Sym("proxy"), proxy))
    case _ => Err(TypeError(PROXY_TYPE_ERROR))
  }

  /** The argument of `merge!`: an object answering `capabilities` (protected methods included),
      or any other value. */
  datatype MergeSource = Responds(capabilities: RValue) | Value(value: RValue)

  /** The hash `merge!` takes its entries from, if it accepts the argument. */
  function MergeableHash(other: MergeSource): (r: Option<Entries>)
    ensures r.Some? <==> (other.Responds? && other.capabilities.Hash?) || (other.Value? && other.value.Hash?)
  {
    match other
    case Responds(Hash(e)) => Some(e)
    case Value(Hash(e)) => Some(e)
    case _ => None
  }

  /** `==`: false for anything that is not a W3CCapabilities (None), otherwise equality of the two
      JSON forms, raising what either `as_json` raises. */
  function CapsEqual(a: Entries, b: Option<Entries>, toS: RValue -> string, proxyJson: RValue -> RValue)
    : (r: Result<bool, RubyError>)
    ensures b.None? ==> r == Ok(false)
    ensures b.Some? && JsonOf(a, toS, proxyJson).Ok? && JsonOf(b.value, toS, proxyJson).Ok? ==>
      r == Ok(JsonOf(a, toS, proxyJson).value == JsonOf(b.value, toS, proxyJson).value)
    ensures r.Err? ==> JsonOf(a, toS, proxyJson).Err? || JsonOf(b.value, toS, proxyJson).Err?
  {
    if b.None? then Ok(false)
    else
      match JsonOf(a, toS, proxyJson)
      case Err(e) => Err(e)
      case Ok(x) =>
        match JsonOf(b.value, toS, proxyJson)
        case Err(e) => Err(e)
        case Ok(y) => Ok(x == y)
  }

  /** `==` is symmetric, and reflexive whenever the JSON form exists. */
  lemma CapsEqualSymmetric(a: Entries, b: Entries, toS: RValue -> string, proxyJson: RValue -> RValue)
    requires JsonOf(a, toS, proxyJson).Ok? && JsonOf(b, toS, proxyJson).Ok?
    ensures CapsEqual(a, Some(b), toS, proxyJson) == CapsEqual(b, Some(a), toS, proxyJson)
    ensures CapsEqual(a, Some(a), toS, proxyJson) == Ok(true)
  {
  }

  // ---------------------------------------------------------------------------------------
  // The capabilities object

  /** The capabilities with generated accessors. */
  const KNOWN: seq<string> := [
    "browser_name", "browser_version", "platform_name", "platform_version", "accept_insecure_certs",
    "page_load_strategy", "proxy", "remote_session_id", "accessibility_checks", "rotatable", "device",
    "implicit_timeout", "page_load_timeout", "script_timeout"]

  /** The generated reader: `fetch`, which raises KeyError for an unset capability. */
  function FetchKnown(h: Entries, name: string): (r: Result<RValue, RubyError>)
    ensures r.Ok? <==> Sym(name) in KeySet(h)
    ensures r.Ok? ==> Lookup(h, Sym(name)) == Some(r.value)
    ensures r.Err? ==> r.error == KeyError(Sym(name))
  {
    match Lookup(h, Sym(name))
    case Some(v) => Ok(v)
    case None => Err(KeyError(Sym(name)))
  }

  /** A capability reads back what its writer stored, whatever else was set. */
  lemma WriterThenReader(h: Entries, name: string, other: string, v: RValue)
    requires other != name
    ensures FetchKnown(Put(h, Sym(name), v), name) == Ok(v)
    ensures FetchKnown(Put(h, Sym(name), v), other) == FetchKnown(h, other)
  {
  }

  class W3CCapabilities {
    /** `@capabilities`. */
    var capabilities: Entries

    /** `initialize` up to the proxy assignment: the options hash becomes the capability hash,
        with its :proxy entry taken out. */
    constructor (opts: Entries)
      ensures capabilities == Delete(opts, Sym("proxy"))
    {
      capabilities := Delete(opts, Sym("proxy"));
    }

    /** The generated reader of a known capability (also `version` and `platform`). */
    method Fetch(name: string) returns (r: Result<RValue, RubyError>)
      requires name in KNOWN
      ensures r == FetchKnown(capabilities, name)
    {
      var found := Lookup(capabilities, Sym(name));
      if found.None? {
        return Err(KeyError(Sym(name)));
      }
      return Ok(found.value);
    }

    /** The generated writer of a known capability (also `version=` and `platform=`); `proxy=` is
        defined on its own below. */
    method SetKnown(name: string, value: RValue)
      requires name in KNOWN && name != "proxy"
      modifies this
      ensures capabilities == Put(old(capabilities), Sym(name), value)
    {
      capabilities := Put(capabilities, Sym(name), value);
    }

    /** `[]`: nil for an unset capability. */
    method Index(key: Key) returns (v: RValue)
      ensures Lookup(capabilities, key).Some? ==> v == Lookup(capabilities, key).value
      ensures Lookup(capabilities, key).None? ==> v == Nil
    {
      v := Get(capabilities, key);
    }

    /** `[]=`. */
    method IndexSet(key: Key, value: RValue)
      modifies this
      ensures capabilities == Put(old(capabilities), key, value)
    {
      capabilities := Put(capabilities, key, value);
    }

    /** `merge!`. */
    method MergeBang(other: MergeSource) returns (r: Result<(), RubyError>)
      modifies this
      ensures r.Ok? <==> MergeableHash(other).Some?
      ensures r.Ok? ==> capabilities == Merge(old(capabilities), MergeableHash(other).value)
      ensures r.Err? ==> (capabilities == old(capabilities) &&
        r.error == ArgumentError("argument should be a Hash or implement #capabilities"))
    {
      if other.Responds? && other.capabilities.Hash? {
        capabilities := Merge(capabilities, other.capabilities.entries);
      } else if other.Value? && other.value.Hash? {
        capabilities := Merge(capabilities, other.value.entries);
      } else {
        return Err(ArgumentError("argument should be a Hash or implement #capabilities"));
      }
      return Ok(());
    }

    /** `proxy=`. */
    method SetProxy(proxy: RValue) returns (r: Result<(), RubyError>)
      modifies this
      ensures WithProxy(old(capabilities), proxy).Ok? ==> r.Ok? && capabilities == WithProxy(old(capabilities), proxy).value
      ensures WithProxy(old(capabilities), proxy).Err? ==>
        r == Err(WithProxy(old(capabilities), proxy).error) && capabilities == old(capabilities)
    {
      match proxy {
        case Hash(e) =>
          capabilities := Put(capabilities, Sym("proxy"), ProxyObj(e));
        case ProxyObj(_) =>
          capabilities := Put(capabilities, Sym("proxy"), proxy);
        case Nil =>
          capabilities := Put(capabilities, Sym("proxy"), proxy);
        case _ =>
          return Err(TypeError(PROXY_TYPE_ERROR));
      }
      return Ok(());
    }

    /** The `firefox_options` reader that `firefox` defines: `@capabilities[:firefox_options] ||= {}`. */
    method FirefoxOptions() returns (v: RValue)
      modifies this
      ensures Truthy(Get(old(capabilities), Sym("firefox_options"))) ==>
        v == Get(old(capabilities), Sym("firefox_options")) && capabilities == old(capabilities)
      ensures !Truthy(Get(old(capabilities), Sym("firefox_options"))) ==>
        v == Hash([]) && capabilities == Put(old(capabilities), Sym("firefox_options"), Hash([]))
    {
      v := Get(capabilities, Sym("firefox_options"));
      if !Truthy(v) {
        v := Hash([]);
        capabilities := Put(capabilities, Sym("firefox_options"), v);
      }
    }

    /** `as_json`: the loop over the capabilities in insertion order. */
    method AsJson(toS: RValue -> string, proxyJson: RValue -> RValue) returns (r: Result<map<string, RValue>, RubyError>)
      ensures r == JsonOf(capabilities, toS, proxyJson)
    {
      var hash: map<string, RValue> := map[];
      var i := 0;
      while i < |capabilities|
        invariant 0 <= i <= |capabilities|
        invariant JsonOf(capabilities[..i], toS, proxyJson) == Ok(hash)
      {
        assert capabilities[..i + 1][..i] == capabilities[..i];
        var (key, value) := capabilities[i];
        var step := AddJson(hash, key, value, toS, proxyJson);
        if step.Err? {
          JsonStopsAtError(capabilities, i + 1, toS, proxyJson);
          return step;
        }
        hash := step.value;
        i := i + 1;
      }
      assert capabilities[..i] == capabilities;
      return Ok(hash);
    }

    /** `==`; `other` is None when it is not a W3CCapabilities. */
    method Equals(other: Option<W3CCapabilities>, toS: RValue -> string, proxyJson: RValue -> RValue)
      returns (r: Result<bool, RubyError>)
      ensures r == CapsEqual(capabilities, if other.Some? then Some(other.value.capabilities) else None, toS, proxyJson)
    {
      if other.None? {
        return Ok(false);
      }
      var mine := AsJson(toS, proxyJson);
      if mine.Err? {
        return Err(mine.error);
      }
      var theirs := other.value.AsJson(toS, proxyJson);
      if theirs.Err? {
        return Err(theirs.error);
      }
      return Ok(mine.value == theirs.value);
    }
  }

  /** Once a prefix fails, the whole conversion fails the same way. */
  lemma {:induction false} JsonStopsAtError(h: Entries, n: nat, toS: RValue -> string, proxyJson: RValue -> RValue)
    requires n <= |h| && JsonOf(h[..n], toS, proxyJson).Err?
    ensures JsonOf(h, toS, proxyJson) == JsonOf(h[..n], toS, proxyJson)
    decreases |h| - n
  {
    if n < |h| {
      assert h[..n + 1][..n] == h[..n];
      JsonStopsAtError(h, n + 1, toS, proxyJson);
    } else {
      assert h[..n] == h;
    }
  }

  /** `W3CCapabilities.new(opts)`: the capability hash is the options with their proxy assigned
      through `proxy=`, so a :proxy entry is always present. */
  method New(opts: Entries) returns (r: Result<W3CCapabilities, RubyError>)
    ensures WithProxy(Delete(opts, Sym("proxy")), Get(opts, Sym("proxy"))).Err? <==> r.Err?
    ensures r.Ok? ==> (fresh(r.value) &&
      r.value.capabilities == WithProxy(Delete(opts, Sym("proxy")), Get(opts, Sym("proxy"))).value)
  {
    var proxy := Get(opts, Sym("proxy"));
    var caps := new W3CCapabilities(opts);
    var outcome := caps.SetProxy(proxy);
    if outcome.Err? {
      return Err(outcome.error);
    }
    return Ok(caps);
  }

  /** After construction the capabilities always hold a :proxy entry, nil when none was given. */
  lemma NewAlwaysHoldsProxy(opts: Entries)
    requires WithProxy(Delete(opts, Sym("proxy")), Get(opts, Sym("proxy"))).Ok?
    ensures var h := WithProxy(Delete(opts, Sym("proxy")), Get(opts, Sym("proxy"))).value;
      Sym("proxy") in KeySet(h) && (Sym("proxy") !in KeySet(opts) ==> Lookup(h, Sym("proxy")) == Some(Nil))
  {
  }

  // ---------------------------------------------------------------------------------------
  // json_create

  /** What `new` makes of no options: only a nil :proxy. */
  const EmptyCaps: Entries := [(Sym("proxy"), Nil)]

  /** Every key is a Symbol. */
  predicate SymbolKeysOnly(h: Entries)
  {
    forall k | k in KeySet(h) :: k.Sym?
  }

  /** `caps.<to> = data.delete(<from>) if data.key?(<from>)`, and the same through `[]=`: the
      capabilities and the data that is left. */
  function Move(h: Entries, data: Entries, from: string, to: string): (r: (Entries, Entries))
    ensures SymbolKeysOnly(h) ==> SymbolKeysOnly(r.0)
    ensures IsHash(data) ==> IsHash(r.1)
    ensures forall k | k != Str(from) :: Lookup(r.1, k) == Lookup(data, k)
    ensures Str(from) in KeySet(data) ==> Lookup(r.0, Sym(to)) == Lookup(data, Str(from))
    ensures forall k | k != Sym(to) :: Lookup(r.0, k) == Lookup(h, k)
    ensures KeySet(r.1) <= KeySet(data)
  {
    if Str(from) in KeySet(data) then
      if IsHash(data) then
        DeleteKeepsHash(data, Str(from));
        (Put(h, Sym(to), Get(data, Str(from))), Delete(data, Str(from)))
      else (Put(h, Sym(to), Get(data, Str(from))), Delete(data, Str(from)))
    else (h, data)
  }

  /** `proxy.nil? || proxy.empty?`. Of the values here, Hashes, Arrays, Strings and Symbols answer
      `empty?`; true, false, integers and Proxy objects raise NoMethodError, and so, in this
      model, does any other object. */
  function NoProxyGiven(proxy: RValue): (r: Result<bool, RubyError>)
    ensures r.Ok? <==> proxy.Nil? || proxy.Hash? || proxy.Arr? || proxy.Text? || proxy.Symbol?
    ensures r == Ok(true) <==>
      proxy.Nil? || proxy == Hash([]) || proxy == Arr([]) || proxy == Text("") || proxy == Symbol("")
    ensures r.Err? ==> r.error == NoMethodError("empty?")
  {
    match proxy
    case Nil => Ok(true)
    case Hash(e) => Ok(e == [])
    case Arr(items) => Ok(items == [])
    case Text(t) => Ok(t == "")
    case Symbol(n) => Ok(n == "")
    case _ => Err(NoMethodError("empty?"))
  }

  /** `[]` on the timeouts value; `index` is `[]` on anything that is not a Hash. */
  function IndexOf(v: RValue, k: Key, index: (RValue, Key) -> RValue): RValue
  {
    if v.Hash? then Get(v.entries, k) else index(v, k)
  }

  /** The names `json_create` reads before the proxy. */
  const StandardJsonNames: set<string> := {"browserName", "timeouts"} + Sources(StandardMoves)

  /** The names `json_create` moves after the proxy, with the symbols they move to. */
  const VendorMoves: seq<(string, string)> := [
    ("webdriver.remote.sessionid", "remote_session_id"), ("moz:accessibilityChecks", "accessibility_checks"),
    ("moz:profile", "firefox_profile"), ("moz:firefoxOptions", "firefox_options"), ("rotatable", "rotatable"),
    ("device", "device"), ("marionette", "marionette")]

  function Sources(moves: seq<(string, string)>): set<string>
  {
    if moves == [] then {} else {moves[0].0} + Sources(moves[1..])
  }

  function Targets(moves: seq<(string, string)>): set<string>
  {
    if moves == [] then {} else {moves[0].1} + Targets(moves[1..])
  }

  /** The names `json_create` moves between the browser name and the timeouts, with the symbols
      they move to. */
  const StandardMoves: seq<(string, string)> := [
    ("browserVersion", "browser_version"), ("platformName", "platform_name"),
    ("platformVersion", "platform_version"), ("acceptInsecureCerts", "accept_insecure_certs"),
    ("pageLoadStrategy", "page_load_strategy")]

  lemma StandardTargets()
    ensures "browser_name" !in Targets(StandardMoves)
  {
  }

  lemma VendorTargets()
    ensures "browser_name" !in Targets(VendorMoves)
  {
  }

  /** Several `Move`s in a row. */
  function MoveAll(h: Entries, data: Entries, moves: seq<(string, string)>): (r: (Entries, Entries))
    ensures SymbolKeysOnly(h) ==> SymbolKeysOnly(r.0)
    ensures IsHash(data) ==> IsHash(r.1)
    ensures forall name | name !in Sources(moves) :: Lookup(r.1, Str(name)) == Lookup(data, Str(name))
    ensures forall name | name !in Targets(moves) :: Lookup(r.0, Sym(name)) == Lookup(h, Sym(name))
    ensures KeySet(r.1) <= KeySet(data)
    decreases |moves|
  {
    if moves == [] then (h, data)
    else
      var (h1, d1) := Move(h, data, moves[0].0, moves[0].1);
      MoveAll(h1, d1, moves[1..])
  }

  /** The standard capabilities `json_create` reads, up to the timeouts. */
  function JsonStandard(h: Entries, data: Entries, index: (RValue, Key) -> RValue): (r: (Entries, Entries))
    ensures SymbolKeysOnly(h) ==> SymbolKeysOnly(r.0)
    ensures IsHash(data) ==> IsHash(r.1)
    ensures forall name | name !in StandardJsonNames :: Lookup(r.1, Str(name)) == Lookup(data, Str(name))
    ensures Lookup(r.0, Sym("browser_name")) == Some(Get(data, Str("browserName")))
    ensures KeySet(r.1) <= KeySet(data)
  {
    var h1 := Put(h, Sym("browser_name"), Get(data, Str("browserName")));
    var d1 := if IsHash(data) then DeleteKeepsHash(data, Str("browserName")); Delete(data, Str("browserName"))
              else Delete(data, Str("browserName"));
    var (h6, d6) := MoveAll(h1, d1, StandardMoves);
    StandardTargets();
    var timeouts := Get(d6, Str("timeouts"));
    var d7 := if IsHash(d6) then DeleteKeepsHash(d6, Str("timeouts")); Delete(d6, Str("timeouts"))
              else Delete(d6, Str("timeouts"));
    DeleteMovesDelete(data, d1, d6, d7, StandardMoves, "browserName", "timeouts");
    (JsonTimeouts(h6, timeouts, index), d7)
  }

  /** A delete, some moves and another delete leave every other string name as it was. */
  lemma DeleteMovesDelete(data: Entries, d1: Entries, d6: Entries, d7: Entries, moves: seq<(string, string)>,
                          first: string, last: string)
    requires d1 == Delete(data, Str(first)) && d7 == Delete(d6, Str(last))
    requires forall name | name !in Sources(moves) :: Lookup(d6, Str(name)) == Lookup(d1, Str(name))
    ensures forall name | name !in {first, last} + Sources(moves) :: Lookup(d7, Str(name)) == Lookup(data, Str(name))
  {
  }

  /** `caps.implicit_timeout = timeouts['implicit'] if timeouts`, and the same for the page-load
      and script timeouts. */
  function JsonTimeouts(h: Entries, timeouts: RValue, index: (RValue, Key) -> RValue): (r: Entries)
    ensures SymbolKeysOnly(h) ==> SymbolKeysOnly(r)
    ensures Lookup(r, Sym("browser_name")) == Lookup(h, Sym("browser_name"))
  {
    if Truthy(timeouts) then
      var h1 := Put(h, Sym("implicit_timeout"), IndexOf(timeouts, Str("implicit"), index));
      var h2 := Put(h1, Sym("page_load_timeout"), IndexOf(timeouts, Str("page load"), index));
      Put(h2, Sym("script_timeout"), IndexOf(timeouts, Str("script"), index))
    else h
  }

  /** The proxy step of `json_create`: no proxy, or one built by `proxyFromJson` (which is
      `Proxy.json_create`, not part of this model) and stored through `proxy=`. */
  function JsonProxy(h: Entries, proxy: RValue, proxyFromJson: RValue -> RValue): (r: Result<Entries, RubyError>)
    ensures r.Ok? && SymbolKeysOnly(h) ==> SymbolKeysOnly(r.value)
    ensures r.Ok? ==> Lookup(r.value, Sym("browser_name")) == Lookup(h, Sym("browser_name"))
  {
    match NoProxyGiven(proxy)
    case Err(e) => Err(e)
    case Ok(none) => if none then Ok(h) else WithProxy(h, proxyFromJson(proxy))
  }

  /** `json_create`: the capability hash it builds from a parsed JSON object. */
  function JsonCreated(data: Entries, proxyFromJson: RValue -> RValue, index: (RValue, Key) -> RValue)
    : Result<Entries, RubyError>
  {
    var (h, d) := JsonStandard(EmptyCaps, data, index);
    match JsonProxy(h, Get(d, Str("proxy")), proxyFromJson)
    case Err(e) => Err(e)
    case Ok(h') => Ok(JsonFinish(h', d))
  }

  /** After the proxy: the vendor names are moved and everything left is merged as it is. */
  function JsonFinish(h: Entries, data: Entries): Entries
  {
    var (h', rest) := MoveAll(h, Delete(data, Str("proxy")), VendorMoves);
    Merge(h', rest)
  }

  /** One `Move` on the object. */
  method MoveEntry(caps: W3CCapabilities, data: Entries, from: string, to: string) returns (rest: Entries)
    modifies caps
    ensures (caps.capabilities, rest) == Move(old(caps.capabilities), data, from, to)
  {
    rest := data;
    if Str(from) in KeySet(data) {
      caps.IndexSet(Sym(to), Get(data, Str(from)));
      rest := Delete(data, Str(from));
    }
  }

  /** The run of `caps.<to> = data.delete(<from>) if data.key?(<from>)` lines, one per move of the
      table, in its order. */
  method MoveEntries(caps: W3CCapabilities, data: Entries, moves: seq<(string, string)>) returns (rest: Entries)
    modifies caps
    ensures (caps.capabilities, rest) == MoveAll(old(caps.capabilities), data, moves)
  {
    rest := data;
    var i := 0;
    while i < |moves|
      invariant 0 <= i <= |moves|
      invariant MoveAll(old(caps.capabilities), data, moves) == MoveAll(caps.capabilities, rest, moves[i..])
    {
      assert moves[i..][1..] == moves[i + 1..];
      rest := MoveEntry(caps, rest, moves[i].0, moves[i].1);
      i := i + 1;
    }
  }

  /** The standard names, on the object. */
  method ReadStandard(caps: W3CCapabilities, data: Entries, index: (RValue, Key) -> RValue) returns (rest: Entries)
    modifies caps
    ensures (caps.capabilities, rest) == JsonStandard(old(caps.capabilities), data, index)
  {
    caps.SetKnown("browser_name", Get(data, Str("browserName")));
    rest := Delete(data, Str("browserName"));
    rest := MoveEntries(caps, rest, StandardMoves);
    var timeouts := Get(rest, Str("timeouts"));
    rest := Delete(rest, Str("timeouts"));
    if Truthy(timeouts) {
      caps.SetKnown("implicit_timeout", IndexOf(timeouts, Str("implicit"), index));
      caps.SetKnown("page_load_timeout", IndexOf(timeouts, Str("page load"), index));
      caps.SetKnown("script_timeout", IndexOf(timeouts, Str("script"), index));
    }
  }

  /** The vendor names and the final `merge!`, on the object. */
  method Finish(caps: W3CCapabilities, data: Entries)
    modifies caps
    ensures caps.capabilities == JsonFinish(old(caps.capabilities), data)
  {
    var rest := MoveEntries(caps, Delete(data, Str("proxy")), VendorMoves);
    HashIsMergeable(rest);
    var merged := caps.MergeBang(Value(Hash(rest)));
  }

  lemma HashIsMergeable(e: Entries)
    ensures MergeableHash(Value(Hash(e))) == Some(e)
  {
  }

  /** The proxy step, on the object. */
  method ReadProxy(caps: W3CCapabilities, proxy: RValue, proxyFromJson: RValue -> RValue) returns (r: Result<(), RubyError>)
    modifies caps
    ensures JsonProxy(old(caps.capabilities), proxy, proxyFromJson).Ok? <==> r.Ok?
    ensures r.Ok? ==> caps.capabilities == JsonProxy(old(caps.capabilities), proxy, proxyFromJson).value
    ensures r.Err? ==> r.error == JsonProxy(old(caps.capabilities), proxy, proxyFromJson).error
  {
    var none := NoProxyGiven(proxy);
    if none.Err? {
      return Err(none.error);
    }
    if !none.value {
      r := caps.SetProxy(proxyFromJson(proxy));
    } else {
      r := Ok(());
    }
  }

  /** `json_create`, step by step on a new object. */
  method JsonCreate(data: Entries, proxyFromJson: RValue -> RValue, index: (RValue, Key) -> RValue)
    returns (r: Result<W3CCapabilities, RubyError>)
    ensures r.Err? <==> JsonCreated(data, proxyFromJson, index).Err?
    ensures r.Ok? ==> (fresh(r.value) && r.value.capabilities == JsonCreated(data, proxyFromJson, index).value)
  {
    var created := New([]);
    assert created.Ok?;
    var caps := created.value;
    assert caps.capabilities == Put([], Sym("proxy"), Nil) == EmptyCaps;
    var d := ReadStandard(caps, data, index);
    ghost var standard := caps.capabilities;
    ghost var spec := JsonCreated(data, proxyFromJson, index);
    assert (standard, d) == JsonStandard(EmptyCaps, data, index);
    var outcome := ReadProxy(caps, Get(d, Str("proxy")), proxyFromJson);
    if outcome.Err? {
      assert spec == Err(outcome.error);
      return Err(outcome.error);
    }
    Finish(caps, d);
    return Ok(caps);
  }

  /** Every name of the JSON object that `json_create` does not recognise is kept as it is, under
      its string key; the browser name is always set, nil when the object has none. */
  lemma JsonCreateKeepsOtherNames(data: Entries, proxyFromJson: RValue -> RValue, index: (RValue, Key) -> RValue, name: string)
    requires IsHash(data) && name !in StandardJsonNames && name != "proxy" && name !in Sources(VendorMoves)
    requires JsonCreated(data, proxyFromJson, index).Ok?
    ensures Lookup(JsonCreated(data, proxyFromJson, index).value, Str(name)) == Lookup(data, Str(name))
  {
    EmptyCapsSymbolsOnly();
    var standard := JsonStandard(EmptyCaps, data, index);
    var proxied := JsonProxy(standard.0, Get(standard.1, Str("proxy")), proxyFromJson);
    JsonFinishKeeps(proxied.value, standard.1, name);
  }

  lemma EmptyCapsSymbolsOnly()
    ensures SymbolKeysOnly(EmptyCaps)
  {
    assert KeySet(EmptyCaps) == {Sym("proxy")};
  }

  /** The step after the proxy keeps a string name that is neither "proxy" nor a vendor name. */
  lemma JsonFinishKeeps(h: Entries, d: Entries, name: string)
    requires SymbolKeysOnly(h) && IsHash(d) && name != "proxy" && name !in Sources(VendorMoves)
    ensures Lookup(JsonFinish(h, d), Str(name)) == Lookup(d, Str(name))
  {
    DeleteKeepsHash(d, Str("proxy"));
    MovedThenMerged(h, Delete(d, Str("proxy")), VendorMoves, name);
  }

  /** The moves followed by the merge of what is left keep a string name that no move takes. */
  lemma MovedThenMerged(h: Entries, d: Entries, moves: seq<(string, string)>, name: string)
    requires SymbolKeysOnly(h) && IsHash(d) && name !in Sources(moves)
    ensures var moved := MoveAll(h, d, moves);
      Lookup(Merge(moved.0, moved.1), Str(name)) == Lookup(d, Str(name))
  {
    var moved := MoveAll(h, d, moves);
    assert Str(name) !in KeySet(moved.0) by {
      assert SymbolKeysOnly(moved.0);
    }
    MergeOtherWins(moved.0, moved.1, Str(name));
  }

  /** A JSON object keyed by strings always yields a browser name: the object's "browserName",
      or nil. */
  lemma JsonCreateSetsBrowserName(data: Entries, proxyFromJson: RValue -> RValue, index: (RValue, Key) -> RValue)
    requires IsHash(data) && forall k | k in KeySet(data) :: k.Str?
    requires JsonCreated(data, proxyFromJson, index).Ok?
    ensures Lookup(JsonCreated(data, proxyFromJson, index).value, Sym("browser_name")) == Some(Get(data, Str("browserName")))
  {
    EmptyCapsSymbolsOnly();
    var (h, d) := JsonStandard(EmptyCaps, data, index);
    var h' := JsonProxy(h, Get(d, Str("proxy")), proxyFromJson).value;
    VendorTargets();
    JsonFinishKeepsSymbol(h', d, "browser_name");
  }

  /** The vendor moves and the merge keep a symbol name that no move writes, when the data holds
      no such symbol key. */
  lemma JsonFinishKeepsSymbol(h: Entries, d: Entries, name: string)
    requires IsHash(d) && Sym(name) !in KeySet(d) && name !in Targets(VendorMoves)
    ensures Lookup(JsonFinish(h, d), Sym(name)) == Lookup(h, Sym(name))
  {
    var dp := Delete(d, Str("proxy"));
    DeleteKeepsHash(d, Str("proxy"));
    var moved := MoveAll(h, dp, VendorMoves);
    MergeOtherWins(moved.0, moved.1, Sym(name));
  }

  // ---------------------------------------------------------------------------------------
  // The class-level constructors

  /** `edge`: the Edge defaults, overridden by the caller's options. */
  method Edge(opts: Entries) returns (r: Result<W3CCapabilities, RubyError>)
    ensures var all := Merge([(Sym("browser_name"), Text("MicrosoftEdge")), (Sym("platform_name"), Symbol("windows"))], opts);
      (r.Err? <==> WithProxy(Delete(all, Sym("proxy")), Get(all, Sym("proxy"))).Err?) &&
      (r.Ok? ==> fresh(r.value) && r.value.capabilities == WithProxy(Delete(all, Sym("proxy")), Get(all, Sym("proxy"))).value)
  {
    r := New(Merge([(Sym("browser_name"), Text("MicrosoftEdge")), (Sym("platform_name"), Symbol("windows"))], opts));
  }

  /** `opts[to] = opts.delete(from) if opts.key?(from)`. */
  function Rename(h: Entries, from: Key, to: Key): (r: Entries)
    ensures from in KeySet(h) ==> Lookup(r, to) == Lookup(h, from) && (from != to ==> from !in KeySet(r))
    ensures from !in KeySet(h) ==> r == h
    ensures forall k | k != from && k != to :: Lookup(r, k) == Lookup(h, k)
    ensures KeySet(r) <= KeySet(h) + {to}
  {
    if from in KeySet(h) then Put(Delete(h, from), to, Get(h, from)) else h
  }

  /** The `timeouts` hash `firefox` collects, in the order 'implicit', 'page load', 'script'. */
  function FirefoxTimeouts(opts: Entries): (t: Entries)
    ensures t == [] <==> (Sym("implicit_timeout") !in KeySet(opts) && Sym("page_load_timeout") !in KeySet(opts) &&
      Sym("script_timeout") !in KeySet(opts))
  {
    (if Sym("implicit_timeout") in KeySet(opts) then [(Str("implicit"), Get(opts, Sym("implicit_timeout")))] else []) +
    (if Sym("page_load_timeout") in KeySet(opts) then [(Str("page load"), Get(opts, Sym("page_load_timeout")))] else []) +
    (if Sym("script_timeout") in KeySet(opts) then [(Str("script"), Get(opts, Sym("script_timeout")))] else [])
  }

  /** The options `firefox` hands on: version and platform renamed, timeouts gathered. */
  function FirefoxOpts(opts: Entries): Entries
  {
    var renamed := Rename(Rename(opts, Sym("version"), Sym("browser_version")), Sym("platform"), Sym("platform_name"));
    var timeouts := FirefoxTimeouts(renamed);
    var rest := Delete(Delete(Delete(renamed, Sym("implicit_timeout")), Sym("page_load_timeout")), Sym("script_timeout"));
    if timeouts == [] then rest else Put(rest, Sym("timeouts"), Hash(timeouts))
  }

  const FirefoxDefaults: Entries := [(Sym("browser_name"), Text("firefox")), (Sym("marionette"), Bool(true))]

  /** `firefox`: the Firefox defaults, overridden by the translated options. */
  method Firefox(opts: Entries) returns (r: Result<W3CCapabilities, RubyError>)
    ensures var all := Merge(FirefoxDefaults, FirefoxOpts(opts));
      (r.Err? <==> WithProxy(Delete(all, Sym("proxy")), Get(all, Sym("proxy"))).Err?) &&
      (r.Ok? ==> fresh(r.value) && r.value.capabilities == WithProxy(Delete(all, Sym("proxy")), Get(all, Sym("proxy"))).value)
  {
    r := New(Merge(FirefoxDefaults, FirefoxOpts(opts)));
  }

  /** No `version`, `platform` or separate timeout is left in the translated options. */
  lemma FirefoxDropsOldNames(opts: Entries)
    ensures var o := FirefoxOpts(opts);
      Sym("version") !in KeySet(o) && Sym("platform") !in KeySet(o) &&
      Sym("implicit_timeout") !in KeySet(o) && Sym("page_load_timeout") !in KeySet(o) && Sym("script_timeout") !in KeySet(o)
  {
    var once := Rename(opts, Sym("version"), Sym("browser_version"));
    assert Sym("version") !in KeySet(once);
    var renamed := Rename(once, Sym("platform"), Sym("platform_name"));
    assert Sym("version") !in KeySet(renamed) && Sym("platform") !in KeySet(renamed);
    var rest := Delete(Delete(Delete(renamed, Sym("implicit_timeout")), Sym("page_load_timeout")), Sym("script_timeout"));
    assert KeySet(rest) == KeySet(renamed) - {Sym("implicit_timeout")} - {Sym("page_load_timeout")} - {Sym("script_timeout")};
    assert KeySet(FirefoxOpts(opts)) <= KeySet(rest) + {Sym("timeouts")};
  }

  /** The caller's `version` becomes the browser version. */
  lemma FirefoxVersionRenamed(opts: Entries, v: RValue)
    requires Lookup(opts, Sym("version")) == Some(v)
    ensures Lookup(FirefoxOpts(opts), Sym("browser_version")) == Some(v)
  {
    var once := Rename(opts, Sym("version"), Sym("browser_version"));
    assert Lookup(once, Sym("browser_version")) == Some(v);
    var renamed := Rename(once, Sym("platform"), Sym("platform_name"));
    assert Lookup(renamed, Sym("browser_version")) == Some(v);
    var d1 := Delete(renamed, Sym("implicit_timeout"));
    var d2 := Delete(d1, Sym("page_load_timeout"));
    var rest := Delete(d2, Sym("script_timeout"));
    assert Lookup(rest, Sym("browser_version")) == Some(v);
    var timeouts := FirefoxTimeouts(renamed);
    assert FirefoxOpts(opts) == if timeouts == [] then rest else Put(rest, Sym("timeouts"), Hash(timeouts));
  }

  /** A given implicit timeout is found first in the gathered :timeouts hash. */
  lemma FirefoxTimeoutGathered(opts: Entries, v: RValue)
    requires Lookup(opts, Sym("implicit_timeout")) == Some(v)
    ensures Lookup(FirefoxOpts(opts), Sym("timeouts")).Some?
    ensures var t := Lookup(FirefoxOpts(opts), Sym("timeouts")).value;
      t.Hash? && t.entries != [] && t.entries[0] == (Str("implicit"), v)
  {
    var once := Rename(opts, Sym("version"), Sym("browser_version"));
    var renamed := Rename(once, Sym("platform"), Sym("platform_name"));
    assert Lookup(renamed, Sym("implicit_timeout")) == Some(v);
    assert FirefoxTimeouts(renamed)[0] == (Str("implicit"), v);
  }

  /** The caller's options win over the Firefox defaults; absent ones fall back to them. */
  lemma FirefoxCallerWins(opts: Entries, k: Key)
    requires IsHash(FirefoxOpts(opts))
    ensures var all := Merge(FirefoxDefaults, FirefoxOpts(opts));
      Lookup(all, k) == (if k in KeySet(FirefoxOpts(opts)) then Lookup(FirefoxOpts(opts), k) else Lookup(FirefoxDefaults, k))
  {
    MergeOtherWins(FirefoxDefaults, FirefoxOpts(opts), k);
  }

  /** `w3c?`: true unless :marionette is explicitly false, at the top level or inside a truthy
      :desired_capabilities; `index` is `[]` on a desired-capabilities object that is not a Hash. */
  predicate IsW3C(opts: Entries, index: (RValue, Key) -> RValue)
  {
    var desired := Get(opts, Sym("desired_capabilities"));
    Get(opts, Sym("marionette")) != Bool(false) &&
    (!Truthy(desired) || (if desired.Hash? then Get(desired.entries, Sym("marionette")) else index(desired, Sym("marionette"))) != Bool(false))
  }

  /** Without :marionette anywhere, or with it nil, the options ask for W3C; an explicit false at
      either place does not. */
  lemma W3CUnlessMarionetteFalse(opts: Entries, index: (RValue, Key) -> RValue, desired: Entries)
    ensures Lookup(opts, Sym("marionette")) == Some(Bool(false)) ==> !IsW3C(opts, index)
    ensures (Lookup(opts, Sym("desired_capabilities")) == Some(Hash(desired)) &&
      Lookup(desired, Sym("marionette")) == Some(Bool(false))) ==> !IsW3C(opts, index)
    ensures Sym("marionette") !in KeySet(opts) && Sym("desired_capabilities") !in KeySet(opts) ==> IsW3C(opts, index)
    ensures (Lookup(opts, Sym("marionette")) == Some(Nil) && Lookup(opts, Sym("desired_capabilities")) == Some(Hash(desired)) &&
      Sym("marionette") !in KeySet(desired)) ==> IsW3C(opts, index)
  {
  }
}
