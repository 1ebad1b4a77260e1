/** The Safari entries of the driver-info registry: which capability sets each one claims, and its
    fixed limits. Three versions exist side by side: the current Safari and Safari Technology
    Preview entries (java/src) and the older client-side Safari entry (java/client). */
module SafariDriverInfo {
  import opened Wrappers
  import opened Strings
  import opened Capabilities

  /** What `createDriver` hands back when it launches: a Safari driver started with these options. */
  datatype Launch = SafariDriver(options: Caps)

  /** `isSupporting`: capabilities the Safari browser matcher accepts, or any capability named
      with the "safari:" vendor prefix. `safariIs` stands for `Browser.SAFARI.is`. */
  predicate IsSupporting(caps: Caps, safariIs: Caps -> bool)
  {
    safariIs(caps) || HasKeyWithPrefix(caps, "safari:")
  }

  /** Both ways of being supported, and nothing else. */
  lemma SupportedExactly(caps: Caps, safariIs: Caps -> bool)
    ensures safariIs(caps) ==> IsSupporting(caps, safariIs)
    ensures (exists k | k in caps :: StartsWith(k, "safari:")) ==> IsSupporting(caps, safariIs)
    ensures !safariIs(caps) && (forall k | k in caps :: !StartsWith(k, "safari:")) ==>
      !IsSupporting(caps, safariIs)
  {
  }

  /** `isSupportingCdp`. */
  function IsSupportingCdp(): (b: bool)
    ensures !b
  {
    false
  }

  /** `isSupportingBiDi`. */
  function IsSupportingBiDi(): (b: bool)
    ensures !b
  {
    false
  }

  /** `getMaximumSimultaneousSessions`. */
  function MaximumSimultaneousSessions(): (n: int)
    ensures n == 1
  {
    1
  }

  /** `createDriver`: nothing when the driver is not available; otherwise Safari options merged
      with the requested capabilities (`merge` is a parameter). */
  function CreateDriver(available: bool, caps: Caps, merge: Caps -> Caps): (r: Option<Launch>)
    ensures r.None? <==> !available
    ensures r.Some? ==> r.value.options == merge(caps)
  {
    if !available then None else Some(SafariDriver(merge(caps)))
  }
}

/** The Safari Technology Preview entry of the driver-info registry. */
module SafariTechPreviewDriverInfo {
  import opened Wrappers
  import opened Strings
  import opened Capabilities
  import SafariDriverInfo

  /** The browser name of the Technology Preview, `Browser.SAFARI_TECH_PREVIEW.browserName()`. */
  const TechPreviewName := "Safari Technology Preview"

  /** `isSupporting`: the browser name equals the Technology Preview name ignoring case, or some
      capability is named with the "safari:" vendor prefix. */
  predicate IsSupporting(caps: Caps)
  {
    EqualsIgnoreCase(TechPreviewName, BrowserName(caps)) || HasKeyWithPrefix(caps, "safari:")
  }

  /** Any spelling of the name that differs only in letter case is claimed. */
  lemma NameIgnoresCase(caps: Caps)
    requires |BrowserName(caps)| == |TechPreviewName|
    requires forall i | 0 <= i < |TechPreviewName| ::
      ToLowerChar(BrowserName(caps)[i]) == ToLowerChar(TechPreviewName[i])
    ensures IsSupporting(caps)
  {
    EqualsIgnoreCaseByChars(TechPreviewName, BrowserName(caps));
  }

  /** The plain Safari browser name without vendor keys is refused. */
  lemma OtherNameRefused(caps: Caps)
    requires BrowserName(caps) == "safari"
    requires forall k | k in caps :: !StartsWith(k, "safari:")
    ensures !IsSupporting(caps)
  {
    LengthsDifferIgnoringCase(TechPreviewName, BrowserName(caps));
  }

  /** Plain Safari capabilities that carry a "safari:" option are claimed by both entries. */
  lemma VendorKeyClaimedByBoth(caps: Caps, safariIs: Caps -> bool, k: string)
    requires k in caps && StartsWith(k, "safari:")
    ensures IsSupporting(caps) && SafariDriverInfo.IsSupporting(caps, safariIs)
  {
  }

  /** `isSupportingCdp`. */
  function IsSupportingCdp(): (b: bool)
    ensures !b
  {
    false
  }

  /** `isSupportingBiDi`. */
  function IsSupportingBiDi(): (b: bool)
    ensures !b
  {
    false
  }

  /** `getMaximumSimultaneousSessions`. */
  function MaximumSimultaneousSessions(): (n: int)
    ensures n == 1
  {
    1
  }

  /** `createDriver`: nothing when the driver is not available; otherwise Safari options built
      from the requested capabilities (`toOptions` is the `SafariOptions` constructor). */
  function CreateDriver(available: bool, caps: Caps, toOptions: Caps -> Caps): (r: Option<SafariDriverInfo.Launch>)
    ensures r.None? <==> !available
    ensures r.Some? ==> r.value.options == toOptions(caps)
  {
    if !available then None else Some(SafariDriverInfo.SafariDriver(toOptions(caps)))
  }
}

/** The older client-side Safari entry of the driver-info registry. */
module ClientSafariDriverInfo {
  import opened Wrappers
  import opened Strings
  import opened Capabilities
  import SafariDriverInfo

  /** `BrowserType.SAFARI`. */
  const SafariType := "safari"

  /** A capability name with either vendor prefix, "safari." or "safari:". */
  predicate VendorKey(k: string)
  {
    StartsWith(k, "safari.") || StartsWith(k, "safari:")
  }

  /** The `reduce(Boolean::logicalOr)` over the key flags, with its `orElse(false)`: `None` for
      no keys at all. */
  function AnyVendorKey(keys: seq<string>): (r: Option<bool>)
    ensures r.None? <==> keys == []
    ensures r.Some? ==> (r.value <==> exists i | 0 <= i < |keys| :: VendorKey(keys[i]))
  {
    if keys == [] then None
    else
      var rest := AnyVendorKey(keys[1..]);
      var first := VendorKey(keys[0]);
      if rest.None? then Some(first) else Some(first || rest.value)
  }

  /** The key set of the capabilities, in some order (the order of a parallel stream does not
      matter to a logical-or). */
  predicate KeysOf(caps: Caps, keys: seq<string>)
  {
    (forall i | 0 <= i < |keys| :: keys[i] in caps) && (forall k | k in caps :: k in keys)
  }

  /** `isSupporting`: the browser name is exactly "safari", or else the reduction over the keys,
      which is false when there are none. */
  predicate IsSupporting(caps: Caps, keys: seq<string>)
  {
    if SafariType == BrowserName(caps) then true
    else
      var any := AnyVendorKey(keys);
      if any.None? then false else any.value
  }

  /** Supported exactly when the name is "safari" or some key carries a vendor prefix. */
  lemma SupportedIff(caps: Caps, keys: seq<string>)
    requires KeysOf(caps, keys)
    ensures IsSupporting(caps, keys) <==>
      BrowserName(caps) == SafariType || exists k | k in caps :: VendorKey(k)
  {
    if !(BrowserName(caps) == SafariType) && keys != [] {
      if exists k | k in caps :: VendorKey(k) {
        var k :| k in caps && VendorKey(k);
        var i :| 0 <= i < |keys| && keys[i] == k;
      }
    }
  }

  /** The name comparison is case-sensitive: "Safari" alone is not enough. */
  lemma NameIsCaseSensitive(caps: Caps)
    requires caps == map["browserName" := VStr("Safari")]
    ensures !IsSupporting(caps, ["browserName"])
  {
    assert BrowserName(caps) == "Safari";
    assert !VendorKey("browserName") by {
      assert "browserName"[..7][0] == 'b';
    }
  }

  /** Capabilities without keys and with a name other than "safari" are refused. */
  lemma EmptyRefused(caps: Caps)
    requires caps == map[]
    ensures !IsSupporting(caps, [])
  {
  }

  /** `getMaximumSimultaneousSessions`. */
  function MaximumSimultaneousSessions(): (n: int)
    ensures n == 1
  {
    1
  }

  /** `createDriver`: nothing when no driver service can be created; otherwise a Safari driver
      on the capabilities as they are. */
  function CreateDriver(available: bool, caps: Caps): (r: Option<SafariDriverInfo.Launch>)
    ensures r.None? <==> !available
    ensures r.Some? ==> r.value.options == caps
  {
    if !available then None else Some(SafariDriverInfo.SafariDriver(caps))
  }
}
