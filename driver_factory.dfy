/** The standalone server's driver-provider registry (DefaultDriverFactory): providers keyed by the
    capabilities they provide, registered on start-up when their platform matches, and looked up
    by best match when a new driver is asked for. */
module DriverFactory {
  import opened Wrappers
  import opened Capabilities

  datatype Platform = ANY | Named(name: string)

  /** A driver provider: the capabilities it provides, the platform those capabilities name
      (None when they name none), and whether it can create drivers on this machine. */
  datatype Provider = Provider(description: string, provided: Caps, platform: Option<Platform>, canCreateInstances: bool)

  datatype FactoryError =
    | IllegalState(message: string)
    | NullProvider
    | CannotCreate(message: string)

  /** A driver created by a provider for the given capabilities (the driver itself is foreign). */
  datatype Driver = Driver(createdBy: Provider, capabilities: Caps)

  /** `platformMatches`; `platformIs` is `Platform.is`, whose family tree is not part of this model. */
  predicate PlatformMatches(current: Platform, p: Option<Platform>, platformIs: (Platform, Platform) -> bool)
  {
    p.None? || p.value == ANY || platformIs(current, p.value)
  }

  /** `registerDriverProvider(provider)`: stored under its provided capabilities only when it can
      create instances; a later provider with equal capabilities replaces an earlier one. */
  function Register(m: map<Caps, Provider>, p: Provider): (r: map<Caps, Provider>)
    ensures r.Keys == if p.canCreateInstances then m.Keys + {p.provided} else m.Keys
    ensures p.canCreateInstances ==> r[p.provided] == p
    ensures forall c | c in m && c != p.provided :: r[c] == m[c]
  {
    if p.canCreateInstances then m[p.provided := p] else m
  }

  /** `registerDriverProvider(current, provider)`: a platform mismatch skips the provider. */
  function RegisterOn(current: Platform, platformIs: (Platform, Platform) -> bool, m: map<Caps, Provider>, p: Provider)
    : map<Caps, Provider>
  {
    if !PlatformMatches(current, p.platform, platformIs) then m else Register(m, p)
  }

  /** The registration loops, in order. */
  function RegisterAll(current: Platform, platformIs: (Platform, Platform) -> bool, m: map<Caps, Provider>, ps: seq<Provider>)
    : map<Caps, Provider>
    decreases |ps|
  {
    if ps == [] then m
    else RegisterOn(current, platformIs, RegisterAll(current, platformIs, m, ps[..|ps| - 1]), ps[|ps| - 1])
  }

  predicate Eligible(current: Platform, platformIs: (Platform, Platform) -> bool, p: Provider)
  {
    PlatformMatches(current, p.platform, platformIs) && p.canCreateInstances
  }

  /** The last eligible provider of `ps` for capabilities `c`, if any. */
  function LastEligible(current: Platform, platformIs: (Platform, Platform) -> bool, ps: seq<Provider>, c: Caps)
    : (r: Option<Provider>)
    ensures r.Some? ==> r.value in ps && r.value.provided == c && Eligible(current, platformIs, r.value)
    ensures r.None? ==> forall i | 0 <= i < |ps| :: !(ps[i].provided == c && Eligible(current, platformIs, ps[i]))
    decreases |ps|
  {
    if ps == [] then None
    else
      var p := ps[|ps| - 1];
      if p.provided == c && Eligible(current, platformIs, p) then Some(p)
      else LastEligible(current, platformIs, ps[..|ps| - 1], c)
  }

  /** A provider that cannot create instances leaves the map as it was; a second provider with
      equal capabilities replaces the first. */
  lemma RegisterReplacesOrSkips(m: map<Caps, Provider>, p: Provider, q: Provider)
    ensures !p.canCreateInstances ==> Register(m, p) == m
    ensures p.canCreateInstances ==> (p.provided in Register(m, p) && Register(m, p)[p.provided] == p &&
      Register(m, p).Keys == m.Keys + {p.provided})
    ensures p.provided == q.provided && q.canCreateInstances ==> Register(Register(m, p), q) == Register(m, q)
  {
  }

  /** Registering a list: the provider kept for `c` is the last eligible one with those
      capabilities; without one, whatever was there before stays. */
  lemma {:induction false} RegisterAllLastWins(
    current: Platform, platformIs: (Platform, Platform) -> bool, m: map<Caps, Provider>, ps: seq<Provider>, c: Caps)
    ensures var r := RegisterAll(current, platformIs, m, ps);
      match LastEligible(current, platformIs, ps, c)
      case Some(p) => c in r && r[c] == p
      case None => (c in r <==> c in m) && (c in m ==> r[c] == m[c])
    decreases |ps|
  {
    if ps != [] {
      RegisterAllLastWins(current, platformIs, m, ps[..|ps| - 1], c);
    }
  }

  /** Registering a list of providers that are not eligible leaves the map unchanged. */
  lemma {:induction false} IneligibleLeaveMapUnchanged(
    current: Platform, platformIs: (Platform, Platform) -> bool, m: map<Caps, Provider>, ps: seq<Provider>)
    requires forall i | 0 <= i < |ps| :: !Eligible(current, platformIs, ps[i])
    ensures RegisterAll(current, platformIs, m, ps) == m
    decreases |ps|
  {
    if ps != [] {
      IneligibleLeaveMapUnchanged(current, platformIs, m, ps[..|ps| - 1]);
    }
  }

  /** Registering two lists one after the other is registering their concatenation. */
  lemma {:induction false} RegisterAllAppend(
    current: Platform, platformIs: (Platform, Platform) -> bool, m: map<Caps, Provider>, a: seq<Provider>, b: seq<Provider>)
    ensures RegisterAll(current, platformIs, RegisterAll(current, platformIs, m, a), b) == RegisterAll(current, platformIs, m, a + b)
    decreases |b|
  {
    if b == [] {
      assert a + b == a;
    } else {
      assert (a + b)[..|a + b| - 1] == a + b[..|b| - 1];
      RegisterAllAppend(current, platformIs, m, a, b[..|b| - 1]);
    }
  }

  /** A provider whose capabilities name no platform, or ANY, matches whatever the machine runs. */
  lemma UnnamedPlatformAlwaysMatches(current: Platform, platformIs: (Platform, Platform) -> bool, p: Provider)
    requires p.platform.None? || p.platform == Some(ANY)
    ensures RegisterOn(current, platformIs, map[], p) == (if p.canCreateInstances then map[p.provided := p] else map[])
  {
  }

  class DefaultDriverFactory {
    const runningOn: Platform
    const platformIs: (Platform, Platform) -> bool
    /** `capabilitiesToDriverProvider`. */
    var providers: map<Caps, Provider>

    /** Registers the default providers, then the service-loaded ones; the provider lists are
        parameters since neither the default providers' capabilities nor the service loader are
        part of this model. */
    constructor (runningOn: Platform, platformIs: (Platform, Platform) -> bool, defaults: seq<Provider>, serviceLoaded: seq<Provider>)
      ensures this.runningOn == runningOn && this.platformIs == platformIs
      ensures providers == RegisterAll(runningOn, platformIs, map[], defaults + serviceLoaded)
    {
      this.runningOn := runningOn;
      this.platformIs := platformIs;
      providers := map[];
      new;
      RegisterEach(defaults);
      RegisterEach(serviceLoaded);
      RegisterAllAppend(runningOn, platformIs, map[], defaults, serviceLoaded);
    }

    /** `registerDriverProvider(provider)`. */
    method RegisterDriverProvider(p: Provider)
      modifies this`providers
      ensures providers == Register(old(providers), p)
    {
      if p.canCreateInstances {
        providers := providers[p.provided := p];
      }
    }

    /** `registerDriverProvider(current, provider)`. */
    method RegisterOnPlatform(p: Provider)
      modifies this`providers
      ensures providers == RegisterOn(runningOn, platformIs, old(providers), p)
    {
      if !PlatformMatches(runningOn, p.platform, platformIs) {
        return;
      }
      RegisterDriverProvider(p);
    }

    /** `registerDefaults` and `registerServiceLoaders`: the loop over a provider list. */
    method RegisterEach(ps: seq<Provider>)
      modifies this`providers
      ensures providers == RegisterAll(runningOn, platformIs, old(providers), ps)
    {
      var i := 0;
      while i < |ps|
        invariant 0 <= i <= |ps|
        invariant providers == RegisterAll(runningOn, platformIs, old(providers), ps[..i])
      {
        assert ps[..i + 1][..i] == ps[..i];
        RegisterOnPlatform(ps[i]);
        i := i + 1;
      }
      assert ps[..i] == ps;
    }

    /** `getProviderMatching`: fails when nothing is registered; `bestMatch` is
        `CapabilitiesComparator.getBestMatch`, which is not part of this model, and a key it picks
        outside the map yields no provider. */
    method GetProviderMatching(desired: Caps, bestMatch: (Caps, set<Caps>) -> Caps)
      returns (r: Result<Option<Provider>, FactoryError>)
      ensures providers == map[] <==> r.Err?
      ensures r.Err? ==> r.error.IllegalState?
      ensures r.Ok? ==> var best := bestMatch(desired, providers.Keys);
        r.value == (if best in providers then Some(providers[best]) else None)
      ensures r.Ok? && r.value.Some? ==> r.value.value in providers.Values
    {
      if providers == map[] {
        return Err(IllegalState("No drivers have been registered, will be unable to match"));
      }
      var best := bestMatch(desired, providers.Keys);
      if best in providers {
        return Ok(Some(providers[best]));
      }
      return Ok(None);
    }

    /** `newInstance`: the best-matching provider creates the driver if it accepts the
        capabilities (`canCreateFor` is the provider's `canCreateDriverInstanceFor`). */
    method NewInstance(capabilities: Caps, bestMatch: (Caps, set<Caps>) -> Caps, canCreateFor: (Provider, Caps) -> bool)
      returns (r: Result<Driver, FactoryError>)
      ensures providers == map[] ==> r.Err? && r.error.IllegalState?
      ensures r.Ok? ==> (r.value.capabilities == capabilities && r.value.createdBy in providers.Values &&
        canCreateFor(r.value.createdBy, capabilities))
      ensures providers != map[] && bestMatch(capabilities, providers.Keys) in providers ==>
        var p := providers[bestMatch(capabilities, providers.Keys)];
        (canCreateFor(p, capabilities) <==> r.Ok?) && (r.Ok? ==> r.value.createdBy == p)
      ensures providers != map[] && bestMatch(capabilities, providers.Keys) !in providers ==> r == Err(NullProvider)
    {
      var found := GetProviderMatching(capabilities, bestMatch);
      if found.Err? {
        return Err(found.error);
      }
      if found.value.None? {
        return Err(NullProvider);
      }
      var provider := found.value.value;
      if canCreateFor(provider, capabilities) {
        return Ok(Driver(provider, capabilities));
      }
      return Err(CannotCreate("The best matching driver provider " + provider.description +
        " can't create a new driver instance"));
    }

    /** `hasMappingFor`: only the exact capabilities count. */
    predicate HasMappingFor(c: Caps)
      reads this
    {
      c in providers
    }
  }

  /** After start-up there is a mapping for `c` exactly when some default or service-loaded
      provider with those capabilities is eligible on this platform, and the mapped provider is the
      last such one, so a service-loaded provider overrides a default. */
  method StartUpMapping(runningOn: Platform, platformIs: (Platform, Platform) -> bool,
                        defaults: seq<Provider>, serviceLoaded: seq<Provider>, c: Caps)
    returns (f: DefaultDriverFactory)
    ensures fresh(f)
    ensures f.HasMappingFor(c) <==> LastEligible(runningOn, platformIs, defaults + serviceLoaded, c).Some?
    ensures f.HasMappingFor(c) ==> f.providers[c] == LastEligible(runningOn, platformIs, defaults + serviceLoaded, c).value
  {
    f := new DefaultDriverFactory(runningOn, platformIs, defaults, serviceLoaded);
    RegisterAllLastWins(runningOn, platformIs, map[], defaults + serviceLoaded, c);
  }
}
