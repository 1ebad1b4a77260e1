/** Where the session map server lives (SessionMapOptions.getSessionMapUri): read from the
    "sessions" section of the grid configuration. */
module SessionMapOptions {
  import opened Wrappers
  import opened Strings

  /** A URI as `java.net.URI` holds the parts that its seven-argument constructor takes. */
  datatype Uri = Uri(scheme: string, userInfo: Option<string>, host: string, port: int, path: string,
                     query: Option<string>, fragment: Option<string>)

  /** The "sessions" section: each entry is absent or present (the port already read as an int). */
  datatype SessionsSection = SessionsSection(host: Option<string>, port: Option<int>, hostname: Option<string>)

  datatype ConfigException = ConfigException(message: string)

  /** The seven-argument `URI` constructor: scheme, user info, host, port, path, query and
      fragment, with `null` as None; None as the result is a `URISyntaxException`. */
  type Compose = (string, Option<string>, string, int, string, Option<string>, Option<string>) -> Option<Uri>

  /** `getSessionMapUri`. `parse` is `new URI(str)` (None on a syntax error) and `compose` is the
      seven-argument constructor; neither parser is part of this model. */
  function GetSessionMapUri(section: SessionsSection, parse: string -> Option<Uri>, compose: Compose)
    : (r: Result<Uri, ConfigException>)
    ensures section.host.Some? ==>
      r == (if parse(section.host.value).Some? then Ok(parse(section.host.value).value)
            else Err(ConfigException("Session map server URI is not a valid URI: " + section.host.value)))
    ensures section.host.None? && (section.port.None? || section.hostname.None?) ==>
      r == Err(ConfigException("Unable to determine host and port for the session map server"))
    ensures section.host.None? && section.port.Some? && section.hostname.Some? ==>
      var c := compose("http", None, section.hostname.value, section.port.value, "", None, None);
      (r.Ok? <==> c.Some?) && (r.Ok? ==> r.value == c.value)
  {
    if section.host.Some? then
      match parse(section.host.value)
      case Some(u) => Ok(u)
      case None => Err(ConfigException("Session map server URI is not a valid URI: " + section.host.value))
    else if !(section.port.Some? && section.hostname.Some?) then
      Err(ConfigException("Unable to determine host and port for the session map server"))
    else
      match compose("http", None, section.hostname.value, section.port.value, "", None, None)
      case Some(u) => Ok(u)
      case None => Err(ConfigException("Session map server uri configured through host (" + section.hostname.value +
                                       ") and port (" + IntToString(section.port.value) + ") is not a valid URI"))
  }

  /** What `java.net.URI` promises of its seven-argument constructor: when it accepts its
      arguments, the URI it builds holds exactly those components. */
  ghost predicate KeepsComponents(compose: Compose)
  {
    forall s, u, h, p, q, qu, f | compose(s, u, h, p, q, qu, f).Some? ::
      compose(s, u, h, p, q, qu, f).value == Uri(s, u, h, p, q, qu, f)
  }

  /** A configured host wins: hostname and port are then ignored, whatever they are. */
  lemma HostWins(host: string, port: Option<int>, hostname: Option<string>, port2: Option<int>, hostname2: Option<string>,
                 parse: string -> Option<Uri>, compose: Compose)
    ensures GetSessionMapUri(SessionsSection(Some(host), port, hostname), parse, compose) ==
            GetSessionMapUri(SessionsSection(Some(host), port2, hostname2), parse, compose)
  {
  }

  /** Without a host, the answer is the http URI on the configured hostname and port, with no
      user info, an empty path and no query or fragment, whenever both are present and the
      constructor accepts them, and an error otherwise. */
  lemma HostnameAndPort(section: SessionsSection, parse: string -> Option<Uri>, compose: Compose)
    requires section.host.None? && KeepsComponents(compose)
    ensures GetSessionMapUri(section, parse, compose).Ok? <==>
      section.port.Some? && section.hostname.Some? &&
      compose("http", None, section.hostname.value, section.port.value, "", None, None).Some?
    ensures GetSessionMapUri(section, parse, compose).Ok? ==>
      GetSessionMapUri(section, parse, compose).value ==
        Uri("http", None, section.hostname.value, section.port.value, "", None, None)
  {
  }
}
