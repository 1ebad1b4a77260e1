/** Capability sets as the Java side sees them: a mapping from capability names to values.
    A name that is absent stands for a capability whose value is null. */
module Capabilities {
  import opened Strings

  datatype Value =
    | VStr(s: string)
    | VBool(b: bool)
    | VInt(i: int)
    | VUri(scheme: string, authority: string, path: string)
    | VOther(tag: string)

  type Caps = map<string, Value>

  /** `Capabilities.getBrowserName()`: the "browserName" text, or "" when it is not a string. */
  function BrowserName(caps: Caps): string
  {
    if "browserName" in caps && caps["browserName"].VStr? then caps["browserName"].s else ""
  }

  /** Some capability name starts with `prefix`. */
  predicate HasKeyWithPrefix(caps: Caps, prefix: string)
  {
    exists k | k in caps :: StartsWith(k, prefix)
  }

  /** The capabilities with every name that starts with `prefix` removed. */
  function WithoutPrefix(caps: Caps, prefix: string): (r: Caps)
    ensures forall k :: k in r <==> k in caps && !StartsWith(k, prefix)
    ensures forall k | k in r :: r[k] == caps[k]
  {
    map k | k in caps && !StartsWith(k, prefix) :: caps[k]
  }
}
