/** The DevTools `AuthChallenge` record of the Network domain and its JSON reader. The reader walks
    the members of a JSON object and stores the four known ones through the setters. */
module AuthChallenge {
  import opened Wrappers

  /** A value of the `Source` enumeration ("Server" or "Proxy"); its conversion from text,
      `Source.getSource`, is a parameter. */
  datatype Source = Source(name: string)

  /** A JSON member value as the reader sees it: a string, or anything else. */
  datatype JsonValue = JString(s: string) | JOther

  /** `nextString` on a member that does not hold a string. */
  datatype ParseError = NotAString(member: string)

  /** The four fields of the record; `None` is a field that was never set (null). */
  datatype Fields = Fields(origin: Option<string>, realm: Option<string>, scheme: Option<string>,
                           source: Option<Source>)

  const Unset := Fields(None, None, None, None)

  /** The names the reader recognises. */
  predicate Known(name: string)
  {
    name == "origin" || name == "realm" || name == "scheme" || name == "source"
  }

  /** One pass of the reader's loop over a member. */
  function Step(f: Fields, name: string, v: JsonValue, getSource: string -> Source): (r: Result<Fields, ParseError>)
    ensures !Known(name) ==> r == Ok(f)
    ensures Known(name) && !v.JString? ==> r == Err(NotAString(name))
  {
    if !Known(name) then Ok(f)
    else if !v.JString? then Err(NotAString(name))
    else if name == "origin" then Ok(f.(origin := Some(v.s)))
    else if name == "realm" then Ok(f.(realm := Some(v.s)))
    else if name == "scheme" then Ok(f.(scheme := Some(v.s)))
    else Ok(f.(source := Some(getSource(v.s))))
  }

  /** `parseRequest` on the members in order, from the record with every field null: the
      members are applied left to right and the first member that fails stops the reading. */
  function Parsed(members: seq<(string, JsonValue)>, getSource: string -> Source): Result<Fields, ParseError>
  {
    if members == [] then Ok(Unset)
    else
      var last := members[|members| - 1];
      match Parsed(members[..|members| - 1], getSource)
      case Err(e) => Err(e)
      case Ok(f) => Step(f, last.0, last.1, getSource)
  }

  /** A member with an unknown name is skipped and leaves every field as it was. */
  lemma UnknownSkipped(members: seq<(string, JsonValue)>, name: string, v: JsonValue, getSource: string -> Source)
    requires !Known(name)
    ensures Parsed(members + [(name, v)], getSource) == Parsed(members, getSource)
  {
    assert (members + [(name, v)])[..|members|] == members;
  }

  /** Whether `name` occurs among the members' names. */
  predicate Mentions(members: seq<(string, JsonValue)>, name: string)
  {
    exists i | 0 <= i < |members| :: members[i].0 == name
  }

  /** A field whose name never occurs stays null. */
  lemma {:induction false} NeverSeenStaysNull(members: seq<(string, JsonValue)>, getSource: string -> Source)
    requires Parsed(members, getSource).Ok?
    ensures !Mentions(members, "origin") ==> Parsed(members, getSource).value.origin.None?
    ensures !Mentions(members, "realm") ==> Parsed(members, getSource).value.realm.None?
    ensures !Mentions(members, "scheme") ==> Parsed(members, getSource).value.scheme.None?
    ensures !Mentions(members, "source") ==> Parsed(members, getSource).value.source.None?
  {
    if members != [] {
      var init := members[..|members| - 1];
      NeverSeenStaysNull(init, getSource);
    }
  }

  /** The last occurrence of a name decides its field: members after it that do not carry that
      name leave it alone, and a repeated name overwrites the earlier value. */
  lemma {:induction false} LastOccurrenceWins(members: seq<(string, JsonValue)>, i: nat, getSource: string -> Source)
    requires i < |members| && members[i].1.JString?
    requires forall j | i < j < |members| :: members[j].0 != members[i].0
    requires Parsed(members, getSource).Ok?
    ensures members[i].0 == "origin" ==> Parsed(members, getSource).value.origin == Some(members[i].1.s)
    ensures members[i].0 == "realm" ==> Parsed(members, getSource).value.realm == Some(members[i].1.s)
    ensures members[i].0 == "scheme" ==> Parsed(members, getSource).value.scheme == Some(members[i].1.s)
    ensures members[i].0 == "source" ==> Parsed(members, getSource).value.source == Some(getSource(members[i].1.s))
    decreases |members|
  {
    var init := members[..|members| - 1];
    if i < |members| - 1 {
      LastOccurrenceWins(init, i, getSource);
    }
  }

  /** Once a member fails, the whole reading fails with it. */
  lemma {:induction false} ErrorIsFinal(members: seq<(string, JsonValue)>, more: seq<(string, JsonValue)>, getSource: string -> Source)
    requires Parsed(members, getSource).Err?
    ensures Parsed(members + more, getSource) == Parsed(members, getSource)
    decreases |more|
  {
    var all := members + more;
    if more == [] {
      assert all == members;
    } else {
      var shorter := more[..|more| - 1];
      assert all[..|all| - 1] == members + shorter;
      ErrorIsFinal(members, shorter, getSource);
    }
  }

  /** The mutable record. Each setter changes its own field and nothing else; each getter
      returns what its setter last stored. */
  class AuthChallenge {
    var origin: Option<string>
    var realm: Option<string>
    var scheme: Option<string>
    var source: Option<Source>

    function Current(): Fields
      reads this
    {
      Fields(origin, realm, scheme, source)
    }

    /** `new AuthChallenge()`: every field null. */
    constructor ()
      ensures Current() == Unset
    {
      origin, realm, scheme, source := None, None, None, None;
    }

    function GetOrigin(): Option<string> reads this { origin }
    function GetRealm(): Option<string> reads this { realm }
    function GetScheme(): Option<string> reads this { scheme }
    function GetSource(): Option<Source> reads this { source }

    /** The four setters accept Java's null as None, and it then reads back as null. */
    method SetOrigin(v: Option<string>)
      modifies this
      ensures Current() == old(Current()).(origin := v)
      ensures GetOrigin() == v
    {
      origin := v;
    }

    method SetRealm(v: Option<string>)
      modifies this
      ensures Current() == old(Current()).(realm := v)
      ensures GetRealm() == v
    {
      realm := v;
    }

    method SetScheme(v: Option<string>)
      modifies this
      ensures Current() == old(Current()).(scheme := v)
      ensures GetScheme() == v
    {
      scheme := v;
    }

    method SetSource(v: Option<Source>)
      modifies this
      ensures Current() == old(Current()).(source := v)
      ensures GetSource() == v
    {
      source := v;
    }
  }

  /** `parseRequest`: the while loop over the object's members, dispatching on each name to a
      setter, with the reader's failure on a non-string value surfaced as an error. */
  method ParseRequest(members: seq<(string, JsonValue)>, getSource: string -> Source)
    returns (r: Result<AuthChallenge, ParseError>)
    ensures r.Err? <==> Parsed(members, getSource).Err?
    ensures r.Err? ==> r.error == Parsed(members, getSource).error
    ensures r.Ok? ==> fresh(r.value) && r.value.Current() == Parsed(members, getSource).value
  {
    var challenge := new AuthChallenge();
    var i := 0;
    while i < |members|
      invariant 0 <= i <= |members|
      invariant Parsed(members[..i], getSource) == Ok(challenge.Current())
    {
      assert members[..i + 1][..i] == members[..i];
      var (name, v) := members[i];
      if Known(name) && !v.JString? {
        ErrorIsFinal(members[..i + 1], members[i + 1..], getSource);
        assert members[..i + 1] + members[i + 1..] == members;
        return Err(NotAString(name));
      }
      if name == "origin" {
        challenge.SetOrigin(Some(v.s));
      } else if name == "realm" {
        challenge.SetRealm(Some(v.s));
      } else if name == "scheme" {
        challenge.SetScheme(Some(v.s));
      } else if name == "source" {
        challenge.SetSource(Some(getSource(v.s)));
      }
      i := i + 1;
    }
    assert members[..i] == members;
    return Ok(challenge);
  }
}
