/** The Grid's status snapshot of one Node (org.openqa.selenium.grid.data.NodeStatus) and the slot
    summaries it carries. */
module GridData {
  import opened Wrappers
  import opened Capabilities

  datatype Availability = UP | DRAINING | DOWN

  datatype SlotId = SlotId(nodeId: string, slotUuid: string)

  /** A running session as a slot reports it; times are epoch milliseconds. */
  datatype Session = Session(id: string, uri: string, stereotype: Caps, capabilities: Caps, startTime: int)

  /** One slot of a Node: no session means the slot is free. */
  datatype Slot = Slot(id: SlotId, stereotype: Caps, lastStarted: int, session: Option<Session>)

  /** Why construction of a status is refused: a required argument is null, or the session
      count is not positive. The names are the ones the constructor reports. */
  datatype StatusError = NullArgument(name: string) | NotPositive(name: string) | JsonError(key: string)

  /** The constructor's argument checks, in the order it makes them; None when all pass. */
  function ConstructorCheck(
    nodeId: Option<string>, externalUri: Option<string>, maxSessionCount: int,
    slots: Option<set<Slot>>, availability: Option<Availability>, version: Option<string>,
    osInfo: Option<map<string, string>>): (e: Option<StatusError>)
    ensures e == None <==>
      nodeId.Some? && externalUri.Some? && maxSessionCount > 0 && slots.Some? &&
      availability.Some? && version.Some? && osInfo.Some?
    ensures nodeId.None? ==> e == Some(NullArgument("Node id"))
    ensures nodeId.Some? && externalUri.None? ==> e == Some(NullArgument("URI"))
    ensures nodeId.Some? && externalUri.Some? && maxSessionCount <= 0 ==>
      e == Some(NotPositive("Max session count"))
    ensures nodeId.Some? && externalUri.Some? && maxSessionCount > 0 && slots.None? ==>
      e == Some(NullArgument("Slots"))
    ensures (nodeId.Some? && externalUri.Some? && maxSessionCount > 0 && slots.Some? &&
             availability.None?) ==> e == Some(NullArgument("Availability"))
    ensures (nodeId.Some? && externalUri.Some? && maxSessionCount > 0 && slots.Some? &&
             availability.Some? && version.None?) ==> e == Some(NullArgument("Grid Node version"))
    ensures (nodeId.Some? && externalUri.Some? && maxSessionCount > 0 && slots.Some? &&
             availability.Some? && version.Some? && osInfo.None?) ==> e == Some(NullArgument("Node host OS info"))
  {
    if nodeId.None? then Some(NullArgument("Node id"))
    else if externalUri.None? then Some(NullArgument("URI"))
    else if maxSessionCount <= 0 then Some(NotPositive("Max session count"))
    else if slots.None? then Some(NullArgument("Slots"))
    else if availability.None? then Some(NullArgument("Availability"))
    else if version.None? then Some(NullArgument("Grid Node version"))
    else if osInfo.None? then Some(NullArgument("Node host OS info"))
    else None
  }

  /** A JSON value as the status reader meets it; reading a key whose value has the wrong shape
      fails. */
  datatype Json =
    | JStr(s: string)
    | JInt(i: int)
    | JSlots(slots: set<Slot>)
    | JStrMap(m: map<string, string>)
    | JNull
    | JOther

  datatype Entry = Entry(name: string, value: Json)

  /** The locals `fromJson` assigns while it walks the object. */
  datatype Fields = Fields(
    nodeId: Option<string>, externalUri: Option<string>, maxSessions: int,
    slots: Option<set<Slot>>, availability: Option<Availability>, heartbeatSeconds: Option<int>,
    version: Option<string>, osInfo: Option<map<string, string>>)

  const NoFields := Fields(None, None, 0, None, None, None, None, None)

  const KnownKeys: set<string> :=
    {"availability", "heartbeatPeriod", "nodeId", "maxSessions", "slots", "externalUri", "version", "osInfo"}

  function ReadAvailability(v: Json): Result<Option<Availability>, StatusError>
  {
    match v
    case JNull => Ok(None)
    case JStr(s) =>
      if s == "UP" then Ok(Some(UP))
      else if s == "DRAINING" then Ok(Some(DRAINING))
      else if s == "DOWN" then Ok(Some(DOWN))
      else Err(JsonError("availability"))
    case _ => Err(JsonError("availability"))
  }

  function ReadString(key: string, v: Json): Result<Option<string>, StatusError>
  {
    match v
    case JNull => Ok(None)
    case JStr(s) => Ok(Some(s))
    case _ => Err(JsonError(key))
  }

  /** One iteration of the reading loop: the case for the entry's name, or skipping the value. */
  function ReadEntry(f: Fields, e: Entry): (r: Result<Fields, StatusError>)
    ensures e.name !in KnownKeys ==> r == Ok(f)
    ensures r.Ok? && e.name != "maxSessions" ==> r.value.maxSessions == f.maxSessions
  {
    match e.name
    case "availability" =>
      (match ReadAvailability(e.value)
       case Ok(a) => Ok(f.(availability := a))
       case Err(x) => Err(x))
    case "heartbeatPeriod" =>
      // Duration.ofSeconds of an unboxed Long: a null value fails like a non-number
      if e.value.JInt? then Ok(f.(heartbeatSeconds := Some(e.value.i))) else Err(JsonError("heartbeatPeriod"))
    case "nodeId" =>
      (match ReadString("nodeId", e.value)
       case Ok(s) => Ok(f.(nodeId := s))
       case Err(x) => Err(x))
    case "maxSessions" =>
      // assigned to an int local: a null value fails when it is unboxed
      if e.value.JInt? then Ok(f.(maxSessions := e.value.i)) else Err(JsonError("maxSessions"))
    case "slots" =>
      (match e.value
       case JSlots(s) => Ok(f.(slots := Some(s)))
       case JNull => Ok(f.(slots := None))
       case _ => Err(JsonError("slots")))
    case "externalUri" =>
      (match ReadString("externalUri", e.value)
       case Ok(s) => Ok(f.(externalUri := s))
       case Err(x) => Err(x))
    case "version" =>
      (match ReadString("version", e.value)
       case Ok(s) => Ok(f.(version := s))
       case Err(x) => Err(x))
    case "osInfo" =>
      (match e.value
       case JStrMap(m) => Ok(f.(osInfo := Some(m)))
       case JNull => Ok(f.(osInfo := None))
       case _ => Err(JsonError("osInfo")))
    case _ => Ok(f)
  }

  /** The locals after reading `entries` in order, starting from `f`; the first failing read stops it. */
  function ReadEntries(f: Fields, entries: seq<Entry>): Result<Fields, StatusError>
    decreases |entries|
  {
    if entries == [] then Ok(f)
    else
      match ReadEntry(f, entries[0])
      case Ok(g) => ReadEntries(g, entries[1..])
      case Err(x) => Err(x)
  }

  function ParseFields(entries: seq<Entry>): Result<Fields, StatusError>
  {
    ReadEntries(NoFields, entries)
  }

  lemma {:induction false} ReadEntriesAppend(f: Fields, a: seq<Entry>, b: seq<Entry>)
    ensures ReadEntries(f, a + b) ==
      (match ReadEntries(f, a) case Ok(g) => ReadEntries(g, b) case Err(x) => Err(x))
    decreases |a|
  {
    if a == [] {
      assert a + b == b;
    } else {
      assert (a + b)[0] == a[0];
      assert (a + b)[1..] == a[1..] + b;
      match ReadEntry(f, a[0])
      case Ok(g) => ReadEntriesAppend(g, a[1..], b);
      case Err(_) =>
    }
  }

  /** An entry whose name is not one of the known keys is skipped and changes nothing. */
  lemma {:induction false} UnknownKeySkipped(pre: seq<Entry>, e: Entry, post: seq<Entry>)
    requires e.name !in KnownKeys
    ensures ParseFields(pre + [e] + post) == ParseFields(pre + post)
  {
    ReadEntriesAppend(NoFields, pre + [e], post);
    ReadEntriesAppend(NoFields, pre, [e]);
    ReadEntriesAppend(NoFields, pre, post);
    assert ReadEntries(NoFields, [e]) == Ok(NoFields);
  }

  /** Reading entries that never name "maxSessions" leaves the session count as it was. */
  lemma {:induction false} MaxSessionsUntouched(f: Fields, entries: seq<Entry>)
    requires forall i :: 0 <= i < |entries| ==> entries[i].name != "maxSessions"
    ensures ReadEntries(f, entries).Ok? ==> ReadEntries(f, entries).value.maxSessions == f.maxSessions
    decreases |entries|
  {
    if entries != [] {
      match ReadEntry(f, entries[0])
      case Ok(g) => MaxSessionsUntouched(g, entries[1..]);
      case Err(_) =>
    }
  }

  /** The last "maxSessions" entry decides the count: later entries with other names keep it. */
  lemma LastMaxSessionsWins(pre: seq<Entry>, n: int, post: seq<Entry>)
    requires forall i :: 0 <= i < |post| ==> post[i].name != "maxSessions"
    requires ParseFields(pre + [Entry("maxSessions", JInt(n))] + post).Ok?
    ensures ParseFields(pre + [Entry("maxSessions", JInt(n))] + post).value.maxSessions == n
  {
    var e := Entry("maxSessions", JInt(n));
    ReadEntriesAppend(NoFields, pre + [e], post);
    ReadEntriesAppend(NoFields, pre, [e]);
    match ReadEntries(NoFields, pre)
    case Ok(g) =>
      assert ReadEntries(g, [e]) == Ok(g.(maxSessions := n));
      MaxSessionsUntouched(g.(maxSessions := n), post);
    case Err(_) =>
  }

  /** `f` and `g` hold the same value in the local that `key` assigns (any locals agree on an
      unknown key). */
  predicate SameLocal(f: Fields, g: Fields, key: string)
  {
    match key
    case "availability" => f.availability == g.availability
    case "heartbeatPeriod" => f.heartbeatSeconds == g.heartbeatSeconds
    case "nodeId" => f.nodeId == g.nodeId
    case "maxSessions" => f.maxSessions == g.maxSessions
    case "slots" => f.slots == g.slots
    case "externalUri" => f.externalUri == g.externalUri
    case "version" => f.version == g.version
    case "osInfo" => f.osInfo == g.osInfo
    case _ => true
  }

  /** Reading an entry with another name leaves the local of `key` as it was. */
  lemma ReadEntryKeeps(f: Fields, e: Entry, key: string)
    requires e.name != key && ReadEntry(f, e).Ok?
    ensures SameLocal(ReadEntry(f, e).value, f, key)
  {
  }

  /** Reading entries none of which is named `key` leaves the local of `key` as it was. */
  lemma {:induction false} OtherNamesKeep(f: Fields, entries: seq<Entry>, key: string)
    requires forall i :: 0 <= i < |entries| ==> entries[i].name != key
    requires ReadEntries(f, entries).Ok?
    ensures SameLocal(ReadEntries(f, entries).value, f, key)
    decreases |entries|
  {
    if entries != [] {
      var g := ReadEntry(f, entries[0]).value;
      ReadEntryKeeps(f, entries[0], key);
      OtherNamesKeep(g, entries[1..], key);
    }
  }

  /** The last entry of a known name decides that name's local, whatever came before it: the
      local holds what reading that entry's value gives. */
  lemma LastOccurrenceWins(pre: seq<Entry>, e: Entry, post: seq<Entry>)
    requires e.name in KnownKeys
    requires forall i :: 0 <= i < |post| ==> post[i].name != e.name
    requires ParseFields(pre + [e] + post).Ok?
    ensures var r := ParseFields(pre + [e] + post).value;
      (e.name == "availability" ==> ReadAvailability(e.value) == Ok(r.availability)) &&
      (e.name == "heartbeatPeriod" ==> e.value.JInt? && r.heartbeatSeconds == Some(e.value.i)) &&
      (e.name == "nodeId" ==> ReadString("nodeId", e.value) == Ok(r.nodeId)) &&
      (e.name == "maxSessions" ==> e.value.JInt? && r.maxSessions == e.value.i) &&
      (e.name == "slots" ==> (e.value.JSlots? && r.slots == Some(e.value.slots)) || (e.value.JNull? && r.slots == None)) &&
      (e.name == "externalUri" ==> ReadString("externalUri", e.value) == Ok(r.externalUri)) &&
      (e.name == "version" ==> ReadString("version", e.value) == Ok(r.version)) &&
      (e.name == "osInfo" ==> (e.value.JStrMap? && r.osInfo == Some(e.value.m)) || (e.value.JNull? && r.osInfo == None))
  {
    ReadEntriesAppend(NoFields, pre + [e], post);
    ReadEntriesAppend(NoFields, pre, [e]);
    var g := ReadEntries(NoFields, pre).value;
    assert ReadEntries(g, [e]) == ReadEntry(g, e);
    var h := ReadEntry(g, e).value;
    OtherNamesKeep(h, post, e.name);
  }

  /** Without a "maxSessions" entry the count stays 0, so the constructor refuses the status. */
  lemma MissingMaxSessionsRefused(entries: seq<Entry>)
    requires forall i :: 0 <= i < |entries| ==> entries[i].name != "maxSessions"
    requires ParseFields(entries).Ok?
    ensures var f := ParseFields(entries).value;
      f.maxSessions == 0 &&
      ConstructorCheck(f.nodeId, f.externalUri, f.maxSessions, f.slots, f.availability, f.version, f.osInfo).Some?
  {
    MaxSessionsUntouched(NoFields, entries);
  }

  /** Some slot of `slots` supports `caps`; `supports` stands for `Slot.isSupporting`. */
  predicate AnySupports(slots: set<Slot>, caps: Caps, supports: (Slot, Caps) -> bool)
  {
    exists s | s in slots :: supports(s, caps)
  }

  class NodeStatus {
    var nodeId: string
    var externalUri: string
    var maxSessionCount: int
    var slots: set<Slot>
    var availability: Availability
    var heartbeatSeconds: Option<int>
    var version: string
    var osInfo: map<string, string>
    var touched: int

    /** The checked constructor; `now` is the clock reading that initialises `touched`. */
    constructor (
      nodeId: string, externalUri: string, maxSessionCount: int, slots: set<Slot>,
      availability: Availability, heartbeatSeconds: Option<int>, version: string,
      osInfo: map<string, string>, now: int)
      requires maxSessionCount > 0
      ensures this.nodeId == nodeId && this.externalUri == externalUri
      ensures this.maxSessionCount == maxSessionCount && this.slots == slots
      ensures this.availability == availability && this.heartbeatSeconds == heartbeatSeconds
      ensures this.version == version && this.osInfo == osInfo && this.touched == now
    {
      this.nodeId := nodeId;
      this.externalUri := externalUri;
      this.maxSessionCount := maxSessionCount;
      this.slots := slots;
      this.availability := availability;
      this.heartbeatSeconds := heartbeatSeconds;
      this.version := version;
      this.osInfo := osInfo;
      this.touched := now;
    }

    /** `new NodeStatus(...)` with nullable arguments: the first failed check is the error. */
    static method Create(
      nodeId: Option<string>, externalUri: Option<string>, maxSessionCount: int,
      slots: Option<set<Slot>>, availability: Option<Availability>, heartbeatSeconds: Option<int>,
      version: Option<string>, osInfo: Option<map<string, string>>, now: int)
      returns (r: Result<NodeStatus, StatusError>)
      ensures var e := ConstructorCheck(nodeId, externalUri, maxSessionCount, slots, availability, version, osInfo);
        (e.Some? ==> r == Err(e.value)) &&
        (e.None? ==>
           (r.Ok? && fresh(r.value) &&
            r.value.nodeId == nodeId.value && r.value.externalUri == externalUri.value &&
            r.value.maxSessionCount == maxSessionCount && r.value.slots == slots.value &&
            r.value.availability == availability.value && r.value.heartbeatSeconds == heartbeatSeconds &&
            r.value.version == version.value && r.value.osInfo == osInfo.value && r.value.touched == now))
    {
      var e := ConstructorCheck(nodeId, externalUri, maxSessionCount, slots, availability, version, osInfo);
      if e.Some? {
        return Err(e.value);
      }
      var s := new NodeStatus(nodeId.value, externalUri.value, maxSessionCount, slots.value,
                              availability.value, heartbeatSeconds, version.value, osInfo.value, now);
      return Ok(s);
    }

    /** `fromJson`: walks the entries assigning the matching local, skipping unknown names,
        then hands the locals to the constructor. */
    static method FromJson(entries: seq<Entry>, now: int) returns (r: Result<NodeStatus, StatusError>)
      ensures ParseFields(entries).Err? ==> r == Err(ParseFields(entries).error)
      ensures ParseFields(entries).Ok? ==>
        var f := ParseFields(entries).value;
        var e := ConstructorCheck(f.nodeId, f.externalUri, f.maxSessions, f.slots, f.availability, f.version, f.osInfo);
        (e.Some? ==> r == Err(e.value)) &&
        (e.None? ==>
           (r.Ok? && fresh(r.value) && r.value.maxSessionCount == f.maxSessions &&
            r.value.nodeId == f.nodeId.value && r.value.slots == f.slots.value &&
            r.value.availability == f.availability.value && r.value.heartbeatSeconds == f.heartbeatSeconds &&
            r.value.externalUri == f.externalUri.value && r.value.version == f.version.value &&
            r.value.osInfo == f.osInfo.value && r.value.touched == now))
    {
      var f := NoFields;
      var i := 0;
      while i < |entries|
        invariant 0 <= i <= |entries|
        invariant ReadEntries(NoFields, entries) ==
          (match ReadEntries(NoFields, entries[..i]) case Ok(g) => ReadEntries(g, entries[i..]) case Err(x) => Err(x))
        invariant ReadEntries(NoFields, entries[..i]) == Ok(f)
      {
        ReadEntriesAppend(NoFields, entries[..i], [entries[i]]);
        assert entries[..i + 1] == entries[..i] + [entries[i]];
        var step := ReadEntry(f, entries[i]);
        if step.Err? {
          assert ReadEntries(f, entries[i..]) == Err(step.error);
          return Err(step.error);
        }
        f := step.value;
        i := i + 1;
      }
      assert entries[..i] == entries;
      r := Create(f.nodeId, f.externalUri, f.maxSessions, f.slots, f.availability,
                  f.heartbeatSeconds, f.version, f.osInfo, now);
    }

    /** `hasCapability`: some slot supports the capabilities. */
    predicate HasCapability(caps: Caps, supports: (Slot, Caps) -> bool)
      reads this
    {
      AnySupports(slots, caps, supports)
    }

    /** `hasCapacity()`: some slot runs no session. */
    predicate HasCapacity()
      reads this
    {
      exists s | s in slots :: s.session.None?
    }

    /** `hasCapacity(caps)`: one and the same slot is free and supports the capabilities. */
    predicate HasCapacityFor(caps: Caps, supports: (Slot, Caps) -> bool)
      reads this
      ensures HasCapacityFor(caps, supports) ==> HasCapability(caps, supports) && HasCapacity()
    {
      exists s | s in slots :: s.session.None? && supports(s, caps)
    }

    /** `getLastSessionCreated`: the latest slot start, or 0 for a node without slots. */
    ghost function LastSessionCreated(): (t: int)
      reads this
      ensures slots == {} ==> t == 0
      ensures slots != {} ==> (exists s | s in slots :: t == s.lastStarted) &&
                              forall s | s in slots :: s.lastStarted <= t
    {
      MaxLastStarted(slots)
    }

    /** `equals`: heartbeat, OS information and the touch time take no part. */
    predicate Equals(that: NodeStatus)
      reads this, that
    {
      nodeId == that.nodeId && externalUri == that.externalUri &&
      maxSessionCount == that.maxSessionCount && slots == that.slots &&
      availability == that.availability && version == that.version
    }

    /** The fields `hashCode` combines. */
    function HashInputs(): (string, string, int, set<Slot>, string)
      reads this
    {
      (nodeId, externalUri, maxSessionCount, slots, version)
    }

    /** `touch()`: records the clock reading and changes nothing else. */
    method Touch(now: int)
      modifies this`touched
      ensures touched == now
    {
      touched := now;
    }

    method SetMaxSessionCount(n: int)
      modifies this`maxSessionCount
      ensures maxSessionCount == n
    {
      maxSessionCount := n;
    }

    method SetSlots(s: set<Slot>)
      modifies this`slots
      ensures slots == s
    {
      slots := s;
    }

    method SetAvailability(a: Availability)
      modifies this`availability
      ensures availability == a
    {
      availability := a;
    }

    method SetVersion(v: string)
      modifies this`version
      ensures version == v
    {
      version := v;
    }
  }

  /** Maximum start time over a non-empty set of slots, 0 for the empty set. */
  ghost function MaxLastStarted(slots: set<Slot>): (t: int)
    ensures slots == {} ==> t == 0
    ensures slots != {} ==> (exists s | s in slots :: t == s.lastStarted) &&
                            forall s | s in slots :: s.lastStarted <= t
    decreases slots
  {
    if slots == {} then 0
    else
      var x :| x in slots;
      var rest := slots - {x};
      assert slots == rest + {x};
      if rest == {} then x.lastStarted
      else
        var m := MaxLastStarted(rest);
        if x.lastStarted >= m then x.lastStarted else m
  }

  /** Equal statuses hash alike: `hashCode` reads a subset of the fields `equals` compares. */
  lemma EqualsAgreesWithHash(a: NodeStatus, b: NodeStatus)
    requires a.Equals(b)
    ensures a.HashInputs() == b.HashInputs()
  {
  }

  /** Free capacity and support in two different slots do not make `hasCapacity(caps)` hold. */
  lemma CapacityForIsStronger(ns: NodeStatus, busy: Slot, free: Slot, caps: Caps, supports: (Slot, Caps) -> bool)
    requires ns.slots == {busy, free}
    requires busy.session.Some? && supports(busy, caps)
    requires free.session.None? && !supports(free, caps)
    ensures ns.HasCapability(caps, supports) && ns.HasCapacity()
    ensures !ns.HasCapacityFor(caps, supports)
  {
    assert busy in ns.slots && free in ns.slots;
  }
}
