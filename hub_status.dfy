/** The hub's status endpoint (org.openqa.grid.web.servlet.HubStatusServlet): which entries the
    JSON answer holds, the slot counts, and the per-browser slot breakdown of each node. */
module HubStatusServlet {
  import opened Wrappers
  import opened Strings

  /** A test slot of a registered proxy: its "browserName" capability (None when absent) and
      whether a session runs on it. */
  datatype TestSlot = TestSlot(browserName: Option<string>, hasSession: bool)

  /** A registered remote proxy; `totalUsed` is what the proxy reports as in use. */
  datatype Proxy = Proxy(id: string, maxConcurrent: int, slots: seq<TestSlot>, totalUsed: int)

  /** What the registry supplies: the hub configuration, the queued request count and the proxies
      (in the registry's sorted order). */
  datatype Hub = Hub(configuration: map<string, string>, newSessionRequestCount: int, proxies: seq<Proxy>)

  /** The "configuration" entry of the request body: a list of names, JSON null, or some other
      value that the list cast refuses. */
  datatype ConfigurationField = ConfigList(names: seq<string>) | ConfigNull | ConfigNotAList

  /** The exceptions the handler turns into `success: false`. */
  datatype Failure = ClassCast | NullPointer

  datatype BrowserSlots = BrowserSlots(total: int, busy: int)

  datatype NodeInfo = NodeInfo(id: string, browsers: map<string, BrowserSlots>)

  /** The values of the answer's entries. */
  datatype Out =
    | OBool(b: bool)
    | OInt(i: int)
    | OConfig(value: string)
    | OSlotCounts(free: int, total: int)
    | ONodes(nodes: seq<NodeInfo>)
    | OMessage(cause: Failure)

  /** `IsKeyPresentIn`: no list, or an empty one, selects every key. */
  predicate IsKeyPresentIn(keys: Option<seq<string>>, key: string)
  {
    keys.None? || keys.value == [] || key in keys.value
  }

  /** Only a non-empty list that lacks the key excludes it. */
  lemma KeyExcludedOnlyByList(keys: Option<seq<string>>, key: string)
    ensures !IsKeyPresentIn(keys, key) <==> keys.Some? && |keys.value| > 0 && key !in keys.value
  {
  }

  /** Java's `String.split` with a one-character pattern: trailing empty pieces are dropped. */
  function JavaSplit(s: string, sep: char): (r: seq<string>)
    ensures forall i | 0 <= i < |r| :: sep !in r[i]
    ensures r == [] || r[|r| - 1] != ""
    ensures sep !in s && s != "" ==> r == [s]
  {
    DropTrailingEmpty(Split(s, sep))
  }

  function DropTrailingEmpty(pieces: seq<string>): (r: seq<string>)
    ensures r <= pieces
    ensures r == [] || r[|r| - 1] != ""
    ensures forall i | |r| <= i < |pieces| :: pieces[i] == ""
  {
    if pieces == [] then []
    else if pieces[|pieces| - 1] == "" then DropTrailingEmpty(pieces[..|pieces| - 1])
    else pieces
  }

  /** `JavaSplit` is the plain split with only empty pieces dropped from its end, and the plain
      split joins back to the text; so the names are the text's pieces in order. */
  lemma JavaSplitRejoins(s: string, sep: char)
    ensures var r := JavaSplit(s, sep); var pieces := Split(s, sep);
      r <= pieces && (forall i | |r| <= i < |pieces| :: pieces[i] == "") && Join(pieces, [sep]) == s
  {
    JoinSplit(s, sep);
  }

  /** A separator on its own yields no names at all, so every configuration key is selected. */
  lemma LoneCommaSelectsAll(key: string)
    ensures JavaSplit(",", ',') == []
    ensures IsKeyPresentIn(Some(JavaSplit(",", ',')), key)
  {
    assert Split(",", ',') == ["", ""] by {
      assert IndexOf(",", ',') == 0;
      assert Split([], ',') == [[]];
    }
  }

  /** The names to return: a non-empty query parameter, split on commas, wins over the body's
      "configuration" list; a body value that is not a list fails the cast. */
  function KeysToReturn(param: Option<string>, body: Option<map<string, ConfigurationField>>)
    : (r: Result<Option<seq<string>>, Failure>)
    ensures param.Some? && param.value != "" ==> r == Ok(Some(JavaSplit(param.value, ',')))
    ensures r.Err? ==> r.error == ClassCast
  {
    if param.Some? && param.value != "" then Ok(Some(JavaSplit(param.value, ',')))
    else if body.Some? && "configuration" in body.value then
      match body.value["configuration"]
      case ConfigList(names) => Ok(Some(names))
      case ConfigNull => Ok(None)
      case ConfigNotAList => Err(ClassCast)
    else Ok(None)
  }

  /** The query parameter takes precedence: whatever the body says is then ignored. */
  lemma ParameterWins(p: string, body: Option<map<string, ConfigurationField>>)
    requires p != ""
    ensures KeysToReturn(Some(p), body) == KeysToReturn(Some(p), None)
  {
  }

  /** The proxy's contribution to the total: its slot count capped by its concurrency limit. */
  function ProxySlots(p: Proxy): (r: int)
    ensures r <= p.maxConcurrent && r <= |p.slots|
    ensures r == p.maxConcurrent || r == |p.slots|
  {
    if p.maxConcurrent <= |p.slots| then p.maxConcurrent else |p.slots|
  }

  function TotalSlots(proxies: seq<Proxy>): int
  {
    if proxies == [] then 0 else TotalSlots(proxies[..|proxies| - 1]) + ProxySlots(proxies[|proxies| - 1])
  }

  function UsedSlots(proxies: seq<Proxy>): int
  {
    if proxies == [] then 0 else UsedSlots(proxies[..|proxies| - 1]) + proxies[|proxies| - 1].totalUsed
  }

  /** `getSlotCounts`: accumulates the capped slot counts and the used counts over the proxies;
      the free count is their difference. */
  method GetSlotCounts(proxies: seq<Proxy>) returns (free: int, total: int)
    ensures total == TotalSlots(proxies)
    ensures free == TotalSlots(proxies) - UsedSlots(proxies)
  {
    var totalSlots := 0;
    var usedSlots := 0;
    var i := 0;
    while i < |proxies|
      invariant 0 <= i <= |proxies|
      invariant totalSlots == TotalSlots(proxies[..i])
      invariant usedSlots == UsedSlots(proxies[..i])
    {
      assert proxies[..i + 1][..i] == proxies[..i];
      totalSlots := totalSlots + ProxySlots(proxies[i]);
      usedSlots := usedSlots + proxies[i].totalUsed;
      i := i + 1;
    }
    assert proxies[..i] == proxies;
    free := totalSlots - usedSlots;
    total := totalSlots;
  }

  /** The total over the proxies is at most their number of slots. */
  lemma {:induction false} TotalAtMostSlotCount(proxies: seq<Proxy>)
    ensures TotalSlots(proxies) <= SlotCount(proxies)
    decreases |proxies|
  {
    if proxies != [] {
      TotalAtMostSlotCount(proxies[..|proxies| - 1]);
    }
  }

  function SlotCount(proxies: seq<Proxy>): nat
  {
    if proxies == [] then 0 else SlotCount(proxies[..|proxies| - 1]) + |proxies[|proxies| - 1].slots|
  }

  /** Number of slots for browser `b`, and of those that run a session. */
  function CountBrowser(slots: seq<TestSlot>, b: string, busyOnly: bool): (n: nat)
    ensures n <= |slots|
  {
    if slots == [] then 0
    else
      var s := slots[0];
      (if s.browserName == Some(b) && (s.hasSession || !busyOnly) then 1 else 0) + CountBrowser(slots[1..], b, busyOnly)
  }

  /** A slot for browser `b` is counted in the total for `b`. */
  lemma {:induction false} CountedSlot(slots: seq<TestSlot>, i: int, b: string)
    requires 0 <= i < |slots| && slots[i].browserName == Some(b)
    ensures CountBrowser(slots, b, false) > 0
  {
    if i > 0 {
      CountedSlot(slots[1..], i - 1, b);
    }
  }

  /** `status(slot)` is "busy" exactly when the slot has a session; per browser flavour the total
      is busy plus free. */
  lemma {:induction false} BusyPlusFree(slots: seq<TestSlot>, b: string)
    ensures CountBrowser(slots, b, false) == CountBrowser(slots, b, true) + FreeCount(slots, b)
  {
    if slots != [] {
      BusyPlusFree(slots[1..], b);
    }
  }

  function FreeCount(slots: seq<TestSlot>, b: string): nat
  {
    if slots == [] then 0
    else (if slots[0].browserName == Some(b) && !slots[0].hasSession then 1 else 0) + FreeCount(slots[1..], b)
  }

  predicate AllNamed(slots: seq<TestSlot>)
  {
    forall i | 0 <= i < |slots| :: slots[i].browserName.Some?
  }

  /** `getInfoFromAllSlotsInNode`: slots grouped by browser name; reading the name of a slot that
      has none fails with a null pointer. */
  function BrowsersOf(slots: seq<TestSlot>): (r: Result<map<string, BrowserSlots>, Failure>)
    ensures r.Ok? <==> AllNamed(slots)
    ensures r.Err? ==> r.error == NullPointer
    ensures r.Ok? ==> forall i | 0 <= i < |slots| :: slots[i].browserName.value in r.value
    ensures r.Ok? ==> forall b | b in r.value ::
      r.value[b] == BrowserSlots(CountBrowser(slots, b, false), CountBrowser(slots, b, true)) &&
      r.value[b].total > 0
  {
    if !AllNamed(slots) then Err(NullPointer)
    else
      var names := set i | 0 <= i < |slots| :: slots[i].browserName.value;
      assert forall b | b in names :: CountBrowser(slots, b, false) > 0 by {
        forall b | b in names
          ensures CountBrowser(slots, b, false) > 0
        {
          var i :| 0 <= i < |slots| && slots[i].browserName.value == b;
          CountedSlot(slots, i, b);
        }
      }
      Ok(map b | b in names :: BrowserSlots(CountBrowser(slots, b, false), CountBrowser(slots, b, true)))
  }

  /** `getNodesInfo`: one entry per proxy, the first unnamed slot failing the whole list. */
  function NodesInfo(proxies: seq<Proxy>): (r: Result<seq<NodeInfo>, Failure>)
    ensures r.Ok? ==> (|r.value| == |proxies| &&
      forall i | 0 <= i < |proxies| :: r.value[i].id == proxies[i].id && BrowsersOf(proxies[i].slots) == Ok(r.value[i].browsers))
    ensures r.Err? ==> r.error == NullPointer
    ensures r.Err? <==> exists i | 0 <= i < |proxies| :: BrowsersOf(proxies[i].slots).Err?
  {
    if proxies == [] then Ok([])
    else
      match BrowsersOf(proxies[0].slots)
      case Err(f) => Err(f)
      case Ok(browsers) =>
        match NodesInfo(proxies[1..])
        case Err(f) =>
          assert exists i | 1 <= i < |proxies| :: BrowsersOf(proxies[i].slots).Err? by {
            var j :| 0 <= j < |proxies[1..]| && BrowsersOf(proxies[1..][j].slots).Err?;
            assert proxies[j + 1] == proxies[1..][j];
          }
          Err(f)
        case Ok(rest) => Ok([NodeInfo(proxies[0].id, browsers)] + rest)
  }

  const Special: set<string> := {"success", "msg", "newSessionRequestCount", "slotCounts", "nodes"}

  /** The configuration entries the answer selects. */
  function SelectedConfig(config: map<string, string>, keys: Option<seq<string>>): (r: map<string, Out>)
    ensures forall k :: k in r <==> k in config && IsKeyPresentIn(keys, k)
    ensures forall k | k in r :: r[k] == OConfig(config[k])
  {
    map k | k in config && IsKeyPresentIn(keys, k) :: OConfig(config[k])
  }

  /** The answer after the names are known: "success" true, the selected configuration, the
      request count and slot counts when selected, and the node list only when "nodes" is named
      explicitly. A failure while listing the nodes keeps what was already put. */
  function Answer(keys: Option<seq<string>>, hub: Hub): (r: map<string, Out>)
    ensures "success" in r && (r["success"] == OBool(false) <==>
      keys.Some? && "nodes" in keys.value && NodesInfo(hub.proxies).Err?)
  {
    WithNodes(keys, hub, WithCounts(keys, hub, map["success" := OBool(true)] + SelectedConfig(hub.configuration, keys)))
  }

  /** The request count and the slot counts, each when selected, put over `m`. */
  function WithCounts(keys: Option<seq<string>>, hub: Hub, m: map<string, Out>): (r: map<string, Out>)
    ensures IsKeyPresentIn(keys, "newSessionRequestCount") ==>
      "newSessionRequestCount" in r && r["newSessionRequestCount"] == OInt(hub.newSessionRequestCount)
    ensures IsKeyPresentIn(keys, "slotCounts") ==>
      ("slotCounts" in r &&
       r["slotCounts"] == OSlotCounts(TotalSlots(hub.proxies) - UsedSlots(hub.proxies), TotalSlots(hub.proxies)))
    ensures forall k :: k in r <==>
      (k in m || (k in {"newSessionRequestCount", "slotCounts"} && IsKeyPresentIn(keys, k)))
    ensures forall k | k in m && k != "newSessionRequestCount" && k != "slotCounts" :: r[k] == m[k]
  {
    var withCount := if IsKeyPresentIn(keys, "newSessionRequestCount")
      then m["newSessionRequestCount" := OInt(hub.newSessionRequestCount)] else m;
    if IsKeyPresentIn(keys, "slotCounts")
    then withCount["slotCounts" := OSlotCounts(TotalSlots(hub.proxies) - UsedSlots(hub.proxies), TotalSlots(hub.proxies))]
    else withCount
  }

  /** The node list put over `m` when "nodes" is named, or the failure of listing it. */
  function WithNodes(keys: Option<seq<string>>, hub: Hub, m: map<string, Out>): (r: map<string, Out>)
    ensures !(keys.Some? && "nodes" in keys.value) ==> r == m
    ensures keys.Some? && "nodes" in keys.value && NodesInfo(hub.proxies).Ok? ==>
      "nodes" in r && r["nodes"] == ONodes(NodesInfo(hub.proxies).value)
    ensures keys.Some? && "nodes" in keys.value && NodesInfo(hub.proxies).Err? ==>
      "success" in r && r["success"] == OBool(false) &&
      "msg" in r && r["msg"] == OMessage(NodesInfo(hub.proxies).error)
    ensures forall k | k in m && k != "nodes" && k != "success" && k != "msg" :: k in r && r[k] == m[k]
  {
    if keys.Some? && "nodes" in keys.value then
      match NodesInfo(hub.proxies)
      case Ok(nodes) => m["nodes" := ONodes(nodes)]
      case Err(f) => m["success" := OBool(false)]["msg" := OMessage(f)]
    else m
  }

  /** The loop over the configuration entries: each selected entry is put into the answer. */
  method PutSelectedConfig(start: map<string, Out>, config: map<string, string>, keys: Option<seq<string>>)
    returns (res: map<string, Out>)
    ensures res == start + SelectedConfig(config, keys)
  {
    res := start;
    var remaining := config.Keys;
    while remaining != {}
      invariant remaining <= config.Keys
      invariant forall k :: k in res <==> k in start || (k in config && k !in remaining && IsKeyPresentIn(keys, k))
      invariant forall k | k in res ::
        res[k] == (if k in config && k !in remaining && IsKeyPresentIn(keys, k) then OConfig(config[k]) else start[k])
      decreases |remaining|
    {
      var k :| k in remaining;
      if IsKeyPresentIn(keys, k) {
        res := res[k := OConfig(config[k])];
      }
      remaining := remaining - {k};
    }
    AllEntriesPut(res, start, config, keys);
  }

  /** Once every entry has been visited the answer is the start with the selected entries over it. */
  lemma AllEntriesPut(res: map<string, Out>, start: map<string, Out>, config: map<string, string>,
                      keys: Option<seq<string>>)
    requires forall k :: k in res <==> k in start || (k in config && IsKeyPresentIn(keys, k))
    requires forall k | k in res ::
      res[k] == (if k in config && IsKeyPresentIn(keys, k) then OConfig(config[k]) else start[k])
    ensures res == start + SelectedConfig(config, keys)
  {
  }

  /** `getResponse`: walks the configuration entries putting the selected ones, then adds the
      computed entries; any failure turns "success" to false and adds "msg". */
  method GetResponse(param: Option<string>, body: Option<map<string, ConfigurationField>>, hub: Hub)
    returns (res: map<string, Out>)
    ensures KeysToReturn(param, body).Err? ==>
      res == map["success" := OBool(false), "msg" := OMessage(ClassCast)]
    ensures KeysToReturn(param, body).Ok? ==> res == Answer(KeysToReturn(param, body).value, hub)
  {
    res := map["success" := OBool(true)];
    var found := KeysToReturn(param, body);
    if found.Err? {
      RemoveThenPut(res, "success", OBool(false));
      res := res - {"success"};
      res := res["success" := OBool(false)]["msg" := OMessage(found.error)];
      assert map["success" := OBool(true)]["success" := OBool(false)] == map["success" := OBool(false)];
      return;
    }
    var keys := found.value;
    res := PutSelectedConfig(res, hub.configuration, keys);
    res := PutCounts(res, keys, hub);
    res := PutNodes(res, keys, hub);
  }

  /** The request count and the slot counts, each when selected. */
  method PutCounts(start: map<string, Out>, keys: Option<seq<string>>, hub: Hub) returns (res: map<string, Out>)
    ensures res == WithCounts(keys, hub, start)
  {
    res := start;
    if IsKeyPresentIn(keys, "newSessionRequestCount") {
      res := res["newSessionRequestCount" := OInt(hub.newSessionRequestCount)];
    }
    if IsKeyPresentIn(keys, "slotCounts") {
      var free, total := GetSlotCounts(hub.proxies);
      res := res["slotCounts" := OSlotCounts(free, total)];
    }
  }

  /** The node list when "nodes" is named; a failure to list turns "success" to false. */
  method PutNodes(start: map<string, Out>, keys: Option<seq<string>>, hub: Hub) returns (res: map<string, Out>)
    ensures res == WithNodes(keys, hub, start)
  {
    res := start;
    if keys.Some? && "nodes" in keys.value {
      var nodes := NodesInfo(hub.proxies);
      if nodes.Err? {
        RemoveThenPut(res, "success", OBool(false));
        res := res - {"success"};
        res := res["success" := OBool(false)]["msg" := OMessage(nodes.error)];
      } else {
        res := res["nodes" := ONodes(nodes.value)];
      }
    }
  }

  /** `remove` followed by `put` of the same key is the `put` alone. */
  lemma RemoveThenPut<V>(m: map<string, V>, k: string, v: V)
    ensures (m - {k})[k := v] == m[k := v]
  {
    assert (m - {k})[k := v].Keys == m[k := v].Keys;
  }

  /** The node list appears only when "nodes" is named explicitly: without names, or with an
      empty list, every configuration key and both counts are selected but the node list is not
      computed, so the answer cannot fail. */
  lemma NodesOnlyWhenNamed(keys: Option<seq<string>>, hub: Hub)
    requires keys.None? || "nodes" !in keys.value
    ensures "success" !in hub.configuration ==> Answer(keys, hub)["success"] == OBool(true)
    ensures "msg" !in hub.configuration ==> "msg" !in Answer(keys, hub)
    ensures "nodes" in Answer(keys, hub) ==> ("nodes" in hub.configuration &&
      Answer(keys, hub)["nodes"] == OConfig(hub.configuration["nodes"]))
  {
    var m := map["success" := OBool(true)] + SelectedConfig(hub.configuration, keys);
    assert Answer(keys, hub) == WithCounts(keys, hub, m);
  }

  /** Without a list every configuration entry is returned with both counts. */
  lemma EverythingByDefault(hub: Hub)
    ensures var a := Answer(None, hub);
      (forall k | k in hub.configuration && k !in Special :: k in a && a[k] == OConfig(hub.configuration[k])) &&
      a["newSessionRequestCount"] == OInt(hub.newSessionRequestCount) &&
      a["slotCounts"] == OSlotCounts(TotalSlots(hub.proxies) - UsedSlots(hub.proxies), TotalSlots(hub.proxies))
  {
  }

  /** Every selected configuration entry the computed entries do not overwrite is in the answer. */
  lemma SelectedConfigKept(keys: Option<seq<string>>, hub: Hub, k: string)
    requires k in hub.configuration && IsKeyPresentIn(keys, k) && k !in Special
    ensures k in Answer(keys, hub) && Answer(keys, hub)[k] == OConfig(hub.configuration[k])
  {
  }

  /** A node list failure reports success false with the failure, and keeps the entries put before. */
  lemma FailureKeepsEarlierEntries(keys: Option<seq<string>>, hub: Hub, k: string)
    requires keys.Some? && "nodes" in keys.value && NodesInfo(hub.proxies).Err?
    requires k in hub.configuration && IsKeyPresentIn(keys, k) && k !in Special
    ensures Answer(keys, hub)["success"] == OBool(false)
    ensures Answer(keys, hub)["msg"] == OMessage(NullPointer)
    ensures k in Answer(keys, hub) && Answer(keys, hub)[k] == OConfig(hub.configuration[k])
  {
  }
}
