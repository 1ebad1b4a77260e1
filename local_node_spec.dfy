/** The session-slot allocator of a grid Node (org.openqa.selenium.grid.node.local.LocalNode) as
    pure transitions over the Node's state. Each public operation of the Node is one atomic step;
    the class in module LocalNode performs these steps in place. */
module LocalNodeSpec {
  import opened Wrappers
  import opened Strings
  import opened Capabilities
  import GridData

  /** A session a slot's driver started; times are epoch milliseconds. */
  datatype ActiveSession = ActiveSession(id: string, uri: string, capabilities: Caps, startTime: int)

  /** A slot is free, reserved for a request being started, or running a session. */
  datatype SlotState = Available | Reserved | Running(session: ActiveSession)

  datatype HttpMethod = GET | POST | DELETE

  datatype HttpRequest = HttpRequest(verb: HttpMethod, uri: string)

  datatype HttpResponse = HttpResponse(status: int, body: string)

  /** What the Node asks of its slots and of the temporary filesystem cache, in order. */
  datatype Effect =
    | Apply(slot: nat)
    | Execute(slot: nat, req: HttpRequest)
    | StopSlot(slot: nat)
    | TempFsInvalidated(id: string)

  /** Events the Node fires on the event bus. */
  datatype NodeEvent = DrainStarted | DrainComplete

  datatype NodeError =
    | RetrySessionRequest(msg: string)
    | SlotFailure(cause: string)
    | NoSuchSession(msg: string)

  /** The answer of `SessionSlot.apply`: a started session or the driver's error. */
  datatype ApplyOutcome = Created(session: ActiveSession) | Failed(cause: string)

  /** What the Node knows about one of its slots, fixed at construction. */
  datatype SlotConfig = SlotConfig(
    id: string, stereotype: Caps, supportsCdp: bool, supportsBidi: bool, hasRelayFactory: bool)

  /** The Node's fixed settings. `test` stands for `SessionSlot.test` (does a slot with this
      stereotype accept these capabilities) and `merge` for `Capabilities.merge`. */
  datatype NodeConfig = NodeConfig(
    nodeId: string,
    externalUri: string,
    gridScheme: string,
    gridAuthority: string,
    maxSessionCount: nat,
    slots: seq<SlotConfig>,
    test: (Caps, Caps) -> bool,
    merge: (Caps, Caps) -> Caps,
    drainAfterSessions: bool,
    cdpEnabled: bool,
    bidiEnabled: bool,
    heartbeatSeconds: Option<int>,
    version: string,
    osInfo: map<string, string>)

  /** The mutable part of a Node: slot states, the session table (id to slot index), the drain
      counters, and the logs of fired events and effects. */
  datatype NodeState = NodeState(
    slots: seq<SlotState>,
    sessions: map<string, nat>,
    draining: bool,
    pending: int,
    remaining: int,
    events: seq<NodeEvent>,
    effects: seq<Effect>)

  /** The constructor's session limit: the configured count must be positive, and it is capped by
      the number of slots. */
  function EffectiveMaxSessions(configured: int, slotCount: nat): (r: Result<nat, string>)
    ensures r.Ok? <==> configured > 0
    ensures r.Ok? ==> r.value <= configured && r.value <= slotCount
    ensures r.Ok? ==> r.value == configured || r.value == slotCount
    ensures r.Err? ==> r.error == "Max session count"
  {
    if configured <= 0 then Err("Max session count")
    else if configured < slotCount then Ok(configured)
    else Ok(slotCount)
  }

  /** A Node as the constructor leaves it: all slots free, no sessions, not draining, and the
      drain-after counter set to the configured value. */
  function InitialState(cfg: NodeConfig, drainAfterSessionCount: int): (st: NodeState)
    ensures |st.slots| == |cfg.slots| && st.sessions == map[] && !st.draining
    ensures forall i | 0 <= i < |st.slots| :: st.slots[i] == Available
  {
    NodeState(seq(|cfg.slots|, _ => Available), map[], false, 0, drainAfterSessionCount, [], [])
  }

  predicate Busy(s: SlotState) { !s.Available? }

  /** Number of slots that are not available (`getUsedSlots`). */
  function CountBusy(s: seq<SlotState>): (n: nat)
    ensures n <= |s|
  {
    if s == [] then 0 else (if Busy(s[0]) then 1 else 0) + CountBusy(s[1..])
  }

  lemma {:induction false} CountBusyUpdate(s: seq<SlotState>, i: nat, v: SlotState)
    requires i < |s|
    ensures CountBusy(s[i := v]) + (if Busy(s[i]) then 1 else 0) ==
            CountBusy(s) + (if Busy(v) then 1 else 0)
  {
    if i == 0 {
      assert s[i := v][1..] == s[1..];
    } else {
      assert s[i := v][1..] == s[1..][i - 1 := v];
      CountBusyUpdate(s[1..], i - 1, v);
    }
  }

  lemma {:induction false} CountBusyAllAvailable(s: seq<SlotState>)
    requires forall i | 0 <= i < |s| :: s[i] == Available
    ensures CountBusy(s) == 0
  {
    if s != [] {
      CountBusyAllAvailable(s[1..]);
    }
  }

  /** The allocator's invariant between operations: no slot is left reserved, the session table
      and the running slots correspond one to one, and there are never more sessions than the
      limit. */
  predicate Valid(cfg: NodeConfig, st: NodeState)
  {
    |st.slots| == |cfg.slots| &&
    (forall i | 0 <= i < |st.slots| :: !st.slots[i].Reserved?) &&
    (forall id | id in st.sessions ::
       st.sessions[id] < |st.slots| && st.slots[st.sessions[id]].Running? &&
       st.slots[st.sessions[id]].session.id == id) &&
    (forall i | 0 <= i < |st.slots| && st.slots[i].Running? ::
       st.slots[i].session.id in st.sessions && st.sessions[st.slots[i].session.id] == i) &&
    |st.sessions| == CountBusy(st.slots) &&
    |st.sessions| <= cfg.maxSessionCount
  }

  lemma InitialStateValid(cfg: NodeConfig, drainAfterSessionCount: int)
    ensures Valid(cfg, InitialState(cfg, drainAfterSessionCount))
  {
    CountBusyAllAvailable(InitialState(cfg, drainAfterSessionCount).slots);
  }

  /** The reservation test of the scan: the slot is available and accepts the capabilities. */
  predicate Fits(cfg: NodeConfig, slots: seq<SlotState>, desired: Caps, i: nat)
    requires i < |slots| == |cfg.slots|
  {
    slots[i].Available? && cfg.test(cfg.slots[i].stereotype, desired)
  }

  /** The first slot at or after `k`, in list order, that fits. */
  function FirstFitFrom(cfg: NodeConfig, slots: seq<SlotState>, desired: Caps, k: nat): (r: Option<nat>)
    requires |slots| == |cfg.slots| && k <= |slots|
    ensures r.Some? ==> k <= r.value < |slots| && Fits(cfg, slots, desired, r.value)
    ensures r.Some? ==> forall j | k <= j < r.value :: !Fits(cfg, slots, desired, j)
    ensures r.None? ==> forall j | k <= j < |slots| :: !Fits(cfg, slots, desired, j)
    decreases |slots| - k
  {
    if k == |slots| then None
    else if Fits(cfg, slots, desired, k) then Some(k)
    else FirstFitFrom(cfg, slots, desired, k + 1)
  }

  function FirstFit(cfg: NodeConfig, slots: seq<SlotState>, desired: Caps): (r: Option<nat>)
    requires |slots| == |cfg.slots|
    ensures r.Some? ==>
      (r.value < |slots| && Fits(cfg, slots, desired, r.value) &&
       forall j | 0 <= j < r.value :: !Fits(cfg, slots, desired, j))
    ensures r.None? ==> forall j | 0 <= j < |slots| :: !Fits(cfg, slots, desired, j)
  {
    FirstFitFrom(cfg, slots, desired, 0)
  }

  /** Any index with the first-fit property is the one `FirstFit` finds. */
  lemma FirstFitUnique(cfg: NodeConfig, slots: seq<SlotState>, desired: Caps, r: Option<nat>)
    requires |slots| == |cfg.slots|
    requires r.Some? ==> r.value < |slots| && Fits(cfg, slots, desired, r.value) &&
                         forall j | 0 <= j < r.value :: !Fits(cfg, slots, desired, j)
    requires r.None? ==> forall j | 0 <= j < |slots| :: !Fits(cfg, slots, desired, j)
    ensures r == FirstFit(cfg, slots, desired)
  {
  }

  /** No busy slot is left when the busy count is zero. */
  lemma {:induction false} CountBusyZero(s: seq<SlotState>)
    requires CountBusy(s) == 0
    ensures forall i | 0 <= i < |s| :: s[i] == Available
  {
    if s != [] {
      CountBusyZero(s[1..]);
      forall i | 0 <= i < |s|
        ensures s[i] == Available
      {
        if i > 0 {
          assert s[i] == s[1..][i - 1];
        }
      }
    }
  }

  /** The cache's removal listener for session `id` held by slot `i`: a DELETE is sent only when
      the entry was evicted, the slot is stopped and the temporary filesystem invalidated every
      time, and while draining the pending count goes down, firing drain-complete at zero or below. */
  function Released(st: NodeState, id: string, i: nat, evicted: bool): (r: NodeState)
    requires i < |st.slots|
    ensures r.slots == st.slots[i := Available] && r.sessions == st.sessions
    ensures r.draining == st.draining && r.remaining == st.remaining
    ensures r.effects == st.effects + ReleaseEffects(id, i, evicted)
    ensures r.pending == (if st.draining then st.pending - 1 else st.pending)
    ensures r.events == st.events || (r.events == st.events + [DrainComplete] && st.draining && r.pending <= 0)
    ensures st.draining && r.pending <= 0 ==> r.events == st.events + [DrainComplete]
  {
    var effects := st.effects + ReleaseEffects(id, i, evicted);
    var freed := st.(slots := st.slots[i := Available], effects := effects);
    if st.draining then
      var p := st.pending - 1;
      freed.(pending := p, events := st.events + (if p <= 0 then [DrainComplete] else []))
    else freed
  }

  /** What the removal listener asks for: the DELETE when evicted, then the slot's stop and the
      invalidation of the session's temporary filesystem. */
  function ReleaseEffects(id: string, i: nat, evicted: bool): (r: seq<Effect>)
    ensures Execute(i, HttpRequest(DELETE, "/session/" + id)) in r <==> evicted
    ensures StopSlot(i) in r && TempFsInvalidated(id) in r
    ensures !evicted ==> forall e | e in r :: !e.Execute?
  {
    var sent := if evicted then [Execute(i, HttpRequest(DELETE, "/session/" + id))] else [];
    assert (sent + [StopSlot(i), TempFsInvalidated(id)])[|sent|] == StopSlot(i);
    sent + [StopSlot(i), TempFsInvalidated(id)]
  }

  /** Removing a session from the table, then running the removal listener. */
  function RemoveSession(st: NodeState, id: string, evicted: bool): (r: NodeState)
    requires id in st.sessions && st.sessions[id] < |st.slots|
    ensures r.sessions == st.sessions - {id}
    ensures r.slots == st.slots[st.sessions[id] := Available]
    ensures r.effects == st.effects + ReleaseEffects(id, st.sessions[id], evicted)
  {
    Released(st.(sessions := st.sessions - {id}), id, st.sessions[id], evicted)
  }

  /** One removal without eviction keeps the drain flag and the drain-after-N count; while
      draining it takes one off the pending count and fires drain-complete when that reaches 0. */
  lemma RemoveSessionCounters(st: NodeState, id: string)
    requires id in st.sessions && st.sessions[id] < |st.slots|
    ensures var r := RemoveSession(st, id, false);
      r.draining == st.draining && r.remaining == st.remaining &&
      r.pending == (if st.draining then st.pending - 1 else st.pending) &&
      r.events == st.events + (if st.draining && st.pending - 1 <= 0 then [DrainComplete] else [])
  {
  }

  /** What the removal listener asks for when the sessions `ids` are removed one after another,
      none of them evicted, `sessions` giving each one's slot. */
  function StopEffects(ids: seq<string>, sessions: map<string, nat>): (r: seq<Effect>)
    requires forall id | id in ids :: id in sessions
    ensures forall e | e in r :: !e.Execute?
  {
    if ids == [] then []
    else
      var last := ids[|ids| - 1];
      StopEffects(ids[..|ids| - 1], sessions) + ReleaseEffects(last, sessions[last], false)
  }

  /** Every removed session had its slot stopped and its temporary filesystem invalidated. */
  lemma {:induction false} StopEffectsCover(ids: seq<string>, sessions: map<string, nat>)
    requires forall id | id in ids :: id in sessions
    ensures forall id | id in ids ::
      StopSlot(sessions[id]) in StopEffects(ids, sessions) && TempFsInvalidated(id) in StopEffects(ids, sessions)
  {
    if ids != [] {
      var last := ids[|ids| - 1];
      var front := ids[..|ids| - 1];
      StopEffectsCover(front, sessions);
      assert forall id | id in ids :: id == last || id in front;
    }
  }

  /** The drain-complete events fired while `n` sessions are removed from a draining Node whose
      pending count was `pending`: one for every removal that takes the count to 0 or below. */
  function Completions(pending: int, n: nat): (r: seq<NodeEvent>)
    ensures forall e | e in r :: e == DrainComplete
    ensures |r| == if pending <= 0 then n else if n >= pending then n - pending + 1 else 0
  {
    if n == 0 then []
    else Completions(pending, n - 1) + (if pending - n <= 0 then [DrainComplete] else [])
  }

  /** Where `invalidateAll` stands after removing the sessions `order` of `start`, one by one and
      without eviction. */
  ghost predicate StopProgress(start: NodeState, st: NodeState, order: seq<string>, removed: set<string>)
  {
    StopTable(start, st, order, removed) && StopLogs(start, st, order)
  }

  /** The table lost exactly the sessions removed so far, in the order `order`. */
  ghost predicate StopTable(start: NodeState, st: NodeState, order: seq<string>, removed: set<string>)
  {
    |st.slots| == |start.slots| &&
    removed <= start.sessions.Keys && st.sessions == start.sessions - removed &&
    |order| == |removed| && (forall id :: id in order <==> id in removed)
  }

  /** The removal listener ran once for each of `order`, in that order. */
  ghost predicate StopLogs(start: NodeState, st: NodeState, order: seq<string>)
  {
    (forall id | id in order :: id in start.sessions) &&
    st.effects == start.effects + StopEffects(order, start.sessions) &&
    st.draining == start.draining && st.remaining == start.remaining &&
    st.pending == (if start.draining then start.pending - |order| else start.pending) &&
    st.events == start.events + (if start.draining then Completions(start.pending, |order|) else [])
  }

  /** Before the first removal nothing has happened. */
  lemma StopStart(start: NodeState)
    ensures StopProgress(start, start, [], {})
  {
    assert start.sessions - {} == start.sessions;
    assert start.events + [] == start.events && start.effects + [] == start.effects;
  }

  /** Removing one more session, `id`, keeps `StopProgress`; `r` is the state after the removal
      listener ran, as `RemoveSession` and `RemoveSessionCounters` describe it. */
  lemma StopStep(start: NodeState, st: NodeState, r: NodeState, order: seq<string>, removed: set<string>, id: string)
    requires StopProgress(start, st, order, removed)
    requires id in st.sessions
    requires r.sessions == st.sessions - {id} && |r.slots| == |st.slots|
    requires r.effects == st.effects + ReleaseEffects(id, st.sessions[id], false)
    requires r.draining == st.draining && r.remaining == st.remaining
    requires r.pending == (if st.draining then st.pending - 1 else st.pending)
    requires r.events == st.events + (if st.draining && st.pending - 1 <= 0 then [DrainComplete] else [])
    ensures StopProgress(start, r, order + [id], removed + {id})
  {
    assert id in start.sessions && id !in removed;
    StopTableStep(start, st, r, order, removed, id);
    StopLogsStep(start, st, r, order, id);
  }

  lemma StopTableStep(start: NodeState, st: NodeState, r: NodeState, order: seq<string>, removed: set<string>, id: string)
    requires StopTable(start, st, order, removed)
    requires id in st.sessions
    requires r.sessions == st.sessions - {id} && |r.slots| == |st.slots|
    ensures StopTable(start, r, order + [id], removed + {id})
  {
    OrderStep(order, removed, id);
    assert r.sessions == start.sessions - (removed + {id});
  }

  lemma StopLogsStep(start: NodeState, st: NodeState, r: NodeState, order: seq<string>, id: string)
    requires StopLogs(start, st, order)
    requires id in start.sessions
    requires r.effects == st.effects + ReleaseEffects(id, start.sessions[id], false)
    requires r.draining == st.draining && r.remaining == st.remaining
    requires r.pending == (if st.draining then st.pending - 1 else st.pending)
    requires r.events == st.events + (if st.draining && st.pending - 1 <= 0 then [DrainComplete] else [])
    ensures StopLogs(start, r, order + [id])
  {
    StopEffectsSnoc(order, start.sessions, id);
    Associate(start.effects, StopEffects(order, start.sessions), ReleaseEffects(id, start.sessions[id], false));
    CompletionsStep(start.events, start.pending, |order|);
  }

  lemma Associate<T>(a: seq<T>, b: seq<T>, c: seq<T>)
    ensures (a + b) + c == a + (b + c)
  {
  }

  /** The removal order and the removed set grow together. */
  lemma OrderStep(order: seq<string>, removed: set<string>, id: string)
    requires |order| == |removed| && (forall x :: x in order <==> x in removed) && id !in removed
    ensures |order + [id]| == |removed + {id}| && forall x :: x in order + [id] <==> x in removed + {id}
  {
  }

  lemma StopEffectsSnoc(order: seq<string>, sessions: map<string, nat>, id: string)
    requires forall x | x in order :: x in sessions
    requires id in sessions
    ensures StopEffects(order + [id], sessions) == StopEffects(order, sessions) + ReleaseEffects(id, sessions[id], false)
  {
    assert (order + [id])[..|order|] == order;
  }

  /** One more removal while draining appends drain-complete exactly when the count reaches 0. */
  lemma CompletionsStep(events: seq<NodeEvent>, pending: int, n: nat)
    ensures events + Completions(pending, n) + (if pending - n - 1 <= 0 then [DrainComplete] else []) ==
            events + Completions(pending, n + 1)
  {
  }

  /** The state `invalidateAll` leaves when it removes the sessions of `st` in the order `order`:
      every slot free, no session, the removal listener's effects for each session in that order,
      and, while draining, the pending countdown and the drain-complete events it fires. */
  function StoppedAll(st: NodeState, order: seq<string>): (r: NodeState)
    requires forall id | id in order :: id in st.sessions
    ensures r.sessions == map[] && |r.slots| == |st.slots|
    ensures forall i | 0 <= i < |r.slots| :: r.slots[i] == Available
    ensures r.draining == st.draining && r.remaining == st.remaining
  {
    st.(slots := seq(|st.slots|, _ => Available),
        sessions := map[],
        effects := st.effects + StopEffects(order, st.sessions),
        pending := if st.draining then st.pending - |st.sessions| else st.pending,
        events := st.events + if st.draining then Completions(st.pending, |st.sessions|) else [])
  }

  /** Stopping every session keeps the invariant. */
  lemma StoppedAllValid(cfg: NodeConfig, st: NodeState, order: seq<string>)
    requires Valid(cfg, st)
    requires forall id | id in order :: id in st.sessions
    ensures Valid(cfg, StoppedAll(st, order))
  {
    CountBusyAllAvailable(StoppedAll(st, order).slots);
  }

  /** Once the table is empty, every session of `start` was removed, each exactly once, and the
      state is the one `StoppedAll` describes. */
  lemma StopDone(cfg: NodeConfig, start: NodeState, st: NodeState, order: seq<string>, removed: set<string>)
    requires Valid(cfg, st) && StopProgress(start, st, order, removed) && st.sessions == map[]
    ensures |order| == |start.sessions| && forall id :: id in order <==> id in start.sessions
    ensures st == StoppedAll(start, order)
  {
    assert start.sessions.Keys - removed == st.sessions.Keys == {};
    forall x | x in start.sessions.Keys
      ensures x in removed
    {
      assert x !in start.sessions.Keys - removed;
    }
    assert removed == start.sessions.Keys;
    CountBusyZero(st.slots);
    assert st.slots == seq(|start.slots|, _ => Available);
  }

  /** When the pending count equals the number of sessions removed, as `drain()` leaves it, the
      countdown fires drain-complete exactly once, on the last removal. */
  lemma {:induction false} CompletionsOnce(n: nat)
    requires n > 0
    ensures Completions(n, n) == [DrainComplete]
    ensures Completions(n, n - 1) == []
  {
    var r := Completions(n, n);
    assert |r| == 1 && r[0] in r;
  }

  /** `drain()`: announces the drain, stops admissions, and either completes at once when no
      session runs or waits for the running ones. */
  function Drain(st: NodeState): (r: NodeState)
    ensures r.draining && r.slots == st.slots && r.sessions == st.sessions && r.effects == st.effects
    ensures r.remaining == st.remaining
    ensures |st.sessions| == 0 ==> r.events == st.events + [DrainStarted, DrainComplete] && r.pending == st.pending
    ensures |st.sessions| > 0 ==> r.events == st.events + [DrainStarted] && r.pending == |st.sessions|
  {
    var started := st.(events := st.events + [DrainStarted], draining := true);
    if |st.sessions| == 0 then started.(events := started.events + [DrainComplete])
    else started.(pending := |st.sessions|)
  }

  /** `checkSessionCount()`: with drain-after-N configured, counts the new session down and
      drains the Node when the count reaches zero or below. */
  function CheckSessionCount(cfg: NodeConfig, st: NodeState): (r: NodeState)
    ensures r.slots == st.slots && r.sessions == st.sessions && r.effects == st.effects
    ensures !cfg.drainAfterSessions ==> r == st
    ensures cfg.drainAfterSessions ==> r.remaining == st.remaining - 1
    ensures cfg.drainAfterSessions && st.remaining - 1 <= 0 ==> r.draining && DrainStarted in r.events
    ensures cfg.drainAfterSessions && st.remaining - 1 > 0 ==> r.draining == st.draining && r.events == st.events
  {
    if cfg.drainAfterSessions then
      var counted := st.(remaining := st.remaining - 1);
      if counted.remaining <= 0 then Drain(counted) else counted
    else st
  }

  /** `currentSessions.put(id, slot i)`: an entry already held under the same id is replaced,
      and the replaced slot goes through the removal listener as an explicit removal: it is freed,
      stopped without a DELETE, and counted down while draining. */
  function Put(st: NodeState, id: string, i: nat): (r: NodeState)
    requires id in st.sessions ==> st.sessions[id] < |st.slots|
    ensures r.sessions == st.sessions[id := i]
    ensures id !in st.sessions ==> r == st.(sessions := st.sessions[id := i])
    ensures id in st.sessions ==> r.slots == st.slots[st.sessions[id] := Available]
    ensures id in st.sessions ==> r.effects == st.effects + ReleaseEffects(id, st.sessions[id], false)
    ensures id in st.sessions ==> r.draining == st.draining && r.remaining == st.remaining
    ensures id in st.sessions ==> r.pending == (if st.draining then st.pending - 1 else st.pending)
  {
    var stored := st.(sessions := st.sessions[id := i]);
    if id in st.sessions then Released(stored, id, st.sessions[id], false) else stored
  }

  /** The URI the Node hands out for a session endpoint: the grid's authority, ws or wss. */
  function Rewrite(cfg: NodeConfig, path: string): Value
  {
    VUri(if cfg.gridScheme == "https" then "wss" else "ws", cfg.gridAuthority, path)
  }

  function WithCdp(cfg: NodeConfig, id: string, supportsCdp: bool, caps: Caps): Caps
  {
    if (supportsCdp || "se:cdp" in caps) && cfg.cdpEnabled then
      caps["se:cdp" := Rewrite(cfg, "/session/" + id + "/se/cdp")]
    else WithoutPrefix(caps, "se:cdp")["se:cdpEnabled" := VBool(false)]
  }

  function WithBidi(cfg: NodeConfig, id: string, supportsBidi: bool, caps: Caps): Caps
  {
    if (supportsBidi || "se:bidi" in caps) && cfg.bidiEnabled then
      caps["se:bidi" := Rewrite(cfg, "/session/" + id + "/se/bidi")]
    else WithoutPrefix(caps, "se:bidi")["se:bidiEnabled" := VBool(false)]
  }

  function WithVnc(cfg: NodeConfig, id: string, caps: Caps): (r: Caps)
    ensures "se:vncLocalAddress" in caps ==> "se:vnc" in r && r["se:vnc"] == Rewrite(cfg, "/session/" + id + "/se/vnc")
    ensures "se:vncLocalAddress" !in caps ==> r == caps
    ensures forall k | k in caps && k != "se:vnc" :: k in r && r[k] == caps[k]
  {
    if "se:vncLocalAddress" in caps then caps["se:vnc" := Rewrite(cfg, "/session/" + id + "/se/vnc")]
    else caps
  }

  /** The capabilities `createExternalSession` reports: request and session capabilities merged,
      then the CDP, BiDi and VNC endpoints added or filtered out. */
  function ExternalCapabilities(cfg: NodeConfig, id: string, supportsCdp: bool, supportsBidi: bool,
                                request: Caps, sessionCaps: Caps): Caps
  {
    var merged := cfg.merge(request, sessionCaps);
    WithVnc(cfg, id, WithBidi(cfg, id, supportsBidi, WithCdp(cfg, id, supportsCdp, merged)))
  }

  /** A name that differs from `prefix` at position `j` does not start with it. */
  lemma DiffersAt(k: string, prefix: string, j: nat)
    requires j < |prefix| && (j >= |k| || k[j] != prefix[j])
    ensures !StartsWith(k, prefix)
  {
  }

  lemma NotCdpKey(k: string)
    requires StartsWith(k, "se:bidi") || k == "se:vnc"
    ensures !StartsWith(k, "se:cdp")
  {
    if StartsWith(k, "se:bidi") {
      assert k[..7][3] == 'b';
    }
    DiffersAt(k, "se:cdp", 3);
  }

  /** The BiDi and VNC steps leave every "se:cdp…" entry and every entry outside "se:" alone. */
  lemma LaterStepsKeepCdp(cfg: NodeConfig, id: string, supportsBidi: bool, caps: Caps)
    ensures var r := WithVnc(cfg, id, WithBidi(cfg, id, supportsBidi, caps));
      forall k | StartsWith(k, "se:cdp") || !StartsWith(k, "se:") ::
        (k in r <==> k in caps) && (k in caps ==> r[k] == caps[k])
  {
    var c2 := WithBidi(cfg, id, supportsBidi, caps);
    var r := WithVnc(cfg, id, c2);
    forall k | StartsWith(k, "se:cdp") || !StartsWith(k, "se:")
      ensures (k in r <==> k in caps) && (k in caps ==> r[k] == caps[k])
    {
      if StartsWith(k, "se:cdp") {
        if StartsWith(k, "se:bidi") || k == "se:vnc" {
          NotCdpKey(k);
        }
        DiffersAt("se:bidiEnabled", "se:cdp", 3);
        DiffersAt("se:bidi", "se:cdp", 3);
      } else {
        assert !StartsWith(k, "se:bidi");
      }
      assert k != "se:bidi" && k != "se:bidiEnabled" && k != "se:vnc";
    }
  }

  /** The CDP step on its own: the endpoint is added exactly when CDP is enabled and either
      supported by the slot or already named; otherwise "se:cdp…" entries are dropped and
      "se:cdpEnabled" is false. */
  /** The BiDi step, like the CDP one: the endpoint is advertised exactly when BiDi is enabled and
      supported or already named; otherwise every "se:bidi…" entry goes and "se:bidiEnabled" is
      false. Capabilities outside the "se:" namespace pass through. */
  lemma BidiStep(cfg: NodeConfig, id: string, supportsBidi: bool, caps: Caps)
    ensures var r := WithBidi(cfg, id, supportsBidi, caps);
      var advertised := (supportsBidi || "se:bidi" in caps) && cfg.bidiEnabled;
      ("se:bidi" in r <==> advertised) &&
      (advertised ==> r["se:bidi"] == Rewrite(cfg, "/session/" + id + "/se/bidi")) &&
      (!advertised ==> "se:bidiEnabled" in r && r["se:bidiEnabled"] == VBool(false) &&
                       forall k | k in r && StartsWith(k, "se:bidi") :: k == "se:bidiEnabled") &&
      (forall k | k in caps && !StartsWith(k, "se:") :: k in r && r[k] == caps[k])
  {
    assert StartsWith("se:bidi", "se:bidi");
  }

  lemma CdpStep(cfg: NodeConfig, id: string, supportsCdp: bool, caps: Caps)
    ensures var r := WithCdp(cfg, id, supportsCdp, caps);
      var advertised := (supportsCdp || "se:cdp" in caps) && cfg.cdpEnabled;
      ("se:cdp" in r <==> advertised) &&
      (advertised ==> r["se:cdp"] == Rewrite(cfg, "/session/" + id + "/se/cdp")) &&
      (!advertised ==> "se:cdpEnabled" in r && r["se:cdpEnabled"] == VBool(false) &&
                       forall k | k in r && StartsWith(k, "se:cdp") :: k == "se:cdpEnabled") &&
      (forall k | k in caps && !StartsWith(k, "se:") :: k in r && r[k] == caps[k])
  {
    assert StartsWith("se:cdp", "se:cdp");
  }

  /** The CDP endpoint is advertised exactly when CDP is enabled on the Node and either the slot
      supports it or the merged capabilities already name one; otherwise every "se:cdp…" entry
      is dropped and "se:cdpEnabled" is false. Capabilities outside the "se:" namespace pass
      through unchanged. */
  lemma ExternalCapabilitiesCdp(cfg: NodeConfig, id: string, supportsCdp: bool, supportsBidi: bool,
                                request: Caps, sessionCaps: Caps)
    ensures var merged := cfg.merge(request, sessionCaps);
      var r := ExternalCapabilities(cfg, id, supportsCdp, supportsBidi, request, sessionCaps);
      var advertised := (supportsCdp || "se:cdp" in merged) && cfg.cdpEnabled;
      ("se:cdp" in r <==> advertised) &&
      (advertised ==> r["se:cdp"] == Rewrite(cfg, "/session/" + id + "/se/cdp")) &&
      (!advertised ==> "se:cdpEnabled" in r && r["se:cdpEnabled"] == VBool(false) &&
                       forall k | k in r && StartsWith(k, "se:cdp") :: k == "se:cdpEnabled") &&
      (forall k | k in merged && !StartsWith(k, "se:") :: k in r && r[k] == merged[k])
  {
    var merged := cfg.merge(request, sessionCaps);
    var c1 := WithCdp(cfg, id, supportsCdp, merged);
    CdpStep(cfg, id, supportsCdp, merged);
    LaterStepsKeepCdp(cfg, id, supportsBidi, c1);
    assert StartsWith("se:cdp", "se:cdp");
    assert StartsWith("se:cdpEnabled", "se:cdp");
  }

  /** The session a client is given: the Node's own URI, the slot's stereotype and the filtered
      capabilities. */
  function ExternalSession(cfg: NodeConfig, i: nat, s: ActiveSession, request: Caps, now: int): (r: GridData.Session)
    requires i < |cfg.slots|
    ensures r.id == s.id && r.uri == cfg.externalUri && r.stereotype == cfg.slots[i].stereotype
  {
    GridData.Session(s.id, cfg.externalUri, cfg.slots[i].stereotype,
      ExternalCapabilities(cfg, s.id, cfg.slots[i].supportsCdp, cfg.slots[i].supportsBidi, request, s.capabilities),
      now)
  }

  const MaxReached := "Max session count reached."
  const DrainingRefusal := "The node is draining. Cannot accept new sessions."
  const NoSlotMatched := "No slot matched the requested capabilities."

  /** `newSession`: the capacity check, then the draining check, then the first-fit reservation,
      then the slot's answer; a failed start releases the reservation and passes the slot's error
      on unchanged. */
  function NewSession(cfg: NodeConfig, st: NodeState, desired: Caps, outcome: ApplyOutcome, now: int)
    : (r: (NodeState, Result<GridData.Session, NodeError>))
    requires Valid(cfg, st)
    ensures |st.sessions| >= cfg.maxSessionCount ==> r == (st, Err(RetrySessionRequest(MaxReached)))
    ensures |st.sessions| < cfg.maxSessionCount && st.draining ==>
      r == (st, Err(RetrySessionRequest(DrainingRefusal)))
    ensures r.1.Err? && r.1.error.RetrySessionRequest? ==> r.0 == st
    ensures r.1.Err? ==> r.0.slots == st.slots && r.0.sessions == st.sessions
    ensures outcome.Failed? && r.1.Err? ==>
      r.1.error == SlotFailure(outcome.cause) || r.1.error.RetrySessionRequest?
    ensures |r.0.slots| == |st.slots|
    ensures r.1.Ok? ==>
      (outcome.Created? && r.1.value.id == outcome.session.id && outcome.session.id in r.0.sessions &&
       var i := r.0.sessions[outcome.session.id];
       i < |st.slots| && FirstFit(cfg, st.slots, desired) == Some(i) && r.0.slots[i] == Running(outcome.session))
  {
    if |st.sessions| >= cfg.maxSessionCount then (st, Err(RetrySessionRequest(MaxReached)))
    else if st.draining then (st, Err(RetrySessionRequest(DrainingRefusal)))
    else match FirstFit(cfg, st.slots, desired)
      case None => (st, Err(RetrySessionRequest(NoSlotMatched)))
      case Some(i) => Attempt(cfg, st, i, desired, outcome, now)
  }

  /** The part of `newSession` after slot `i` was chosen: the slot is reserved and asked to
      start the session; a failure releases it, a success records the session and counts it
      towards drain-after-N. */
  function Attempt(cfg: NodeConfig, st: NodeState, i: nat, desired: Caps, outcome: ApplyOutcome, now: int)
    : (r: (NodeState, Result<GridData.Session, NodeError>))
    requires Valid(cfg, st) && i < |st.slots| && st.slots[i].Available?
    ensures |r.0.slots| == |st.slots|
    ensures outcome.Failed? ==> r == (st.(effects := st.effects + [Apply(i)]), Err(SlotFailure(outcome.cause)))
    ensures outcome.Created? ==>
      (r.1 == Ok(ExternalSession(cfg, i, outcome.session, desired, now)) &&
       r.0.slots[i] == Running(outcome.session) &&
       outcome.session.id in r.0.sessions && r.0.sessions[outcome.session.id] == i)
  {
    var applied := st.(effects := st.effects + [Apply(i)]);
    match outcome
    case Failed(cause) => (applied, Err(SlotFailure(cause)))
    case Created(s) =>
      var started := applied.(slots := applied.slots[i := Running(s)]);
      var stored := Put(started, s.id, i);
      assert stored.slots[i] == Running(s) by {
        if s.id in started.sessions {
          var j := started.sessions[s.id];
          assert st.slots[j].Running?;
        }
      }
      (CheckSessionCount(cfg, stored), Ok(ExternalSession(cfg, i, s, desired, now)))
  }

  /** On success the reserved slot is the only one that changes, unless the new session id was
      already in use, in which case the slot holding it is also released. */
  lemma NewSessionChangesOneSlot(cfg: NodeConfig, st: NodeState, desired: Caps, outcome: ApplyOutcome, now: int)
    requires Valid(cfg, st)
    requires outcome.Created? && outcome.session.id !in st.sessions
    ensures var r := NewSession(cfg, st, desired, outcome, now);
      r.1.Ok? ==>
        exists i | 0 <= i < |st.slots| ::
          st.slots[i] == Available && r.0.slots == st.slots[i := Running(outcome.session)] &&
          r.0.sessions == st.sessions[outcome.session.id := i]
  {
  }

  lemma {:induction false} MapRemoveCard<K, V>(m: map<K, V>, k: K)
    requires k in m
    ensures |m - {k}| == |m| - 1
  {
    assert (m - {k}).Keys == m.Keys - {k};
    assert m.Keys == (m - {k}).Keys + {k};
  }

  lemma {:induction false} MapAddCard<K, V>(m: map<K, V>, k: K, v: V)
    requires k !in m
    ensures |m[k := v]| == |m| + 1
  {
    assert m[k := v].Keys == m.Keys + {k};
  }

  /** The removal listener on a valid state minus the removed entry gives back a valid state. */
  lemma RemoveSessionValid(cfg: NodeConfig, st: NodeState, id: string, evicted: bool)
    requires Valid(cfg, st) && id in st.sessions
    ensures Valid(cfg, RemoveSession(st, id, evicted))
  {
    var i := st.sessions[id];
    var r := RemoveSession(st, id, evicted);
    CountBusyUpdate(st.slots, i, Available);
    MapRemoveCard(st.sessions, id);
    forall j | 0 <= j < |r.slots| && r.slots[j].Running?
      ensures r.slots[j].session.id in r.sessions && r.sessions[r.slots[j].session.id] == j
    {
      assert j != i;
      assert st.slots[j].session.id != id;
    }
  }

  lemma DrainValid(cfg: NodeConfig, st: NodeState)
    requires Valid(cfg, st)
    ensures Valid(cfg, Drain(st))
  {
  }

  lemma CheckSessionCountValid(cfg: NodeConfig, st: NodeState)
    requires Valid(cfg, st)
    ensures Valid(cfg, CheckSessionCount(cfg, st))
  {
  }

  /** Recording a new session under an id not yet in use keeps the invariant. */
  lemma StoreFreshValid(cfg: NodeConfig, st: NodeState, i: nat, s: ActiveSession)
    requires Valid(cfg, st) && i < |st.slots| && st.slots[i] == Available
    requires |st.sessions| < cfg.maxSessionCount && s.id !in st.sessions
    ensures Valid(cfg, Put(st.(slots := st.slots[i := Running(s)]), s.id, i))
  {
    var started := st.(slots := st.slots[i := Running(s)]);
    var stored := Put(started, s.id, i);
    CountBusyUpdate(st.slots, i, Running(s));
    MapAddCard(st.sessions, s.id, i);
    forall k | 0 <= k < |stored.slots| && stored.slots[k].Running?
      ensures stored.slots[k].session.id in stored.sessions && stored.sessions[stored.slots[k].session.id] == k
    {
      if k != i {
        assert st.slots[k].session.id in st.sessions;
      }
    }
    forall id | id in stored.sessions
      ensures stored.sessions[id] < |stored.slots| && stored.slots[stored.sessions[id]].Running? &&
              stored.slots[stored.sessions[id]].session.id == id
    {
      if id != s.id {
        assert st.sessions[id] != i;
      }
    }
  }

  /** Recording a new session under an id already in use releases the slot that held it and
      keeps the invariant. */
  lemma StoreReplacingValid(cfg: NodeConfig, st: NodeState, i: nat, s: ActiveSession)
    requires Valid(cfg, st) && i < |st.slots| && st.slots[i] == Available
    requires s.id in st.sessions
    ensures Valid(cfg, Put(st.(slots := st.slots[i := Running(s)]), s.id, i))
  {
    var j := st.sessions[s.id];
    var stored := Put(st.(slots := st.slots[i := Running(s)]), s.id, i);
    var moved := st.(slots := st.slots[i := Running(s)][j := Available], sessions := st.sessions[s.id := i]);
    assert stored.slots == moved.slots;
    assert stored.sessions == moved.sessions;
    ReplacingCounts(cfg, st, i, j, s);
    ReplacingLinks(cfg, st, i, j, s);
    assert forall k | 0 <= k < |moved.slots| :: !moved.slots[k].Reserved? by {
      forall k | 0 <= k < |moved.slots| ensures !moved.slots[k].Reserved? {
        if k != i && k != j {
          assert moved.slots[k] == st.slots[k];
        }
      }
    }
    assert Valid(cfg, moved);
    ValidIgnoresLogs(cfg, moved, stored);
  }

  /** Moving session `s.id` from slot `j` to the free slot `i` keeps the busy count equal to the
      table size, which does not change. */
  lemma ReplacingCounts(cfg: NodeConfig, st: NodeState, i: nat, j: nat, s: ActiveSession)
    requires Valid(cfg, st) && i < |st.slots| && st.slots[i] == Available
    requires s.id in st.sessions && j == st.sessions[s.id]
    ensures |st.sessions[s.id := i]| == |st.sessions|
    ensures |st.sessions[s.id := i]| == CountBusy(st.slots[i := Running(s)][j := Available])
  {
    CountBusyUpdate(st.slots, i, Running(s));
    CountBusyUpdate(st.slots[i := Running(s)], j, Available);
    assert st.sessions[s.id := i].Keys == st.sessions.Keys;
  }

  /** After the move the table and the running slots still correspond one to one. */
  lemma ReplacingLinks(cfg: NodeConfig, st: NodeState, i: nat, j: nat, s: ActiveSession)
    requires Valid(cfg, st) && i < |st.slots| && st.slots[i] == Available
    requires s.id in st.sessions && j == st.sessions[s.id]
    ensures var slots := st.slots[i := Running(s)][j := Available];
      var sessions := st.sessions[s.id := i];
      (forall id | id in sessions :: sessions[id] < |slots| && slots[sessions[id]].Running? &&
                                    slots[sessions[id]].session.id == id) &&
      (forall k | 0 <= k < |slots| && slots[k].Running? ::
         slots[k].session.id in sessions && sessions[slots[k].session.id] == k)
  {
    var slots := st.slots[i := Running(s)][j := Available];
    forall k | 0 <= k < |slots| && slots[k].Running?
      ensures slots[k].session.id in st.sessions[s.id := i] && st.sessions[s.id := i][slots[k].session.id] == k
    {
      if k != i {
        assert st.slots[k].session.id != s.id;
      }
    }
  }

  /** Every outcome of `newSession` keeps the allocator invariant: in particular the number of
      sessions never exceeds the limit and no slot stays reserved. */
  lemma NewSessionValid(cfg: NodeConfig, st: NodeState, desired: Caps, outcome: ApplyOutcome, now: int)
    requires Valid(cfg, st)
    ensures Valid(cfg, NewSession(cfg, st, desired, outcome, now).0)
  {
    var r := NewSession(cfg, st, desired, outcome, now).0;
    if |st.sessions| < cfg.maxSessionCount && !st.draining && FirstFit(cfg, st.slots, desired).Some? {
      var i := FirstFit(cfg, st.slots, desired).value;
      var applied := st.(effects := st.effects + [Apply(i)]);
      ValidIgnoresLogs(cfg, st, applied);
      match outcome
      case Failed(_) =>
        assert r == applied;
      case Created(s) =>
        var stored := Put(applied.(slots := applied.slots[i := Running(s)]), s.id, i);
        if s.id in st.sessions {
          StoreReplacingValid(cfg, applied, i, s);
        } else {
          StoreFreshValid(cfg, applied, i, s);
        }
        CheckSessionCountValid(cfg, stored);
        assert r == CheckSessionCount(cfg, stored);
    } else {
      assert r == st;
    }
  }

  /** The invariant does not look at the event and effect logs or the drain counters. */
  lemma ValidIgnoresLogs(cfg: NodeConfig, st: NodeState, st': NodeState)
    requires Valid(cfg, st) && st'.slots == st.slots && st'.sessions == st.sessions
    ensures Valid(cfg, st')
  {
  }

  /** `stop(id)`: an unknown id is refused; otherwise the entry is invalidated, an explicit
      removal that sends no DELETE. */
  function Stop(st: NodeState, id: string): (r: (NodeState, Result<(), NodeError>))
    requires forall k | k in st.sessions :: st.sessions[k] < |st.slots|
    ensures id !in st.sessions <==> r.1.Err?
    ensures r.1.Err? ==> r == (st, Err(NoSuchSession("Cannot find session with id: " + id)))
    ensures r.1.Ok? ==>
      (id !in r.0.sessions && st.effects <= r.0.effects &&
       Execute(st.sessions[id], HttpRequest(DELETE, "/session/" + id)) !in r.0.effects[|st.effects|..])
  {
    if id !in st.sessions then (st, Err(NoSuchSession("Cannot find session with id: " + id)))
    else
      var r := RemoveSession(st, id, false);
      assert r.effects[|st.effects|..] == ReleaseEffects(id, st.sessions[id], false);
      (r, Ok(()))
  }

  /** A session reaching its idle timeout: the cache evicts it, and the listener sends the DELETE
      before stopping the slot. */
  function Evict(st: NodeState, id: string): (r: NodeState)
    requires forall k | k in st.sessions :: st.sessions[k] < |st.slots|
    ensures id !in st.sessions ==> r == st
    ensures id in st.sessions ==>
      (id !in r.sessions && st.effects <= r.effects &&
       Execute(st.sessions[id], HttpRequest(DELETE, "/session/" + id)) in r.effects[|st.effects|..])
  {
    if id in st.sessions then
      var r := RemoveSession(st, id, true);
      assert r.effects[|st.effects|..] == ReleaseEffects(id, st.sessions[id], true);
      r
    else st
  }

  lemma StopValid(cfg: NodeConfig, st: NodeState, id: string)
    requires Valid(cfg, st)
    ensures Valid(cfg, Stop(st, id).0)
  {
    if id in st.sessions {
      RemoveSessionValid(cfg, st, id, false);
    }
  }

  lemma EvictValid(cfg: NodeConfig, st: NodeState, id: string)
    requires Valid(cfg, st)
    ensures Valid(cfg, Evict(st, id))
  {
    if id in st.sessions {
      RemoveSessionValid(cfg, st, id, true);
    }
  }

  /** `executeWebDriverCommand`: the session id comes from the request path (`sessionIdOf`
      stands for the path parser); unknown sessions are refused; otherwise the command goes to the
      session's slot and a DELETE of exactly "/session/<id>" then stops the session. */
  function ExecuteCommand(st: NodeState, req: HttpRequest, sessionIdOf: string -> Option<string>,
                          answer: HttpResponse): (r: (NodeState, Result<HttpResponse, NodeError>))
    requires forall k | k in st.sessions :: st.sessions[k] < |st.slots|
    ensures sessionIdOf(req.uri).None? ==> r == (st, Err(NoSuchSession("Cannot find session: " + req.uri)))
    ensures sessionIdOf(req.uri).Some? && sessionIdOf(req.uri).value !in st.sessions ==>
      r == (st, Err(NoSuchSession("Cannot find session with id: " + sessionIdOf(req.uri).value)))
    ensures r.1.Ok? ==>
      (r.1.value == answer && sessionIdOf(req.uri).Some? &&
       var id := sessionIdOf(req.uri).value;
       id in st.sessions &&
       st.effects + [Execute(st.sessions[id], req)] <= r.0.effects &&
       (id in r.0.sessions <==> !(req.verb == DELETE && req.uri == "/session/" + id)))
  {
    match sessionIdOf(req.uri)
    case None => (st, Err(NoSuchSession("Cannot find session: " + req.uri)))
    case Some(id) =>
      if id !in st.sessions then (st, Err(NoSuchSession("Cannot find session with id: " + id)))
      else
        var sent := st.(effects := st.effects + [Execute(st.sessions[id], req)]);
        if req.verb == DELETE && req.uri == "/session/" + id then (Stop(sent, id).0, Ok(answer))
        else (sent, Ok(answer))
  }

  lemma ExecuteCommandValid(cfg: NodeConfig, st: NodeState, req: HttpRequest,
                            sessionIdOf: string -> Option<string>, answer: HttpResponse)
    requires Valid(cfg, st)
    ensures Valid(cfg, ExecuteCommand(st, req, sessionIdOf, answer).0)
  {
    var r := ExecuteCommand(st, req, sessionIdOf, answer).0;
    match sessionIdOf(req.uri)
    case None =>
      assert r == st;
    case Some(id) =>
      if id in st.sessions {
        var sent := st.(effects := st.effects + [Execute(st.sessions[id], req)]);
        ValidIgnoresLogs(cfg, st, sent);
        if req.verb == DELETE && req.uri == "/session/" + id {
          StopValid(cfg, sent, id);
          assert r == Stop(sent, id).0;
        } else {
          assert r == sent;
        }
      } else {
        assert r == st;
      }
  }

  /** `isSupporting`: some slot accepts the capabilities. */
  predicate IsSupporting(cfg: NodeConfig, caps: Caps)
  {
    exists i | 0 <= i < |cfg.slots| :: cfg.test(cfg.slots[i].stereotype, caps)
  }

  /** A request no slot could ever accept is refused with "No slot matched" on an idle Node. */
  lemma UnsupportedNeverFits(cfg: NodeConfig, st: NodeState, desired: Caps, outcome: ApplyOutcome, now: int)
    requires Valid(cfg, st) && !IsSupporting(cfg, desired)
    requires |st.sessions| < cfg.maxSessionCount && !st.draining
    ensures NewSession(cfg, st, desired, outcome, now) == (st, Err(RetrySessionRequest(NoSlotMatched)))
  {
  }

  /** The index of the first slot with a relay factory. */
  function FirstRelay(slots: seq<SlotConfig>): (r: Option<nat>)
    ensures r.Some? ==>
      (r.value < |slots| && slots[r.value].hasRelayFactory &&
       forall j | 0 <= j < r.value :: !slots[j].hasRelayFactory)
    ensures r.None? ==> forall j | 0 <= j < |slots| :: !slots[j].hasRelayFactory
  {
    if slots == [] then None
    else if slots[0].hasRelayFactory then Some(0)
    else match FirstRelay(slots[1..]) case Some(k) => Some(k + 1) case None => None
  }

  /** The availability `getStatus` reports: only the first relay slot's service is consulted. */
  function StatusAvailability(cfg: NodeConfig, st: NodeState, relayServiceUp: nat -> bool): (a: GridData.Availability)
    ensures a == GridData.DOWN <==> FirstRelay(cfg.slots).Some? && !relayServiceUp(FirstRelay(cfg.slots).value)
    ensures a == GridData.DRAINING <==> st.draining && a != GridData.DOWN
    ensures a == GridData.UP <==> !st.draining && a != GridData.DOWN
  {
    match FirstRelay(cfg.slots)
    case Some(i) => if !relayServiceUp(i) then GridData.DOWN else if st.draining then GridData.DRAINING else GridData.UP
    case None => if st.draining then GridData.DRAINING else GridData.UP
  }

  /** The summary of slot `i`: a session and its start time only when the slot is running one. */
  function SlotSummary(cfg: NodeConfig, st: NodeState, i: nat): (r: GridData.Slot)
    requires i < |st.slots| == |cfg.slots|
    ensures r.session.Some? <==> st.slots[i].Running?
    ensures r.session.None? ==> r.lastStarted == 0
    ensures r.session.Some? ==> r.lastStarted == st.slots[i].session.startTime == r.session.value.startTime
    ensures r.id == GridData.SlotId(cfg.nodeId, cfg.slots[i].id)
    ensures r.stereotype == cfg.slots[i].stereotype
  {
    var stereotype := cfg.slots[i].stereotype;
    match st.slots[i]
    case Running(s) =>
      GridData.Slot(GridData.SlotId(cfg.nodeId, cfg.slots[i].id), stereotype, s.startTime,
                    Some(GridData.Session(s.id, s.uri, stereotype, s.capabilities, s.startTime)))
    case _ => GridData.Slot(GridData.SlotId(cfg.nodeId, cfg.slots[i].id), stereotype, 0, None)
  }

  function StatusSlots(cfg: NodeConfig, st: NodeState): set<GridData.Slot>
    requires |st.slots| == |cfg.slots|
  {
    set i | 0 <= i < |st.slots| :: SlotSummary(cfg, st, i)
  }

  /** Fewer busy slots than slots exactly when some slot is free. */
  lemma {:induction false} CountBusyBelowLength(s: seq<SlotState>)
    ensures CountBusy(s) < |s| <==> exists i | 0 <= i < |s| :: s[i].Available?
  {
    if s != [] {
      var t := s[1..];
      CountBusyBelowLength(t);
      if exists i | 0 <= i < |s| :: s[i].Available? {
        var i :| 0 <= i < |s| && s[i].Available?;
        if i > 0 {
          assert t[i - 1].Available?;
        }
      }
      if exists i | 0 <= i < |t| :: t[i].Available? {
        var i :| 0 <= i < |t| && t[i].Available?;
        assert s[i + 1].Available?;
      }
    }
  }

  /** In a valid state no slot is reserved, so a summary without a session is a free slot. */
  lemma SummaryFreeIffAvailable(cfg: NodeConfig, st: NodeState, i: nat)
    requires Valid(cfg, st) && i < |st.slots|
    ensures SlotSummary(cfg, st, i).session.None? <==> st.slots[i].Available?
  {
  }

  /** `hasCapacity()` of the status `getStatus` reports: some slot is free exactly when fewer
      slots are used than the Node has. */
  lemma StatusHasCapacity(status: GridData.NodeStatus, cfg: NodeConfig, st: NodeState)
    requires Valid(cfg, st) && status.slots == StatusSlots(cfg, st)
    ensures status.HasCapacity() <==> CountBusy(st.slots) < |st.slots|
  {
    CountBusyBelowLength(st.slots);
    if status.HasCapacity() {
      var s :| s in status.slots && s.session.None?;
      var i :| 0 <= i < |st.slots| && s == SlotSummary(cfg, st, i);
      SummaryFreeIffAvailable(cfg, st, i);
    }
    if CountBusy(st.slots) < |st.slots| {
      var i :| 0 <= i < |st.slots| && st.slots[i].Available?;
      SummaryFreeIffAvailable(cfg, st, i);
      assert SlotSummary(cfg, st, i) in status.slots;
    }
  }

  /** `hasCapability(caps)` of the status `getStatus` reports, when a slot supports capabilities
      as the Node's slot test does: it is `isSupporting`. */
  lemma StatusHasCapability(status: GridData.NodeStatus, cfg: NodeConfig, st: NodeState, caps: Caps,
                            supports: (GridData.Slot, Caps) -> bool)
    requires |st.slots| == |cfg.slots| && status.slots == StatusSlots(cfg, st)
    requires forall s: GridData.Slot, c: Caps :: supports(s, c) == cfg.test(s.stereotype, c)
    ensures status.HasCapability(caps, supports) <==> IsSupporting(cfg, caps)
  {
    if status.HasCapability(caps, supports) {
      var s :| s in status.slots && supports(s, caps);
      var i :| 0 <= i < |st.slots| && s == SlotSummary(cfg, st, i);
      assert cfg.test(cfg.slots[i].stereotype, caps);
    }
    if IsSupporting(cfg, caps) {
      var i :| 0 <= i < |cfg.slots| && cfg.test(cfg.slots[i].stereotype, caps);
      var s := SlotSummary(cfg, st, i);
      assert s in status.slots && supports(s, caps);
    }
  }

  /** `hasCapacity(caps)` of the status `getStatus` reports, when a slot supports capabilities as
      the Node's slot test does: it holds exactly when the Node's first-fit scan finds a slot. */
  lemma StatusHasCapacityFor(status: GridData.NodeStatus, cfg: NodeConfig, st: NodeState, caps: Caps,
                             supports: (GridData.Slot, Caps) -> bool)
    requires Valid(cfg, st) && status.slots == StatusSlots(cfg, st)
    requires forall s: GridData.Slot, c: Caps :: supports(s, c) == cfg.test(s.stereotype, c)
    ensures status.HasCapacityFor(caps, supports) <==> FirstFit(cfg, st.slots, caps).Some?
  {
    if status.HasCapacityFor(caps, supports) {
      var s :| s in status.slots && s.session.None? && supports(s, caps);
      var i :| 0 <= i < |st.slots| && s == SlotSummary(cfg, st, i);
      SummaryFreeIffAvailable(cfg, st, i);
      FitIsFound(cfg, st.slots, caps, i);
    }
    if FirstFit(cfg, st.slots, caps).Some? {
      var i := FirstFit(cfg, st.slots, caps).value;
      SummaryFreeIffAvailable(cfg, st, i);
      var s := SlotSummary(cfg, st, i);
      assert s in status.slots && s.session.None? && supports(s, caps);
    }
  }

  /** Some slot fits, so the scan finds one. */
  lemma FitIsFound(cfg: NodeConfig, slots: seq<SlotState>, desired: Caps, i: nat)
    requires i < |slots| == |cfg.slots| && Fits(cfg, slots, desired, i)
    ensures FirstFit(cfg, slots, desired).Some?
  {
  }

  /** A freshly built single-slot Node with the default settings reports, through its managed
      attributes, no current sessions, one allowed session, status UP, one slot and none used. */
  lemma FreshSingleSlotNode(cfg: NodeConfig, configured: int, drainAfterSessionCount: int, relayServiceUp: nat -> bool)
    requires |cfg.slots| == 1 && configured >= 1 && !cfg.slots[0].hasRelayFactory
    requires EffectiveMaxSessions(configured, |cfg.slots|) == Ok(cfg.maxSessionCount)
    ensures var st := InitialState(cfg, drainAfterSessionCount);
      |st.sessions| == 0 && cfg.maxSessionCount == 1 && |st.slots| == 1 &&
      CountBusy(st.slots) == 0 && StatusAvailability(cfg, st, relayServiceUp) == GridData.UP
  {
    var st := InitialState(cfg, drainAfterSessionCount);
    CountBusyAllAvailable(st.slots);
  }
}
