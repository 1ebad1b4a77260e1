/** The grid Node that runs sessions on its own slots (org.openqa.selenium.grid.node.local.LocalNode).
    Each method performs one step of module LocalNodeSpec in place and says so in its contract. */
module LocalNode {
  import opened Wrappers
  import opened Capabilities
  import opened LocalNodeSpec
  import GridData

  class LocalNode {
    const config: NodeConfig
    const slots: array<SlotState>
    var currentSessions: map<string, nat>
    var draining: bool
    var pendingSessions: int
    var sessionCount: int
    var events: seq<NodeEvent>
    var effects: seq<Effect>

    function State(): NodeState
      reads this, slots
    {
      NodeState(slots[..], currentSessions, draining, pendingSessions, sessionCount, events, effects)
    }

    ghost predicate Valid()
      reads this, slots
    {
      slots.Length == |config.slots| && LocalNodeSpec.Valid(config, State())
    }

    /** The Node after its constructor: every slot free; `maxSessionCount` is the already
        computed limit and drain-after-N is on when its count is positive. */
    constructor (cfg: NodeConfig, maxSessionCount: nat, drainAfterSessionCount: int)
      ensures config == cfg.(maxSessionCount := maxSessionCount, drainAfterSessions := drainAfterSessionCount > 0)
      ensures fresh(slots) && Valid()
      ensures State() == InitialState(config, drainAfterSessionCount)
    {
      config := cfg.(maxSessionCount := maxSessionCount, drainAfterSessions := drainAfterSessionCount > 0);
      slots := new SlotState[|cfg.slots|](_ => Available);
      currentSessions := map[];
      draining := false;
      pendingSessions := 0;
      sessionCount := drainAfterSessionCount;
      events := [];
      effects := [];
      new;
      assert slots[..] == InitialState(config, drainAfterSessionCount).slots;
      InitialStateValid(config, drainAfterSessionCount);
    }

    /** Construction with the configured session count: a non-positive count is refused, and
        the limit is capped by the number of slots. */
    static method Build(cfg: NodeConfig, configuredMax: int, drainAfterSessionCount: int)
      returns (r: Result<LocalNode, string>)
      ensures configuredMax <= 0 ==> r == Err("Max session count")
      ensures configuredMax > 0 ==>
        (r.Ok? && fresh(r.value) && fresh(r.value.slots) && r.value.Valid() &&
         Ok(r.value.config.maxSessionCount) == EffectiveMaxSessions(configuredMax, |cfg.slots|) &&
         r.value.State() == InitialState(r.value.config, drainAfterSessionCount))
    {
      var max := EffectiveMaxSessions(configuredMax, |cfg.slots|);
      if max.Err? {
        return Err(max.error);
      }
      var node := new LocalNode(cfg, max.value, drainAfterSessionCount);
      return Ok(node);
    }

    /** `getCurrentSessionCount`. */
    function CurrentSessionCount(): (n: nat)
      reads this, slots
      ensures Valid() ==> n == UsedSlots() && n <= config.maxSessionCount
    {
      |currentSessions|
    }

    /** `getTotalSlots`. */
    function TotalSlots(): nat
      reads this
    {
      slots.Length
    }

    /** `getUsedSlots`: the slots that are not available. */
    function UsedSlots(): (n: nat)
      reads this, slots
      ensures n <= slots.Length
    {
      CountBusy(slots[..])
    }

    /** `getAvailability`, the managed "Status" attribute. */
    function Availability(): (a: GridData.Availability)
      reads this
      ensures a == GridData.DRAINING <==> draining
      ensures a != GridData.DOWN
    {
      if draining then GridData.DRAINING else GridData.UP
    }

    /** `isSessionOwner`. */
    predicate IsSessionOwner(id: string)
      reads this
    {
      id in currentSessions
    }

    /** `getSession`: the session as a client sees it, rebuilt from the slot that runs it;
        an unknown id is refused. */
    function GetSession(id: string, now: int): (r: Result<GridData.Session, NodeError>)
      reads this, slots
      requires Valid()
      ensures r.Err? <==> !IsSessionOwner(id)
      ensures r.Err? ==> r.error == NoSuchSession("Cannot find session with id: " + id)
      ensures r.Ok? ==>
        (r.value.id == id && r.value.uri == config.externalUri &&
         r.value.stereotype == config.slots[currentSessions[id]].stereotype)
    {
      if id !in currentSessions then Err(NoSuchSession("Cannot find session with id: " + id))
      else
        var i := currentSessions[id];
        var s := slots[i].session;
        Ok(ExternalSession(config, i, s, s.capabilities, now))
    }

    /** The scan of `newSession`: the first slot, in list order, that is available and whose
        test accepts the capabilities. */
    method FindFirstFit(desired: Caps) returns (r: Option<nat>)
      requires slots.Length == |config.slots|
      ensures r.Some? ==> r.value < slots.Length && Fits(config, slots[..], desired, r.value)
      ensures r.Some? ==> forall j | 0 <= j < r.value :: !Fits(config, slots[..], desired, j)
      ensures r.None? ==> forall j | 0 <= j < slots.Length :: !Fits(config, slots[..], desired, j)
    {
      var i := 0;
      while i < slots.Length
        invariant 0 <= i <= slots.Length
        invariant forall j | 0 <= j < i :: !Fits(config, slots[..], desired, j)
      {
        if slots[i].Available? && config.test(config.slots[i].stereotype, desired) {
          return Some(i);
        }
        i := i + 1;
      }
      return None;
    }

    /** The removal listener for session `id` held by slot `i`. */
    method Release(id: string, i: nat, evicted: bool)
      requires i < slots.Length
      modifies this, slots
      ensures State() == Released(old(State()), id, i, evicted)
    {
      ghost var before := State();
      if evicted {
        effects := effects + [Execute(i, HttpRequest(DELETE, "/session/" + id))];
      }
      slots[i] := Available;
      effects := effects + [StopSlot(i), TempFsInvalidated(id)];
      assert effects == before.effects + ReleaseEffects(id, i, evicted);
      assert slots[..] == before.slots[i := Available];
      ghost var freed := before.(slots := before.slots[i := Available], effects := before.effects + ReleaseEffects(id, i, evicted));
      assert State() == freed;
      if draining {
        pendingSessions := pendingSessions - 1;
        if pendingSessions <= 0 {
          events := events + [DrainComplete];
        }
        assert State() == freed.(pending := before.pending - 1,
                                 events := before.events + (if before.pending - 1 <= 0 then [DrainComplete] else []));
      }
    }

    /** `drain()`. */
    method Drain()
      modifies this
      ensures State() == LocalNodeSpec.Drain(old(State()))
    {
      events := events + [DrainStarted];
      draining := true;
      if |currentSessions| == 0 {
        events := events + [DrainComplete];
      } else {
        pendingSessions := |currentSessions|;
      }
    }

    /** `checkSessionCount()`. */
    method CheckSessionCount()
      modifies this
      ensures State() == LocalNodeSpec.CheckSessionCount(config, old(State()))
    {
      if config.drainAfterSessions {
        sessionCount := sessionCount - 1;
        if sessionCount <= 0 {
          Drain();
        }
      }
    }

    /** `reserve()` on slot `i`, just before the Node asks it to start the session. */
    method Reserve(i: nat)
      requires i < slots.Length
      modifies this, slots
      ensures State() == old(State()).(slots := old(State()).slots[i := Reserved],
                                       effects := old(State()).effects + [Apply(i)])
    {
      slots[i] := Reserved;
      effects := effects + [Apply(i)];
    }

    /** `currentSessions.put(id, slot i)` after slot `i` started session `s`. */
    method Store(s: ActiveSession, i: nat)
      requires i < slots.Length
      requires forall k | k in currentSessions :: currentSessions[k] < slots.Length
      modifies this, slots
      ensures State() == Put(old(State()).(slots := old(State()).slots[i := Running(s)]), s.id, i)
    {
      slots[i] := Running(s);
      if s.id in currentSessions {
        var j := currentSessions[s.id];
        currentSessions := currentSessions[s.id := i];
        Release(s.id, j, false);
      } else {
        currentSessions := currentSessions[s.id := i];
      }
    }

    /** `newSession` once slot `i` is chosen. */
    method Attempt(i: nat, desired: Caps, outcome: ApplyOutcome, now: int)
      returns (r: Result<GridData.Session, NodeError>)
      requires Valid() && i < slots.Length && slots[i].Available?
      modifies this, slots
      ensures (State(), r) == LocalNodeSpec.Attempt(config, old(State()), i, desired, outcome, now)
    {
      ghost var before := State();
      ghost var applied := before.(effects := before.effects + [Apply(i)]);
      Reserve(i);
      match outcome {
        case Failed(cause) =>
          slots[i] := Available;
          assert slots[..] == before.slots;
          r := Err(SlotFailure(cause));
        case Created(s) =>
          ghost var reserved := State();
          assert reserved.(slots := reserved.slots[i := Running(s)]) == applied.(slots := applied.slots[i := Running(s)]) by {
            assert before.slots[i := Reserved][i := Running(s)] == before.slots[i := Running(s)];
          }
          Store(s, i);
          ghost var stored := Put(applied.(slots := applied.slots[i := Running(s)]), s.id, i);
          assert State() == stored;
          CheckSessionCount();
          r := Ok(ExternalSession(config, i, s, desired, now));
          assert LocalNodeSpec.Attempt(config, before, i, desired, outcome, now) ==
            (LocalNodeSpec.CheckSessionCount(config, stored), r);
      }
    }

    /** `newSession`: refuses when full, then when draining; otherwise reserves the first fitting
        slot, asks it to start the session, and either records the session or releases the
        reservation and hands back the slot's error. */
    method NewSession(desired: Caps, outcome: ApplyOutcome, now: int)
      returns (r: Result<GridData.Session, NodeError>)
      requires Valid()
      modifies this, slots
      ensures Valid()
      ensures (State(), r) == LocalNodeSpec.NewSession(config, old(State()), desired, outcome, now)
    {
      NewSessionValid(config, State(), desired, outcome, now);
      if |currentSessions| >= config.maxSessionCount {
        return Err(RetrySessionRequest(MaxReached));
      }
      if draining {
        return Err(RetrySessionRequest(DrainingRefusal));
      }
      var found := FindFirstFit(desired);
      FirstFitUnique(config, slots[..], desired, found);
      if found.None? {
        return Err(RetrySessionRequest(NoSlotMatched));
      }
      r := Attempt(found.value, desired, outcome, now);
    }

    /** Removing a session from the table, then running the removal listener. */
    method RemoveSession(id: string, evicted: bool)
      requires Valid() && id in currentSessions
      modifies this, slots
      ensures Valid()
      ensures State() == LocalNodeSpec.RemoveSession(old(State()), id, evicted)
    {
      RemoveSessionValid(config, State(), id, evicted);
      var i := currentSessions[id];
      currentSessions := currentSessions - {id};
      Release(id, i, evicted);
    }

    /** `stop(id)`. */
    method Stop(id: string) returns (r: Result<(), NodeError>)
      requires Valid()
      modifies this, slots
      ensures Valid()
      ensures (State(), r) == LocalNodeSpec.Stop(old(State()), id)
    {
      if id !in currentSessions {
        return Err(NoSuchSession("Cannot find session with id: " + id));
      }
      RemoveSession(id, false);
      return Ok(());
    }

    /** The idle timeout of session `id` expiring. */
    method Evict(id: string)
      requires Valid()
      modifies this, slots
      ensures Valid()
      ensures State() == LocalNodeSpec.Evict(old(State()), id)
    {
      if id in currentSessions {
        RemoveSession(id, true);
      }
    }

    /** `executeWebDriverCommand`: `answer` is the slot's response to the forwarded request. */
    method ExecuteWebDriverCommand(req: HttpRequest, sessionIdOf: string -> Option<string>, answer: HttpResponse)
      returns (r: Result<HttpResponse, NodeError>)
      requires Valid()
      modifies this, slots
      ensures Valid()
      ensures (State(), r) == ExecuteCommand(old(State()), req, sessionIdOf, answer)
    {
      ExecuteCommandValid(config, State(), req, sessionIdOf, answer);
      var parsed := sessionIdOf(req.uri);
      if parsed.None? {
        return Err(NoSuchSession("Cannot find session: " + req.uri));
      }
      var id := parsed.value;
      if id !in currentSessions {
        return Err(NoSuchSession("Cannot find session with id: " + id));
      }
      ghost var before := State();
      effects := effects + [Execute(currentSessions[id], req)];
      ghost var sent := before.(effects := before.effects + [Execute(before.sessions[id], req)]);
      assert State() == sent;
      if req.verb == DELETE && req.uri == "/session/" + id {
        assert LocalNodeSpec.Valid(config, sent);
        var _ := Stop(id);
      }
      return Ok(answer);
    }

    /** The shutdown hook: `invalidateAll` removes every session explicitly, so no DELETE is
        sent. `order` is the order in which the cache happened to remove them; each removal runs
        the removal listener, which counts the pending sessions down while the Node drains. */
    method StopAllSessions() returns (ghost order: seq<string>)
      requires Valid()
      modifies this, slots
      ensures Valid()
      ensures |order| == |old(currentSessions)| && forall id :: id in order <==> id in old(currentSessions)
      ensures State() == StoppedAll(old(State()), order)
    {
      ghost var start := State();
      ghost var removed: set<string> := {};
      order := [];
      StopStart(start);
      while currentSessions != map[]
        invariant Valid() && StopProgress(start, State(), order, removed)
        decreases |currentSessions|
      {
        var id := RemoveAnySession(start, order, removed);
        order, removed := order + [id], removed + {id};
      }
      StopDone(config, start, State(), order, removed);
    }

    /** One removal of `invalidateAll`: some session leaves the table through the removal
        listener, without eviction. */
    method RemoveAnySession(ghost start: NodeState, ghost order: seq<string>, ghost removed: set<string>)
      returns (id: string)
      requires Valid() && StopProgress(start, State(), order, removed) && currentSessions != map[]
      modifies this, slots
      ensures Valid() && StopProgress(start, State(), order + [id], removed + {id})
      ensures |currentSessions| < old(|currentSessions|)
    {
      id :| id in currentSessions;
      MapRemoveCard(currentSessions, id);
      ghost var before := State();
      RemoveSessionCounters(before, id);
      RemoveSession(id, false);
      StopStep(start, before, State(), order, removed, id);
    }

    /** `getStatus`: one summary per slot, availability from draining and the first relay slot,
        handed to the status constructor, which refuses a Node whose limit is zero. */
    method GetStatus(relayServiceUp: nat -> bool, now: int) returns (r: Result<GridData.NodeStatus, GridData.StatusError>)
      requires Valid()
      ensures config.maxSessionCount == 0 <==> r.Err?
      ensures r.Err? ==> r.error == GridData.NotPositive("Max session count")
      ensures r.Ok? ==>
        (fresh(r.value) &&
         r.value.nodeId == config.nodeId && r.value.externalUri == config.externalUri &&
         r.value.maxSessionCount == config.maxSessionCount &&
         r.value.slots == StatusSlots(config, State()) &&
         r.value.availability == StatusAvailability(config, State(), relayServiceUp) &&
         r.value.heartbeatSeconds == config.heartbeatSeconds &&
         r.value.version == config.version && r.value.osInfo == config.osInfo && r.value.touched == now)
    {
      var summaries := StatusSlots(config, State());
      var availability := StatusAvailability(config, State(), relayServiceUp);
      r := GridData.NodeStatus.Create(Some(config.nodeId), Some(config.externalUri), config.maxSessionCount,
                                      Some(summaries), Some(availability), config.heartbeatSeconds,
                                      Some(config.version), Some(config.osInfo), now);
    }
  }
}
