# Selenium grid node, status data and client-side codecs in Dafny

This project models the central logic of a set of Selenium components and proves properties of
that model. Each modelled source file gets one Dafny module.

- **Grid node slot allocator** (`LocalNode`): the `LocalNode` class holds
  - an array of slot states;
  - the session-id to slot table;
  - the draining flag;
  - the pending-session and drain-after-N counters;
  - the log of calls made on the slots.

  Every operation (`NewSession`, `Release`, `Drain`, `CheckSessionCount`, `Stop`, `Evict`,
  `ExecuteWebDriverCommand`, `StopAllSessions`, `GetStatus`) is a method whose new state equals a
  specification function in `LocalNodeSpec` (for `StopAllSessions`, `StoppedAll` of the order in
  which the sessions happen to be removed). The spec functions are proved to keep the node's
  invariant `Valid`, which says:
  - the table and the occupied slots agree one to one;
  - the session count never exceeds the maximum.
- **Status data**:
  - `GridData.NodeStatus` (constructor checks, the JSON field reader, the capacity predicates, equality and hashing, the setters);
  - the memoised snapshot and slot roll-ups of the GraphQL `Grid`;
  - the legacy hub `HubStatusServlet` (key filtering, slot counts, per-browser counts, the response map).
- **Request ordering** (`Prioritizer`): the importance-first comparator of the priority demo and the request it serves first.
- **Driver-provider registry** (`DriverFactory`): registration, platform filtering, lookup and instance creation.
- **Session-map address** (`SessionMapOptions`): resolving the session-map URI from the configuration.
- **Client codecs and classifiers**:
  - the Python remote error classifier, with the error codes of section 6.6 of the W3C WebDriver specification and the legacy numeric wire codes (`ErrorHandler`);
  - the Ruby W3C capabilities object and its JSON spellings (`RemoteCapabilities`);
  - the Ruby colour parser and formatter for the rgb()/rgba()/#hex notations of section 4.2 of CSS Color Module Level 3 (`SupportColor`);
  - version parsing and driver path composition of the Rust driver manager (`ManagerFiles`);
  - the IE driver's Get Element Attribute command (`IeGetElementAttribute`);
  - the C# WebDriver code generator of the IDE plug-in (`CSharpFormat`);
  - the DevTools `AuthChallenge` reader;
  - the three Safari driver-info entries.

Calls into code outside the model are parameters of the operations. These include slot
`test`/`apply`, capability merging, platform and browser matchers, JSON readers, URI parsing and
string helpers. The foreign results are the only freedom the model leaves open. Clocks become
`now` parameters.

## Model

| member | source | states |
|---|---|---|
| LocalNodeSpec.EffectiveMaxSessions | java/src/org/openqa/selenium/grid/node/local/LocalNode.java:173-174 | a non-positive configured count is refused with "Max session count"; otherwise the result is the smaller of the configured count and the slot count |
| LocalNodeSpec.InitialState | java/src/org/openqa/selenium/grid/node/local/LocalNode.java:150-180 | a new node has one Available slot per configured slot, no sessions and is not draining |
| LocalNodeSpec.CountBusy | java/src/org/openqa/selenium/grid/node/local/LocalNode.java:322-324 | the number of non-available slots is at most the number of slots |
| LocalNodeSpec.CountBusyUpdate | java/src/org/openqa/selenium/grid/node/local/LocalNode.java:322-324 | changing one slot changes the busy count by exactly the change in that slot's busyness |
| LocalNodeSpec.CountBusyAllAvailable | java/src/org/openqa/selenium/grid/node/local/LocalNode.java:322-324 | all slots available means no used slot |
| LocalNodeSpec.CountBusyZero | java/src/org/openqa/selenium/grid/node/local/LocalNode.java:322-324 | a used-slot count of zero means every slot is available |
| LocalNodeSpec.InitialStateValid | java/src/org/openqa/selenium/grid/node/local/LocalNode.java:150-180 | the initial state satisfies the node invariant |
| LocalNodeSpec.FirstFitFrom | java/src/org/openqa/selenium/grid/node/local/LocalNode.java:383-402 | the scan returns the first slot, in list order, that is available and accepted by the slot's test, or none when no slot qualifies |
| LocalNodeSpec.FirstFitUnique | java/src/org/openqa/selenium/grid/node/local/LocalNode.java:383-402 | any index that fits with no fitting index before it is the scan's answer |
| LocalNodeSpec.Fits | java/src/org/openqa/selenium/grid/node/local/LocalNode.java:383-402 | definition: the slot is available and its test accepts the capabilities |
| LocalNodeSpec.FirstFit | java/src/org/openqa/selenium/grid/node/local/LocalNode.java:383-402 | the slot found fits and no earlier one does; no slot is found only when none fits |
| LocalNodeSpec.FitIsFound | java/src/org/openqa/selenium/grid/node/local/LocalNode.java:383-402 | when some slot fits, the scan finds a slot |
| LocalNodeSpec.Released | java/src/org/openqa/selenium/grid/node/local/LocalNode.java:250-278 | the released slot becomes Available; a DELETE /session/<id> is sent to it if and only if the removal is an eviction; the slot is stopped and the temp filesystem dropped every time; while draining, pending is decremented and drain-complete fires when it reaches zero or below |
| LocalNodeSpec.ReleaseEffects | java/src/org/openqa/selenium/grid/node/local/LocalNode.java:250-278 | the effects of a release: a DELETE /session/<id> to the slot if and only if the session was evicted, and always a slot stop and a temp filesystem invalidation; nothing is executed when it was not evicted |
| LocalNodeSpec.RemoveSession | java/src/org/openqa/selenium/grid/node/local/LocalNode.java:250-278 | the id leaves the table and its slot becomes Available; DELETE is sent only on eviction |
| LocalNodeSpec.StopEffects | java/src/org/openqa/selenium/grid/node/local/LocalNode.java:250-266 | removing sessions without eviction forwards no command to any slot |
| LocalNodeSpec.StopEffectsCover | java/src/org/openqa/selenium/grid/node/local/LocalNode.java:250-266 | each removed session's slot is stopped and its temporary filesystem invalidated |
| LocalNodeSpec.Completions | java/src/org/openqa/selenium/grid/node/local/LocalNode.java:267-274 | the countdown fires only drain-complete, once for every removal that takes pending to 0 or below |
| LocalNodeSpec.CompletionsOnce | java/src/org/openqa/selenium/grid/node/local/LocalNode.java:267-274 | with pending equal to the number of removals, as drain() sets it, drain-complete fires exactly once and only on the last removal |
| LocalNodeSpec.StoppedAll | java/src/org/openqa/selenium/grid/node/local/LocalNode.java:250-278 | after invalidateAll: no session, every slot Available, the drain flag and drain-after-N count kept, the release effects of every session in removal order, and while draining pending lowered by the session count with the drain-complete events of Completions |
| LocalNodeSpec.StoppedAllValid | java/src/org/openqa/selenium/grid/node/local/LocalNode.java:698-703 | stopping every session keeps the node invariant |
| LocalNodeSpec.Drain | java/src/org/openqa/selenium/grid/node/local/LocalNode.java:825-835 | draining is set and drain-started fires; with no sessions drain-complete fires at once, otherwise pending becomes the session count |
| LocalNodeSpec.CheckSessionCount | java/src/org/openqa/selenium/grid/node/local/LocalNode.java:837-849 | without drain-after-N nothing changes; with it the remaining count drops by one and reaching zero or below starts a drain |
| LocalNodeSpec.Put | java/src/org/openqa/selenium/grid/node/local/LocalNode.java:421 | the id maps to the new slot; a fresh id changes nothing else; an id already held is replaced, so its old slot goes through the removal listener as an explicit removal: it becomes Available, is stopped without a DELETE, and counts down the pending sessions while draining |
| LocalNodeSpec.DiffersAt | java/src/org/openqa/selenium/grid/node/local/LocalNode.java:722-724 | a key that differs from a prefix at some position does not start with it |
| LocalNodeSpec.NotCdpKey | java/src/org/openqa/selenium/grid/node/local/LocalNode.java:722-724 | the bidi, bidiEnabled and vnc keys do not start with "se:cdp" |
| LocalNodeSpec.LaterStepsKeepCdp | java/src/org/openqa/selenium/grid/node/local/LocalNode.java:730-750 | the BiDi and VNC steps leave every "se:cdp" key as it was |
| LocalNodeSpec.CdpStep | java/src/org/openqa/selenium/grid/node/local/LocalNode.java:715-728 | when CDP is supported or requested and enabled, se:cdp is the rewritten CDP path; otherwise no "se:cdp" key survives and se:cdpEnabled is false |
| LocalNodeSpec.Rewrite | java/src/org/openqa/selenium/grid/node/local/LocalNode.java:755-765 | definition: a ws URI, or wss for an https grid, on the grid's authority with the given path |
| LocalNodeSpec.WithCdp | java/src/org/openqa/selenium/grid/node/local/LocalNode.java:715-728 | definition of the CDP step; `CdpStep` states its result |
| LocalNodeSpec.BidiStep | java/src/org/openqa/selenium/grid/node/local/LocalNode.java:730-743 | the BiDi endpoint is advertised exactly when BiDi is enabled and supported or already named; otherwise every "se:bidi" key goes and se:bidiEnabled is false; keys outside "se:" pass through |
| LocalNodeSpec.WithBidi | java/src/org/openqa/selenium/grid/node/local/LocalNode.java:730-743 | definition of the BiDi step; `BidiStep` states its result |
| LocalNodeSpec.WithVnc | java/src/org/openqa/selenium/grid/node/local/LocalNode.java:745-750 | se:vnc is set to the rewritten VNC path exactly when se:vncLocalAddress is present; every other key is kept |
| LocalNodeSpec.ExternalCapabilities | java/src/org/openqa/selenium/grid/node/local/LocalNode.java:705-750 | definition: the merged capabilities passed through the CDP, BiDi and VNC steps; `ExternalCapabilitiesCdp` and `LaterStepsKeepCdp` state its result |
| LocalNodeSpec.ExternalCapabilitiesCdp | java/src/org/openqa/selenium/grid/node/local/LocalNode.java:705-769 | the capabilities of the returned session carry the CDP endpoint exactly when CDP is supported or asked for and enabled, and carry no other "se:cdp" key otherwise |
| LocalNodeSpec.ExternalSession | java/src/org/openqa/selenium/grid/node/local/LocalNode.java:705-753 | the returned session keeps the session id, the node's external URI and the slot's stereotype |
| LocalNodeSpec.NewSession | java/src/org/openqa/selenium/grid/node/local/LocalNode.java:353-459 | capacity is checked first and then draining, each a retryable error with the state unchanged; no fitting slot is a retryable error with the state unchanged; a failed apply leaves the slots and the table as they were and returns the slot's error; a success maps the new id to the first fitting slot |
| LocalNodeSpec.Attempt | java/src/org/openqa/selenium/grid/node/local/LocalNode.java:412-457 | a failed apply releases the reservation and returns the slot's error unchanged; a success stores the session in the slot, records it and runs the drain-after-N check |
| LocalNodeSpec.NewSessionChangesOneSlot | java/src/org/openqa/selenium/grid/node/local/LocalNode.java:383-457 | a new-session request changes at most one slot, and a success changes exactly the first fitting one |
| LocalNodeSpec.RemoveSessionValid | java/src/org/openqa/selenium/grid/node/local/LocalNode.java:250-278 | removal keeps the node invariant |
| LocalNodeSpec.DrainValid | java/src/org/openqa/selenium/grid/node/local/LocalNode.java:825-835 | drain keeps the node invariant |
| LocalNodeSpec.CheckSessionCountValid | java/src/org/openqa/selenium/grid/node/local/LocalNode.java:837-849 | the drain-after-N check keeps the node invariant |
| LocalNodeSpec.StoreFreshValid | java/src/org/openqa/selenium/grid/node/local/LocalNode.java:414-423 | storing a session with a fresh id in a reserved slot keeps the invariant |
| LocalNodeSpec.StoreReplacingValid | java/src/org/openqa/selenium/grid/node/local/LocalNode.java:414-423 | storing a session whose id is already present keeps the invariant |
| LocalNodeSpec.ReplacingCounts | java/src/org/openqa/selenium/grid/node/local/LocalNode.java:414-423 | re-storing an id already held elsewhere keeps the session count equal to the number of busy slots |
| LocalNodeSpec.ReplacingLinks | java/src/org/openqa/selenium/grid/node/local/LocalNode.java:414-423 | re-storing an id already held elsewhere keeps every id pointing at the running slot that holds it, and every running slot listed under its id |
| LocalNodeSpec.NewSessionValid | java/src/org/openqa/selenium/grid/node/local/LocalNode.java:353-459 | every new-session outcome keeps the invariant |
| LocalNodeSpec.Stop | java/src/org/openqa/selenium/grid/node/local/LocalNode.java:667-677 | an unknown id is NoSuchSession with the state unchanged; a known id is removed without eviction |
| LocalNodeSpec.Evict | java/src/org/openqa/selenium/grid/node/local/LocalNode.java:250-266 | an unknown id changes nothing; a known id is removed as an eviction |
| LocalNodeSpec.StopValid | java/src/org/openqa/selenium/grid/node/local/LocalNode.java:667-677 | stop keeps the invariant |
| LocalNodeSpec.EvictValid | java/src/org/openqa/selenium/grid/node/local/LocalNode.java:250-266 | eviction keeps the invariant |
| LocalNodeSpec.ExecuteCommand | java/src/org/openqa/selenium/grid/node/local/LocalNode.java:544-559 | no id in the URI, or an unknown id, is NoSuchSession with the state unchanged; otherwise the request goes to the session's slot, and a DELETE of exactly /session/<id> then stops the session |
| LocalNodeSpec.ExecuteCommandValid | java/src/org/openqa/selenium/grid/node/local/LocalNode.java:544-559 | command execution keeps the invariant |
| LocalNodeSpec.UnsupportedNeverFits | java/src/org/openqa/selenium/grid/node/local/LocalNode.java:347-402 | capabilities no slot supports get the retryable "No slot matched" error with the state unchanged |
| LocalNodeSpec.IsSupporting | java/src/org/openqa/selenium/grid/node/local/LocalNode.java:348-350 | definition: some configured slot's test accepts the capabilities; `UnsupportedNeverFits` and `StatusHasCapability` state what follows from it |
| LocalNodeSpec.FirstRelay | java/src/org/openqa/selenium/grid/node/local/LocalNode.java:800-803 | the first slot with a relay factory, or none when no slot has one |
| LocalNodeSpec.StatusAvailability | java/src/org/openqa/selenium/grid/node/local/LocalNode.java:798-806 | DOWN exactly when the first relay slot's service is down; otherwise DRAINING exactly when draining, else UP |
| LocalNodeSpec.SlotSummary | java/src/org/openqa/selenium/grid/node/local/LocalNode.java:773-795 | a slot reports a session exactly when it is not available, with that session's start time; otherwise lastStarted is the epoch |
| LocalNodeSpec.StatusSlots | java/src/org/openqa/selenium/grid/node/local/LocalNode.java:773-795 | definition: the summaries of all slots; `SummaryFreeIffAvailable` and the status lemmas state their meaning |
| LocalNodeSpec.CountBusyBelowLength | java/src/org/openqa/selenium/grid/node/local/LocalNode.java:773-795 | fewer used slots than slots exactly when some slot is available |
| LocalNodeSpec.SummaryFreeIffAvailable | java/src/org/openqa/selenium/grid/node/local/LocalNode.java:773-795 | in a valid state, a slot's summary has no session exactly when the slot is available |
| LocalNodeSpec.StatusHasCapacity | java/server/src/org/openqa/selenium/grid/data/NodeStatus.java:148-150 | on the status getStatus reports for a valid state, hasCapacity() holds exactly when fewer slots are used than the node has |
| LocalNodeSpec.StatusHasCapability | java/server/src/org/openqa/selenium/grid/data/NodeStatus.java:144-146 | on that status, with slots supporting capabilities as the node's slot test does, hasCapability(caps) is exactly isSupporting(caps) |
| LocalNodeSpec.StatusHasCapacityFor | java/server/src/org/openqa/selenium/grid/data/NodeStatus.java:152-155 | on that status, hasCapacity(caps) holds exactly when the node's first-fit scan finds a slot for caps |
| LocalNodeSpec.FreshSingleSlotNode | java/src/org/openqa/selenium/grid/node/local/LocalNode.java:173-174 | a new one-slot node reports 1 maximum session, 1 total slot, 0 used slots and UP |
| LocalNode.LocalNode.constructor | java/src/org/openqa/selenium/grid/node/local/LocalNode.java:150-180 | the new node is in the initial state and satisfies the invariant |
| LocalNode.LocalNode.Build | java/src/org/openqa/selenium/grid/node/local/LocalNode.java:173-174 | a non-positive configured maximum is refused; otherwise the node is built with the effective maximum |
| LocalNode.LocalNode.CurrentSessionCount | java/src/org/openqa/selenium/grid/node/local/LocalNode.java:296-299 | under the invariant, the session count equals the used-slot count and is at most the maximum |
| LocalNode.LocalNode.UsedSlots | java/src/org/openqa/selenium/grid/node/local/LocalNode.java:322-324 | the used-slot count is at most the number of slots |
| LocalNode.LocalNode.Availability | java/src/org/openqa/selenium/grid/node/local/LocalNode.java:312-314 | DRAINING exactly when draining, never DOWN |
| LocalNode.LocalNode.GetSession | java/src/org/openqa/selenium/grid/node/local/LocalNode.java:517-531 | an error exactly when the node does not own the id; otherwise the external session built from the owning slot |
| LocalNode.LocalNode.IsSessionOwner | java/src/org/openqa/selenium/grid/node/local/LocalNode.java:511-514 | definition: the id is one of the current sessions; `GetSession` refuses exactly the ids it rejects |
| LocalNode.LocalNode.FindFirstFit | java/src/org/openqa/selenium/grid/node/local/LocalNode.java:383-394 | the loop finds the first fitting slot, or reports that none fits |
| LocalNode.LocalNode.Release | java/src/org/openqa/selenium/grid/node/local/LocalNode.java:250-278 | the new state is the removal-listener state |
| LocalNode.LocalNode.Drain | java/src/org/openqa/selenium/grid/node/local/LocalNode.java:825-835 | the new state is the drained state |
| LocalNode.LocalNode.CheckSessionCount | java/src/org/openqa/selenium/grid/node/local/LocalNode.java:837-849 | the new state is the state after the drain-after-N check |
| LocalNode.LocalNode.Reserve | java/src/org/openqa/selenium/grid/node/local/LocalNode.java:390 | only the chosen slot changes, to Reserved |
| LocalNode.LocalNode.Store | java/src/org/openqa/selenium/grid/node/local/LocalNode.java:414-421 | the slot holds the session and the table maps its id to the slot |
| LocalNode.LocalNode.Attempt | java/src/org/openqa/selenium/grid/node/local/LocalNode.java:412-457 | state and result match the attempt specification |
| LocalNode.LocalNode.NewSession | java/src/org/openqa/selenium/grid/node/local/LocalNode.java:353-459 | the invariant is kept and state and result match the new-session specification |
| LocalNode.LocalNode.RemoveSession | java/src/org/openqa/selenium/grid/node/local/LocalNode.java:250-278 | the invariant is kept and the state matches the removal specification |
| LocalNode.LocalNode.Stop | java/src/org/openqa/selenium/grid/node/local/LocalNode.java:667-677 | the invariant is kept and state and result match the stop specification |
| LocalNode.LocalNode.Evict | java/src/org/openqa/selenium/grid/node/local/LocalNode.java:250-266 | the invariant is kept and the state matches the eviction specification |
| LocalNode.LocalNode.ExecuteWebDriverCommand | java/src/org/openqa/selenium/grid/node/local/LocalNode.java:544-559 | the invariant is kept and state and result match the command specification |
| LocalNode.LocalNode.StopAllSessions | java/src/org/openqa/selenium/grid/node/local/LocalNode.java:698-703 | the invariant is kept, the removal order covers every session exactly once, and the new state is StoppedAll of the old state in that order |
| LocalNode.LocalNode.GetStatus | java/src/org/openqa/selenium/grid/node/local/LocalNode.java:772-817 | the status is refused exactly when the maximum is 0; otherwise it carries the node's id, URI and maximum, one summary per slot, the status availability, the heartbeat period, version and OS information, and the time |
| GridData.ConstructorCheck | java/server/src/org/openqa/selenium/grid/data/NodeStatus.java:60-79 | no error exactly when every field is present and maxSessionCount is positive; the first failing check names its field |
| GridData.ReadEntry | java/server/src/org/openqa/selenium/grid/data/NodeStatus.java:81-142 | an unknown key leaves the fields as they were; only "maxSessions" changes the maximum; what each known key writes is stated by `GridData.LastOccurrenceWins` |
| GridData.ReadEntriesAppend | java/server/src/org/openqa/selenium/grid/data/NodeStatus.java:92-130 | reading a + b is reading a and then b from its result |
| GridData.UnknownKeySkipped | java/server/src/org/openqa/selenium/grid/data/NodeStatus.java:126-128 | an entry with an unknown key can be removed without changing the result |
| GridData.MaxSessionsUntouched | java/server/src/org/openqa/selenium/grid/data/NodeStatus.java:81-142 | entries without "maxSessions" keep the maximum |
| GridData.LastMaxSessionsWins | java/server/src/org/openqa/selenium/grid/data/NodeStatus.java:81-142 | the last "maxSessions" entry decides the maximum |
| GridData.ReadEntryKeeps | java/server/src/org/openqa/selenium/grid/data/NodeStatus.java:92-130 | an entry of one name leaves the local of every other name as it was |
| GridData.OtherNamesKeep | java/server/src/org/openqa/selenium/grid/data/NodeStatus.java:88-131 | entries none of which has a given name leave that name's local as it was |
| GridData.LastOccurrenceWins | java/server/src/org/openqa/selenium/grid/data/NodeStatus.java:88-131 | for each of the eight known keys, the last entry of that name decides its local, whatever came before: the availability, node id, external URI and version are what reading that value gives, the heartbeat period and maximum are its number, and the slots and OS info are its value or null |
| GridData.MissingMaxSessionsRefused | java/server/src/org/openqa/selenium/grid/data/NodeStatus.java:81-142 | with no "maxSessions" entry the maximum stays 0 and the constructor refuses it |
| GridData.ReadEntries | java/server/src/org/openqa/selenium/grid/data/NodeStatus.java:92-130 | definition: the entries read in order, stopping at the first failure; `ReadEntriesAppend` and the lemmas below state its result |
| GridData.ParseFields | java/server/src/org/openqa/selenium/grid/data/NodeStatus.java:81-142 | definition: reading from the all-unset fields; `NodeStatus.FromJson` states the result |
| GridData.NodeStatus.HasCapability | java/server/src/org/openqa/selenium/grid/data/NodeStatus.java:144-146 | definition: some slot supports the capabilities; `LocalNodeSpec.StatusHasCapability` states what it means for a node's status |
| GridData.NodeStatus.HasCapacity | java/server/src/org/openqa/selenium/grid/data/NodeStatus.java:148-150 | definition: some slot runs no session; `LocalNodeSpec.StatusHasCapacity` states what it means for a node's status |
| GridData.NodeStatus.constructor | java/server/src/org/openqa/selenium/grid/data/NodeStatus.java:60-79 | every field holds the argument given |
| GridData.NodeStatus.Create | java/server/src/org/openqa/selenium/grid/data/NodeStatus.java:60-79 | the status is refused exactly when a check fails, with that check's error |
| GridData.NodeStatus.FromJson | java/server/src/org/openqa/selenium/grid/data/NodeStatus.java:81-142 | a read error is returned as is; a failed constructor check is returned as its error; otherwise every field of the new status is the read local (unwrapped) and `touched` is the clock reading |
| GridData.NodeStatus.HasCapacityFor | java/server/src/org/openqa/selenium/grid/data/NodeStatus.java:152-155 | capacity for given capabilities implies both the capability and free capacity |
| GridData.NodeStatus.LastSessionCreated | java/server/src/org/openqa/selenium/grid/data/NodeStatus.java:237-243 | 0 with no slots, else the largest lastStarted of the slots |
| GridData.MaxLastStarted | java/server/src/org/openqa/selenium/grid/data/NodeStatus.java:237-243 | the largest lastStarted of a slot set, attained by some slot |
| GridData.NodeStatus.Touch | java/server/src/org/openqa/selenium/grid/data/NodeStatus.java:249-251 | only the touched time changes |
| GridData.NodeStatus.SetMaxSessionCount | java/server/src/org/openqa/selenium/grid/data/NodeStatus.java:161-163 | only the maximum changes |
| GridData.NodeStatus.SetSlots | java/server/src/org/openqa/selenium/grid/data/NodeStatus.java:185-187 | only the slots change |
| GridData.NodeStatus.SetAvailability | java/server/src/org/openqa/selenium/grid/data/NodeStatus.java:193-195 | only the availability changes |
| GridData.NodeStatus.SetVersion | java/server/src/org/openqa/selenium/grid/data/NodeStatus.java:209-211 | only the version changes |
| GridData.EqualsAgreesWithHash | java/server/src/org/openqa/selenium/grid/data/NodeStatus.java:257-275 | equal statuses have equal hash inputs |
| GridData.NodeStatus.Equals | java/server/src/org/openqa/selenium/grid/data/NodeStatus.java:258-270 | definition: node id, URI, maximum, slots, availability and version all equal; `EqualsAgreesWithHash` states its agreement with the hash |
| GridData.NodeStatus.HashInputs | java/server/src/org/openqa/selenium/grid/data/NodeStatus.java:273-275 | definition: the five fields `hashCode` combines, availability not among them |
| GridData.CapacityForIsStronger | java/server/src/org/openqa/selenium/grid/data/NodeStatus.java:144-155 | a node with one busy supporting slot and one free non-supporting slot has the capability and capacity, but no capacity for those capabilities |
| GraphqlGrid.NodeSlots | java/server/src/org/openqa/selenium/grid/graphql/Grid.java:71-74 | a node's slots are the smaller of its maximum and its stereotype count |
| GraphqlGrid.TotalSlots | java/server/src/org/openqa/selenium/grid/graphql/Grid.java:69-77 | definition: the sum of the per-node slots; `TotalSlotsBounded` and `TotalSlotsAppend` state its bounds and additivity |
| GraphqlGrid.UsedSlots | java/server/src/org/openqa/selenium/grid/graphql/Grid.java:79-84 | definition: the sum of the used stereotype counts; `TotalSlotsAppend` states its additivity |
| GraphqlGrid.ToGraphNode | java/server/src/org/openqa/selenium/grid/graphql/Grid.java:51-58 | definition: id, URI, up flag, maximum and stereotypes copied from the summary |
| GraphqlGrid.TotalSlotsBounded | java/server/src/org/openqa/selenium/grid/graphql/Grid.java:69-77 | total slots are at most the sum of the maxima and at most the sum of the stereotype counts |
| GraphqlGrid.TotalSlotsAppend | java/server/src/org/openqa/selenium/grid/graphql/Grid.java:69-84 | total and used slots add up over concatenated node lists |
| GraphqlGrid.Grid.constructor | java/server/src/org/openqa/selenium/grid/graphql/Grid.java:39-45 | the URI and the session count are stored and nothing is fetched yet |
| GraphqlGrid.Grid.Build | java/server/src/org/openqa/selenium/grid/graphql/Grid.java:39-45 | a missing distributor or URI is refused; otherwise the grid is built |
| GraphqlGrid.Grid.Status | java/server/src/org/openqa/selenium/grid/graphql/Grid.java:44 | the first call fetches and keeps the snapshot; later calls return the kept one |
| GraphqlGrid.Grid.GetNodes | java/server/src/org/openqa/selenium/grid/graphql/Grid.java:51-59 | one node per summary of the snapshot, in order |
| GraphqlGrid.Grid.GetTotalSlots | java/server/src/org/openqa/selenium/grid/graphql/Grid.java:69-77 | the total over the kept snapshot |
| GraphqlGrid.Grid.GetUsedSlots | java/server/src/org/openqa/selenium/grid/graphql/Grid.java:79-84 | the used count over the kept snapshot |
| GraphqlGrid.SameSnapshot | java/server/src/org/openqa/selenium/grid/graphql/Grid.java:44 | getters called against different distributor states all read the first snapshot |
| HubStatusServlet.KeyExcludedOnlyByList | java/server/src/org/openqa/grid/web/servlet/HubStatusServlet.java:181-183 | a key is excluded exactly when the list is given, non-empty and lacks it |
| HubStatusServlet.IsKeyPresentIn | java/server/src/org/openqa/grid/web/servlet/HubStatusServlet.java:181-183 | definition: no list or an empty one selects every key; `KeyExcludedOnlyByList` states when a key is excluded |
| HubStatusServlet.JavaSplit | java/server/src/org/openqa/grid/web/servlet/HubStatusServlet.java:125 | the pieces hold no separator, trailing empty pieces are dropped, and a text without separator is one piece |
| HubStatusServlet.DropTrailingEmpty | java/server/src/org/openqa/grid/web/servlet/HubStatusServlet.java:125 | a prefix of the pieces that ends in a non-empty piece, with only empty pieces dropped |
| HubStatusServlet.JavaSplitRejoins | java/server/src/org/openqa/grid/web/servlet/HubStatusServlet.java:125 | the names are the plain split with only empty pieces dropped from its end, and the plain split joins back to the text |
| HubStatusServlet.LoneCommaSelectsAll | java/server/src/org/openqa/grid/web/servlet/HubStatusServlet.java:124-125 | the parameter "," splits to an empty list, which selects every key |
| HubStatusServlet.KeysToReturn | java/server/src/org/openqa/grid/web/servlet/HubStatusServlet.java:122-129 | a non-empty parameter is split on commas; the only error is a body field that is not a list |
| HubStatusServlet.ParameterWins | java/server/src/org/openqa/grid/web/servlet/HubStatusServlet.java:124-129 | a non-empty parameter makes the body irrelevant |
| HubStatusServlet.ProxySlots | java/server/src/org/openqa/grid/web/servlet/HubStatusServlet.java:162 | a proxy contributes the smaller of its concurrency limit and its slot count |
| HubStatusServlet.TotalSlots | java/server/src/org/openqa/grid/web/servlet/HubStatusServlet.java:157-169 | definition: the sum of the proxies' slot contributions; `TotalAtMostSlotCount` bounds it |
| HubStatusServlet.UsedSlots | java/server/src/org/openqa/grid/web/servlet/HubStatusServlet.java:157-169 | definition: the sum of the proxies' used counts; `GetSlotCounts` computes it |
| HubStatusServlet.SlotCount | java/server/src/org/openqa/grid/web/servlet/HubStatusServlet.java:157-169 | definition: the number of slots over all proxies |
| HubStatusServlet.GetSlotCounts | java/server/src/org/openqa/grid/web/servlet/HubStatusServlet.java:157-169 | the loop returns the total and the free count, which is total minus used |
| HubStatusServlet.TotalAtMostSlotCount | java/server/src/org/openqa/grid/web/servlet/HubStatusServlet.java:157-169 | the total never exceeds the number of slots |
| HubStatusServlet.CountBrowser | java/server/src/org/openqa/grid/web/servlet/HubStatusServlet.java:209-216 | a per-browser count is at most the number of slots |
| HubStatusServlet.CountedSlot | java/server/src/org/openqa/grid/web/servlet/HubStatusServlet.java:197-207 | a browser with a slot has a positive total |
| HubStatusServlet.BusyPlusFree | java/server/src/org/openqa/grid/web/servlet/HubStatusServlet.java:209-223 | per browser, total equals busy plus free |
| HubStatusServlet.FreeCount | java/server/src/org/openqa/grid/web/servlet/HubStatusServlet.java:209-223 | definition: the slots for the browser that run no session; `BusyPlusFree` states total = busy + free |
| HubStatusServlet.BrowsersOf | java/server/src/org/openqa/grid/web/servlet/HubStatusServlet.java:197-227 | a NullPointer failure exactly when some slot has no browser name; otherwise an entry for exactly the named browsers |
| HubStatusServlet.NodesInfo | java/server/src/org/openqa/grid/web/servlet/HubStatusServlet.java:185-195 | one entry per proxy, or NullPointer exactly when some proxy's browsers fail |
| HubStatusServlet.SelectedConfig | java/server/src/org/openqa/grid/web/servlet/HubStatusServlet.java:133-137 | exactly the configuration keys the list selects, with their values |
| HubStatusServlet.PutSelectedConfig | java/server/src/org/openqa/grid/web/servlet/HubStatusServlet.java:133-137 | the loop adds the selected configuration to the map |
| HubStatusServlet.GetResponse | java/server/src/org/openqa/grid/web/servlet/HubStatusServlet.java:115-155 | a key-list error becomes success=false with its message; otherwise the answer for the selected keys |
| HubStatusServlet.Answer | java/server/src/org/openqa/grid/web/servlet/HubStatusServlet.java:118-152 | "success" is always present, and it is false exactly when "nodes" is named and listing the nodes fails |
| HubStatusServlet.WithCounts | java/server/src/org/openqa/grid/web/servlet/HubStatusServlet.java:138-144 | the request count and the slot counts, free being total minus used, are added exactly when selected; every other entry keeps its value |
| HubStatusServlet.WithNodes | java/server/src/org/openqa/grid/web/servlet/HubStatusServlet.java:145-152 | nothing changes unless "nodes" is named; then the node list is added, or success=false with the failure as msg; every other entry keeps its value |
| HubStatusServlet.NodesOnlyWhenNamed | java/server/src/org/openqa/grid/web/servlet/HubStatusServlet.java:118-147 | success is true and msg absent when nothing fails; "nodes" appears only when explicitly listed |
| HubStatusServlet.EverythingByDefault | java/server/src/org/openqa/grid/web/servlet/HubStatusServlet.java:133-144 | without a key list, the whole configuration and the slot counts are returned |
| HubStatusServlet.SelectedConfigKept | java/server/src/org/openqa/grid/web/servlet/HubStatusServlet.java:133-137 | a selected configuration key keeps its value in the answer |
| HubStatusServlet.FailureKeepsEarlierEntries | java/server/src/org/openqa/grid/web/servlet/HubStatusServlet.java:145-152 | a failing node listing sets success=false and msg, and keeps the entries added before it |
| Prioritizer.Compare | java/server/test/org/openqa/grid/e2e/misc/WebDriverPriorityDemo.java:68-83 | 0 exactly when both have the same importance; -1 exactly when only the first is important; 1 exactly when only the second is |
| Prioritizer.Antisymmetric | java/server/test/org/openqa/grid/e2e/misc/WebDriverPriorityDemo.java:67-84 | compare(a, b) == -compare(b, a) |
| Prioritizer.Transitive | java/server/test/org/openqa/grid/e2e/misc/WebDriverPriorityDemo.java:67-84 | the order is transitive, strictly when one step is strict |
| Prioritizer.ZeroIsEquivalence | java/server/test/org/openqa/grid/e2e/misc/WebDriverPriorityDemo.java:75-77 | requests that compare equal compare alike against every third request |
| Prioritizer.Next | java/server/test/org/openqa/grid/e2e/misc/WebDriverPriorityDemo.java:163-191 | the served request is minimal in the order and the first such in the queue |
| Prioritizer.NextIsImportantIff | java/server/test/org/openqa/grid/e2e/misc/WebDriverPriorityDemo.java:163-191 | an important request is served exactly when one is queued |
| Prioritizer.Serve | java/server/test/org/openqa/grid/e2e/misc/WebDriverPriorityDemo.java:163-191 | the queue loses exactly the served request |
| Prioritizer.DemoQueue | java/server/test/org/openqa/grid/e2e/misc/WebDriverPriorityDemo.java:99-161 | the demo queues eleven requests |
| Prioritizer.NextIsFirstImportant | java/server/test/org/openqa/grid/e2e/misc/WebDriverPriorityDemo.java:163-191 | the first important request is served |
| Prioritizer.ImportantIsFlagged | java/server/test/org/openqa/grid/e2e/misc/WebDriverPriorityDemo.java:69-74 | only an "_important" value reading as true counts as important; a missing one does not |
| Prioritizer.ParseBoolean | java/server/test/org/openqa/grid/e2e/misc/WebDriverPriorityDemo.java:70-71 | definition: "true" in any letter case |
| Prioritizer.IsImportant | java/server/test/org/openqa/grid/e2e/misc/WebDriverPriorityDemo.java:69-74 | definition: an "_important" entry that parses as true; a missing one is false |
| Prioritizer.AnyImportant | java/server/test/org/openqa/grid/e2e/misc/WebDriverPriorityDemo.java:163-191 | definition: some queued request is important; `NextIsImportantIff` states its role |
| Prioritizer.ServesTheSixth | java/server/test/org/openqa/grid/e2e/misc/WebDriverPriorityDemo.java:163-191 | with the important request sixth among eleven, it is served and ten plain ones remain |
| Prioritizer.DemoServesImportantFirst | java/server/test/org/openqa/grid/e2e/misc/WebDriverPriorityDemo.java:163-191 | on the demo's queue, index 5 is served and ten plain requests remain |
| DriverFactory.LastEligible | java/server/src/org/openqa/selenium/remote/server/DefaultDriverFactory.java:102-112 | the last eligible provider for given capabilities, or none when no provider is eligible |
| DriverFactory.PlatformMatches | java/server/src/org/openqa/selenium/remote/server/DefaultDriverFactory.java:134-138 | definition: no platform, ANY, or a platform the current one is; `UnnamedPlatformAlwaysMatches` states the first two |
| DriverFactory.Register | java/server/src/org/openqa/selenium/remote/server/DefaultDriverFactory.java:70-76 | the provider's capabilities become a key exactly when it can create instances, and then map to it; every other key keeps its provider |
| DriverFactory.RegisterOn | java/server/src/org/openqa/selenium/remote/server/DefaultDriverFactory.java:114-132 | definition: a platform mismatch skips the provider, otherwise it is registered |
| DriverFactory.RegisterAll | java/server/src/org/openqa/selenium/remote/server/DefaultDriverFactory.java:102-112 | definition: the providers registered in order; `RegisterAllLastWins` and `RegisterAllAppend` state its result |
| DriverFactory.RegisterReplacesOrSkips | java/server/src/org/openqa/selenium/remote/server/DefaultDriverFactory.java:70-76 | a provider that cannot create instances leaves the map unchanged; one that can is stored under its capabilities; a later one with equal capabilities replaces it |
| DriverFactory.RegisterAllLastWins | java/server/src/org/openqa/selenium/remote/server/DefaultDriverFactory.java:102-112 | after registering a list, each key maps to the last eligible provider for it |
| DriverFactory.IneligibleLeaveMapUnchanged | java/server/src/org/openqa/selenium/remote/server/DefaultDriverFactory.java:114-122 | providers on other platforms, or unable to create instances, leave the map unchanged |
| DriverFactory.RegisterAllAppend | java/server/src/org/openqa/selenium/remote/server/DefaultDriverFactory.java:65-68 | registering defaults and then service-loaded providers is registering their concatenation |
| DriverFactory.UnnamedPlatformAlwaysMatches | java/server/src/org/openqa/selenium/remote/server/DefaultDriverFactory.java:134-138 | a provider with no platform, or platform ANY, is registered whatever the current platform |
| DriverFactory.DefaultDriverFactory.constructor | java/server/src/org/openqa/selenium/remote/server/DefaultDriverFactory.java:65-68 | the map holds the defaults and then the service-loaded providers, registered in order |
| DriverFactory.DefaultDriverFactory.RegisterDriverProvider | java/server/src/org/openqa/selenium/remote/server/DefaultDriverFactory.java:70-76 | the map is the registration of the provider |
| DriverFactory.DefaultDriverFactory.RegisterOnPlatform | java/server/src/org/openqa/selenium/remote/server/DefaultDriverFactory.java:114-132 | the map is the platform-checked registration |
| DriverFactory.DefaultDriverFactory.RegisterEach | java/server/src/org/openqa/selenium/remote/server/DefaultDriverFactory.java:102-112 | the loop registers each provider in order |
| DriverFactory.DefaultDriverFactory.GetProviderMatching | java/server/src/org/openqa/selenium/remote/server/DefaultDriverFactory.java:79-86 | an illegal-state error exactly when nothing is registered; otherwise the provider stored under the best match |
| DriverFactory.DefaultDriverFactory.NewInstance | java/server/src/org/openqa/selenium/remote/server/DefaultDriverFactory.java:88-96 | an empty registry is illegal state; a best match that is not a key is an error; a provider that cannot serve the capabilities is an error; otherwise a driver on the capabilities by that provider |
| DriverFactory.StartUpMapping | java/server/src/org/openqa/selenium/remote/server/DefaultDriverFactory.java:65-100 | after construction, a mapping exists for capabilities exactly when some eligible provider offers them, and it is the last such |
| DriverFactory.DefaultDriverFactory.HasMappingFor | java/server/src/org/openqa/selenium/remote/server/DefaultDriverFactory.java:98-100 | definition: exactly the registered capabilities; `StartUpMapping` states which those are after start-up |
| SessionMapOptions.GetSessionMapUri | java/server/src/org/openqa/selenium/grid/sessionmap/config/SessionMapOptions.java:41-76 | a host is parsed, and an unparseable one is a ConfigException; without a host, a missing port or hostname is a ConfigException; otherwise the seven-argument constructor is called with "http", null, the hostname, the port, "", null, null |
| SessionMapOptions.HostWins | java/server/src/org/openqa/selenium/grid/sessionmap/config/SessionMapOptions.java:42-52 | with a host configured, hostname and port do not matter |
| SessionMapOptions.HostnameAndPort | java/server/src/org/openqa/selenium/grid/sessionmap/config/SessionMapOptions.java:54-75 | without a host, the URI is composed exactly when both hostname and port are given and the constructor accepts them; for a constructor that keeps its components, the result is http on that host and port with no user info, an empty path and no query or fragment |
| SessionMapOptions.KeepsComponents | java/server/src/org/openqa/selenium/grid/sessionmap/config/SessionMapOptions.java:61-69 | definition: what the seven-argument `URI` constructor promises, that an accepted URI holds exactly the components given; it says nothing about which arguments this code passes |
| ErrorHandler.ClassifyFromFirstMatch | py/selenium/webdriver/remote/errorhandler.py:142-205 | the first rule, from a position, whose code tuple holds the status decides the class |
| ErrorHandler.ClassifyFrom | py/selenium/webdriver/remote/errorhandler.py:142-205 | definition: the chain from a given branch on; `ClassifyFromFirstMatch` and `ClassifyFromUnlisted` state its result |
| ErrorHandler.Classify | py/selenium/webdriver/remote/errorhandler.py:142-205 | definition: the whole chain; `ClassifyIsFirstMatch` states its result |
| ErrorHandler.ClassifyFromUnlisted | py/selenium/webdriver/remote/errorhandler.py:142-205 | a status in no later tuple gives WebDriverException |
| ErrorHandler.ClassifyIsFirstMatch | py/selenium/webdriver/remote/errorhandler.py:142-205 | the class is that of the first rule listing the status, else WebDriverException |
| ErrorHandler.NoSuchElementCodes | py/selenium/webdriver/remote/errorhandler.py:142-143 | 7 and 'no such element' both give NoSuchElementException |
| ErrorHandler.SelectorCodes | py/selenium/webdriver/remote/errorhandler.py:156-159 | 'invalid selector', 32, 51 and 52 give InvalidSelectorException |
| ErrorHandler.SelectorCode | py/selenium/webdriver/remote/errorhandler.py:156-159 | any status in the two selector tuples, and in no earlier one, gives InvalidSelectorException |
| ErrorHandler.SelectorString | py/selenium/webdriver/remote/errorhandler.py:156-159 | 'invalid selector' gives InvalidSelectorException |
| ErrorHandler.SelectorLegacyCode | py/selenium/webdriver/remote/errorhandler.py:156-159 | 32 gives InvalidSelectorException |
| ErrorHandler.XPathSelectorCodes | py/selenium/webdriver/remote/errorhandler.py:156-159 | 51 and 52 give InvalidSelectorException |
| ErrorHandler.TimeoutCodes | py/selenium/webdriver/remote/errorhandler.py:168-171 | 21 and 28 both give TimeoutException |
| ErrorHandler.PageLoadTimeoutCode | py/selenium/webdriver/remote/errorhandler.py:168-169 | 21 gives TimeoutException |
| ErrorHandler.ScriptTimeoutCode | py/selenium/webdriver/remote/errorhandler.py:170-171 | 28 gives TimeoutException, through the second timeout branch |
| ErrorHandler.UncheckedXPathLookupCode | py/selenium/webdriver/remote/errorhandler.py:204-205 | 19 is in no checked tuple and gives WebDriverException |
| ErrorHandler.UncheckedCommandCodes | py/selenium/webdriver/remote/errorhandler.py:204-205 | 9 and 405 are in no checked tuple and give WebDriverException |
| ErrorHandler.UncheckedUnknownCommandCode | py/selenium/webdriver/remote/errorhandler.py:204-205 | 9 is in no checked tuple and gives WebDriverException |
| ErrorHandler.UncheckedMethodNotAllowedCode | py/selenium/webdriver/remote/errorhandler.py:204-205 | 405 is in no checked tuple and gives WebDriverException |
| ErrorHandler.ValueOrDefault | py/selenium/webdriver/remote/errorhandler.py:247-248 | on a dict, the value under the key if present, else the default |
| ErrorHandler.ValueOrDefaultOnDict | py/selenium/webdriver/remote/errorhandler.py:247-248 | the value for a present key and the default for an absent one |
| ErrorHandler.FrameDefaults | py/selenium/webdriver/remote/errorhandler.py:225-235 | a frame with no entries reads "    at <anonymous> (<anonymous>)" |
| ErrorHandler.FormatFrame | py/selenium/webdriver/remote/errorhandler.py:225-235 | definition: the lookups with their defaults and the "    at " line; `FormatFrameShape`, `FrameDefaults` and the frame lemmas state its result |
| ErrorHandler.FormatFrameShape | py/selenium/webdriver/remote/errorhandler.py:225-235 | a dict frame always formats; a formatted frame starts with "    at " and ends with ")" |
| ErrorHandler.Get | py/selenium/webdriver/remote/errorhandler.py:116-137 | `d.get(k, default)`: a value stored under the key when present, else the default |
| ErrorHandler.FrameWithoutKeys | py/selenium/webdriver/remote/errorhandler.py:225-235 | a dict frame holding none of the four keys formats with both defaults |
| ErrorHandler.FrameAllParts | py/selenium/webdriver/remote/errorhandler.py:225-235 | a full frame reads "    at Class.method (file:line)" |
| ErrorHandler.FrameWithAllKeys | py/selenium/webdriver/remote/errorhandler.py:225-235 | a dict frame holding all four keys, with a truthy line, shows class, method, file and line |
| ErrorHandler.FramesTrace | py/selenium/webdriver/remote/errorhandler.py:222-237 | no more lines than frames |
| ErrorHandler.Frames | py/selenium/webdriver/remote/errorhandler.py:222-225 | definition: what the frame loop iterates over: items of a list or tuple, keys of a dict, nothing for a non-iterable |
| ErrorHandler.FramesTraceLines | py/selenium/webdriver/remote/errorhandler.py:222-237 | one line per frame, in order, up to the first frame that cannot be formatted |
| ErrorHandler.LinesCons | py/selenium/webdriver/remote/errorhandler.py:225-235 | a formatted first frame followed by the trace of the rest keeps the trace property |
| ErrorHandler.FramesTraceStep | py/selenium/webdriver/remote/errorhandler.py:223-237 | a frame that raises ends the trace; otherwise its line comes first |
| ErrorHandler.FormatStackTrace | py/selenium/webdriver/remote/errorhandler.py:222-237 | the loop produces the frame lines |
| ErrorHandler.StackTrace | py/selenium/webdriver/remote/errorhandler.py:217-237 | no trace exactly when the stack trace is falsy; a string trace is split on newlines |
| ErrorHandler.Decode | py/selenium/webdriver/remote/errorhandler.py:119-139 | a status that is not an int keeps the response's message |
| ErrorHandler.Report | py/selenium/webdriver/remote/errorhandler.py:206-245 | always raises or crashes; a string value is raised as the message; alert text only on UnexpectedAlertPresentException |
| ErrorHandler.ReportDict | py/selenium/webdriver/remote/errorhandler.py:210-245 | for a dict value, what is raised is of the class given, and it carries alert text only for UnexpectedAlertPresentException |
| ErrorHandler.CheckResponse | py/selenium/webdriver/remote/errorhandler.py:106-245 | returns without raising exactly when the status is missing or falsy |
| ErrorHandler.StringValueRaisedAsIs | py/selenium/webdriver/remote/errorhandler.py:206-209 | a string value is the exception message, with no further parsing |
| ErrorHandler.UnparsableValueRaisedAsIs | py/selenium/webdriver/remote/errorhandler.py:121-139 | a numeric status whose value text does not parse raises that text |
| ErrorHandler.AlertTextSource | py/selenium/webdriver/remote/errorhandler.py:238-244 | the alert text comes from value['data']['text'] |
| ErrorHandler.AlertTextFallback | py/selenium/webdriver/remote/errorhandler.py:238-244 | without 'data', the alert text comes from value['alert']['text'] |
| ErrorHandler.AlertText | py/selenium/webdriver/remote/errorhandler.py:240-243 | definition: `.get('text')` on the holder, an AttributeError when the holder is not a dict |
| ErrorHandler.NonDictError | py/selenium/webdriver/remote/errorhandler.py:210-218 | definition: the first Python error a list, tuple or scalar value meets at the membership tests or `.get` |
| ErrorHandler.OtherClassesCarryNoAlert | py/selenium/webdriver/remote/errorhandler.py:238-245 | other exception classes carry no alert text |
| IeGetElementAttribute.ExecuteInternal | cpp/iedriver/CommandHandlers/GetElementAttributeCommandHandler.cpp:31-82 | a missing id, then a missing name, are invalid-argument errors with no lookup; success needs the id, the name, the browser and the element |
| IeGetElementAttribute.NoBrowserNoElementLookup | cpp/iedriver/CommandHandlers/GetElementAttributeCommandHandler.cpp:47-52 | a failed browser lookup is the browser's error and no element is looked up |
| IeGetElementAttribute.ElementFailure | cpp/iedriver/CommandHandlers/GetElementAttributeCommandHandler.cpp:74-80 | a failed element lookup answers "no such element" exactly when its status is ENOSUCHELEMENT and "stale element reference" otherwise, and no attribute is read |
| IeGetElementAttribute.AttributeOutcome | cpp/iedriver/CommandHandlers/GetElementAttributeCommandHandler.cpp:56-73 | once the element is found: a failed read answers with the read's own status code and "Unable to get attribute"; otherwise success with null when the attribute is null, else with its text; the three calls are made in order |
| ManagerFiles.KeepVersionChars | rust/src/files.rs:259-262 | only digits, '^' and '.' remain, each as many times as in the token |
| ManagerFiles.KeepVersionCharsAppend | rust/src/files.rs:259-262 | filtering a concatenation concatenates the filtered parts, so what is kept stays in its original order |
| ManagerFiles.KeepOneChar | rust/src/files.rs:259-262 | one character is kept exactly when it is a digit, '^' or '.' |
| ManagerFiles.KeepAllVersionChars | rust/src/files.rs:259-262 | a token made only of digits, '^' and '.' is unchanged |
| ManagerFiles.KeepVersionCharsIdempotent | rust/src/files.rs:259-262 | filtering twice is filtering once |
| ManagerFiles.SelectToken | rust/src/files.rs:260-266 | the chosen token holds only version characters |
| ManagerFiles.DropOneTrailingDot | rust/src/files.rs:267-269 | at most one trailing dot is removed, and exactly one when there is one |
| ManagerFiles.ParseVersion | rust/src/files.rs:254-271 | the method returns the specified parse |
| ManagerFiles.ErrorTextRefused | rust/src/files.rs:255-257 | a text containing "error" in any ASCII letter case is refused |
| ManagerFiles.ParsedVersionShape | rust/src/files.rs:254-271 | a parse succeeds with version characters only, taken from the first token shaped like a version |
| ManagerFiles.ParsedVersion | rust/src/files.rs:254-271 | definition of `parse_version` on a text; `ParsedVersionShape`, `FirstMatchSelected` and `NoMatchTakesLast` state its result |
| ManagerFiles.HasVersionPattern | rust/src/files.rs:260-263 | definition: the unanchored pattern matches, that is digits, a dot and digits occur |
| ManagerFiles.FirstMatchSelected | rust/src/files.rs:261-265 | the first token whose filtered text looks like a version is chosen |
| ManagerFiles.NoMatchTakesLast | rust/src/files.rs:261-266 | with no version-shaped token, the last one is taken |
| ManagerFiles.BinaryExtension | rust/src/files.rs:246-252 | ".exe" exactly on Windows, "" otherwise |
| ManagerFiles.DriverFilename | rust/src/files.rs:242-244 | the driver name followed by the binary extension |
| ManagerFiles.DriverPathInCache | rust/src/files.rs:229-240 | cache root, then driver name, arch folder, version and file name |
| ManagerFiles.ChooseDecompressor | rust/src/files.rs:70-91 | an uninferable type is an error showing the opened file's Debug text; zip and gz are chosen ignoring case; xml is a parse error; other extensions are refused |
| ManagerFiles.DispatchIgnoresCase | rust/src/files.rs:79-84 | "ZIP", "Gz" and "XML" dispatch like their lower-case forms |
| SupportColor.Arguments | rb/lib/selenium/webdriver/support/color.rb:22-29 | a functional form yields at least one argument |
| SupportColor.ArgumentsNeedName | rb/lib/selenium/webdriver/support/color.rb:22-29 | arguments are found only when the trimmed text starts with the function name |
| SupportColor.FindHash | rb/lib/selenium/webdriver/support/color.rb:43-46 | the first position of a '#' followed by the given number of hex digits |
| SupportColor.RubyInteger | rb/lib/selenium/webdriver/support/color.rb:93-95 | Integer() is non-negative, and fails exactly on a leading 0 followed by an 8 or 9 |
| SupportColor.IntegerReadsDecimal | rb/lib/selenium/webdriver/support/color.rb:93-95 | Integer() on the decimal text of a natural number gives back that number |
| SupportColor.DecimalReadsBack | rb/lib/selenium/webdriver/support/color.rb:93-95 | the decimal text of a natural number reads back, in base ten, as that number |
| SupportColor.IntegerLeadingZeroIsOctal | rb/lib/selenium/webdriver/support/color.rb:93-95 | a leading 0 makes Integer() read the remaining digits in base eight |
| SupportColor.IntegerExamples | rb/lib/selenium/webdriver/support/color.rb:93-95 | Integer("010") is 8 and Integer("10") is 10 |
| SupportColor.AlphaValue | rb/lib/selenium/webdriver/support/color.rb:96 | the alpha is between 0 and 1 |
| SupportColor.Fraction | rb/lib/selenium/webdriver/support/color.rb:96 | a decimal fraction is in [0, 1) |
| SupportColor.Channels | rb/lib/selenium/webdriver/support/color.rb:92-97 | a colour is built exactly when the three channels convert, with those values |
| SupportColor.HexPair | rb/lib/selenium/webdriver/support/color.rb:44 | two hex digits read as a byte below 256 |
| SupportColor.FromString | rb/lib/selenium/webdriver/support/color.rb:33-52 | a built colour has non-negative channels and an alpha in [0, 1] |
| SupportColor.ReadsAsRgb | rb/lib/selenium/webdriver/support/color.rb:35-36 | a text whose rgb() arguments are three 1-3 digit integers is built from those three by the first branch, opaque |
| SupportColor.ReadsAsRgba | rb/lib/selenium/webdriver/support/color.rb:39-40 | a text with rgba() arguments of three integers and an alpha, and no rgb() form, is built from them with that alpha |
| SupportColor.FromRgbText | rb/lib/selenium/webdriver/support/color.rb:35-36 | a text in the rgb() notation is read by the rgb branch |
| SupportColor.FromRgbaText | rb/lib/selenium/webdriver/support/color.rb:39-40 | a text in the rgba() notation, and in no rgb() notation, is read by the rgba branch |
| SupportColor.ChannelsReadBack | rb/lib/selenium/webdriver/support/color.rb:92-97 | `new` on the decimal texts of the channels builds the same colour |
| SupportColor.ReadsAsShortHash | rb/lib/selenium/webdriver/support/color.rb:43-46 | "#" and three hex digits is read by the three-digit branch, each digit doubled |
| SupportColor.Hex3Doubles | rb/lib/selenium/webdriver/support/color.rb:45-46 | "#xyz" is the colour with channels 17 times each digit's value (0xaa for "a"), opaque |
| SupportColor.Hex3Example | rb/lib/selenium/webdriver/support/color.rb:45-46 | "#abc" is 0xaa, 0xbb, 0xcc, opaque |
| SupportColor.RgbExample | rb/lib/selenium/webdriver/support/color.rb:35-36 | "rgb(1, 2, 3)" is red 1, green 2, blue 3, opaque |
| SupportColor.InvalidExactlyWhenNothingMatches | rb/lib/selenium/webdriver/support/color.rb:49-50 | text matching no notation is invalid |
| SupportColor.NotAFunctionalForm | rb/lib/selenium/webdriver/support/color.rb:33-52 | hex text matches none of the functional notations |
| SupportColor.EqualsAgreesWithHash | rb/lib/selenium/webdriver/support/color.rb:99-109 | equal colours hash alike; nothing equals a non-colour |
| SupportColor.Equals | rb/lib/selenium/webdriver/support/color.rb:99-104 | definition: another colour with the same channels and alpha; `EqualsAgreesWithHash` states it is value equality and never holds for a non-colour |
| SupportColor.HashOf | rb/lib/selenium/webdriver/support/color.rb:107-109 | definition: the hash of the four fields; `EqualsAgreesWithHash` states that equal colours hash alike |
| SupportColor.Rgb | rb/lib/selenium/webdriver/support/color.rb:111-113 | "rgb(" ... ")" |
| SupportColor.Rgba | rb/lib/selenium/webdriver/support/color.rb:115-118 | "rgba(" ... ")" |
| SupportColor.RgbRoundTrip | rb/lib/selenium/webdriver/support/color.rb:111-113 | from_string of rgb gives back the same three channels, with alpha 1 |
| SupportColor.RgbaOpaqueEndsInOne | rb/lib/selenium/webdriver/support/color.rb:115-117 | an alpha of 1 is written as "1": rgba ends in ", 1)" |
| SupportColor.RgbaRoundTrip | rb/lib/selenium/webdriver/support/color.rb:115-118 | from_string of rgba gives back the same colour, alpha included, when the alpha is 1 or its float text is an alpha token that reads back as it |
| SupportColor.HexString | rb/lib/selenium/webdriver/support/color.rb:121 | non-empty hex digits |
| SupportColor.Hex02 | rb/lib/selenium/webdriver/support/color.rb:121 | at least two hex digits |
| SupportColor.Hex02ReadsBack | rb/lib/selenium/webdriver/support/color.rb:121 | a byte's two digits read back as the byte |
| SupportColor.HexDigitValue | rb/lib/selenium/webdriver/support/color.rb:121 | the k-th hex digit has value k |
| SupportColor.Hex | rb/lib/selenium/webdriver/support/color.rb:120-122 | '#' followed by hex digits |
| SupportColor.HexRoundTrip | rb/lib/selenium/webdriver/support/color.rb:120-122 | parsing the hex form of a colour gives back its channels, opaque |
| RemoteCapabilities.Put | rb/lib/selenium/webdriver/remote/w3c_capabilities.rb:159-161 | the key maps to the value, every other key is kept, and a new key is appended |
| RemoteCapabilities.Delete | rb/lib/selenium/webdriver/remote/w3c_capabilities.rb:151-152 | the key is gone and every other key is kept |
| RemoteCapabilities.Lookup | rb/lib/selenium/webdriver/remote/w3c_capabilities.rb:163-165 | a value is found exactly when the key is in the hash |
| RemoteCapabilities.Get | rb/lib/selenium/webdriver/remote/w3c_capabilities.rb:163-165 | definition: the stored value, nil for a missing key |
| RemoteCapabilities.Merge | rb/lib/selenium/webdriver/remote/w3c_capabilities.rb:167-175 | the keys are those of both hashes |
| RemoteCapabilities.MergeOtherWins | rb/lib/selenium/webdriver/remote/w3c_capabilities.rb:167-175 | a key of the other hash takes its value; the rest keep theirs |
| RemoteCapabilities.CamelCase | rb/lib/selenium/webdriver/remote/w3c_capabilities.rb:231-233 | never longer, empty exactly when the input is, and the first character follows the rule |
| RemoteCapabilities.CamelCaseLeavesNoMatch | rb/lib/selenium/webdriver/remote/w3c_capabilities.rb:231-233 | no "_" followed by a lower-case letter remains |
| RemoteCapabilities.CamelCaseKeepsClean | rb/lib/selenium/webdriver/remote/w3c_capabilities.rb:231-233 | a name without such a pair is unchanged |
| RemoteCapabilities.CamelCaseIdempotent | rb/lib/selenium/webdriver/remote/w3c_capabilities.rb:231-233 | applying it twice equals applying it once |
| RemoteCapabilities.CamelCaseOfBrowserName | rb/lib/selenium/webdriver/remote/w3c_capabilities.rb:231-233 | browser_name becomes browserName |
| RemoteCapabilities.CamelCaseOfPlatformVersion | rb/lib/selenium/webdriver/remote/w3c_capabilities.rb:231-233 | platform_version becomes platformVersion |
| RemoteCapabilities.CamelCaseOneWord | rb/lib/selenium/webdriver/remote/w3c_capabilities.rb:231-233 | two underscore-free words joined by an underscore and a lowercase letter become one word with that letter upper-cased |
| RemoteCapabilities.CamelCaseWord | rb/lib/selenium/webdriver/remote/w3c_capabilities.rb:231-233 | "_x" becomes "X" inside a word |
| RemoteCapabilities.CamelCasePlainPrefix | rb/lib/selenium/webdriver/remote/w3c_capabilities.rb:231-233 | a clean prefix passes through unchanged |
| RemoteCapabilities.LastFor | rb/lib/selenium/webdriver/remote/w3c_capabilities.rb:191-212 | the entry found writes the given JSON name |
| RemoteCapabilities.JsonFailsOnOtherKeys | rb/lib/selenium/webdriver/remote/w3c_capabilities.rb:206-207 | serialising fails exactly when some key is neither a symbol nor a string |
| RemoteCapabilities.JsonLastWins | rb/lib/selenium/webdriver/remote/w3c_capabilities.rb:191-212 | each JSON name holds the value of the last entry that writes it |
| RemoteCapabilities.JsonStopsAtError | rb/lib/selenium/webdriver/remote/w3c_capabilities.rb:191-212 | the first bad key decides the result |
| RemoteCapabilities.JsonOf | rb/lib/selenium/webdriver/remote/w3c_capabilities.rb:191-212 | definition: the entries converted in insertion order, stopping at the first failure; `JsonFailsOnOtherKeys` and `JsonLastWins` state its result |
| RemoteCapabilities.AddJson | rb/lib/selenium/webdriver/remote/w3c_capabilities.rb:193-210 | definition: the case on one key; `AddJsonFails` and `AddJsonWrites` state its result |
| RemoteCapabilities.JsonValue | rb/lib/selenium/webdriver/remote/w3c_capabilities.rb:193-210 | definition: the platform upper-cased, the proxy through its own as_json, any other value unchanged |
| RemoteCapabilities.ToS | rb/lib/selenium/webdriver/remote/w3c_capabilities.rb:197 | definition: `to_s` on nil, booleans, integers, strings and symbols |
| RemoteCapabilities.AddJsonFails | rb/lib/selenium/webdriver/remote/w3c_capabilities.rb:206-207 | one entry fails exactly when its key is neither a String nor a Symbol |
| RemoteCapabilities.AddJsonWrites | rb/lib/selenium/webdriver/remote/w3c_capabilities.rb:193-210 | one step writes its entry under the entry's JSON name with its JSON value, and leaves every other name as it was |
| RemoteCapabilities.JsonName | rb/lib/selenium/webdriver/remote/w3c_capabilities.rb:193-210 | definition: the JSON name of each key, none for a falsy proxy or a key of another class |
| RemoteCapabilities.SymbolAndStringSpellingsAgree | rb/lib/selenium/webdriver/remote/w3c_capabilities.rb:202-205 | :browser_name and "browserName" serialise alike |
| RemoteCapabilities.JsonOfOne | rb/lib/selenium/webdriver/remote/w3c_capabilities.rb:191-212 | a one-entry hash serialises as that entry |
| RemoteCapabilities.PlatformUpcasedProxyOmitted | rb/lib/selenium/webdriver/remote/w3c_capabilities.rb:196-199 | the platform is upper-cased and a nil proxy is omitted |
| RemoteCapabilities.WithProxy | rb/lib/selenium/webdriver/remote/w3c_capabilities.rb:177-186 | a hash becomes a proxy object; a proxy or nil is stored; anything else is a type error |
| RemoteCapabilities.MergeableHash | rb/lib/selenium/webdriver/remote/w3c_capabilities.rb:167-175 | merging needs capabilities that are a hash, or a hash itself |
| RemoteCapabilities.CapsEqual | rb/lib/selenium/webdriver/remote/w3c_capabilities.rb:218-221 | never equal to a non-capabilities object; otherwise equal exactly when the JSON forms are |
| RemoteCapabilities.CapsEqualSymmetric | rb/lib/selenium/webdriver/remote/w3c_capabilities.rb:218-221 | equality is symmetric and reflexive |
| RemoteCapabilities.FetchKnown | rb/lib/selenium/webdriver/remote/w3c_capabilities.rb:46-49 | a reader returns the stored value, or a KeyError when it is missing |
| RemoteCapabilities.WriterThenReader | rb/lib/selenium/webdriver/remote/w3c_capabilities.rb:46-54 | a reader returns what its writer stored, and other readers are unaffected |
| RemoteCapabilities.W3CCapabilities.constructor | rb/lib/selenium/webdriver/remote/w3c_capabilities.rb:150-153 | the options are stored without the proxy |
| RemoteCapabilities.W3CCapabilities.Fetch | rb/lib/selenium/webdriver/remote/w3c_capabilities.rb:46-49 | returns the reader's result |
| RemoteCapabilities.W3CCapabilities.SetKnown | rb/lib/selenium/webdriver/remote/w3c_capabilities.rb:51-53 | the writer stores the value under its symbol |
| RemoteCapabilities.W3CCapabilities.Index | rb/lib/selenium/webdriver/remote/w3c_capabilities.rb:163-165 | the stored value, or nil |
| RemoteCapabilities.W3CCapabilities.IndexSet | rb/lib/selenium/webdriver/remote/w3c_capabilities.rb:159-161 | the key now maps to the value |
| RemoteCapabilities.W3CCapabilities.MergeBang | rb/lib/selenium/webdriver/remote/w3c_capabilities.rb:167-175 | merges when the argument provides a hash; otherwise an argument error, with nothing changed |
| RemoteCapabilities.W3CCapabilities.SetProxy | rb/lib/selenium/webdriver/remote/w3c_capabilities.rb:177-186 | stores the converted proxy, or fails with nothing changed |
| RemoteCapabilities.W3CCapabilities.FirefoxOptions | rb/lib/selenium/webdriver/remote/w3c_capabilities.rb:76 | returns the stored Firefox options, storing fresh ones first when they are missing |
| RemoteCapabilities.W3CCapabilities.AsJson | rb/lib/selenium/webdriver/remote/w3c_capabilities.rb:191-212 | the loop builds the specified JSON form |
| RemoteCapabilities.W3CCapabilities.Equals | rb/lib/selenium/webdriver/remote/w3c_capabilities.rb:218-221 | the specified equality |
| RemoteCapabilities.New | rb/lib/selenium/webdriver/remote/w3c_capabilities.rb:150-153 | fails exactly when the proxy option is unusable; otherwise holds the options, with the proxy set through its writer |
| RemoteCapabilities.NewAlwaysHoldsProxy | rb/lib/selenium/webdriver/remote/w3c_capabilities.rb:150-153 | a new object always has a proxy key |
| RemoteCapabilities.Move | rb/lib/selenium/webdriver/remote/w3c_capabilities.rb:122-131 | the source key leaves the data and its value lands under the target symbol; nothing else moves |
| RemoteCapabilities.MoveEntries | rb/lib/selenium/webdriver/remote/w3c_capabilities.rb:122-131 | the method performs the moves of the table in order |
| RemoteCapabilities.MoveAll | rb/lib/selenium/webdriver/remote/w3c_capabilities.rb:122-131 | names outside the sources stay in the data, and names outside the targets keep their values |
| RemoteCapabilities.VendorTargets | rb/lib/selenium/webdriver/remote/w3c_capabilities.rb:122-131 | no vendor move writes browser_name |
| RemoteCapabilities.NoProxyGiven | rb/lib/selenium/webdriver/remote/w3c_capabilities.rb:119-120 | nil and the empty Hash, Array, String and Symbol mean "no proxy"; a non-empty one goes on to the proxy; any other value raises NoMethodError for `empty?` |
| RemoteCapabilities.JsonStandard | rb/lib/selenium/webdriver/remote/w3c_capabilities.rb:107-113 | browser_name is taken from browserName and the other names stay |
| RemoteCapabilities.JsonTimeouts | rb/lib/selenium/webdriver/remote/w3c_capabilities.rb:114-117 | the timeouts step keeps browser_name |
| RemoteCapabilities.JsonProxy | rb/lib/selenium/webdriver/remote/w3c_capabilities.rb:119-120 | the proxy step keeps browser_name |
| RemoteCapabilities.MoveEntry | rb/lib/selenium/webdriver/remote/w3c_capabilities.rb:122-131 | the method performs the move |
| RemoteCapabilities.ReadStandard | rb/lib/selenium/webdriver/remote/w3c_capabilities.rb:107-113 | the method performs the standard step |
| RemoteCapabilities.Finish | rb/lib/selenium/webdriver/remote/w3c_capabilities.rb:133-134 | the leftover entries are stored under their own names |
| RemoteCapabilities.ReadProxy | rb/lib/selenium/webdriver/remote/w3c_capabilities.rb:119-120 | the method performs the proxy step, or fails with its error |
| RemoteCapabilities.JsonCreate | rb/lib/selenium/webdriver/remote/w3c_capabilities.rb:104-136 | fails exactly when reading fails; otherwise a fresh object holding what was read |
| RemoteCapabilities.JsonCreateKeepsOtherNames | rb/lib/selenium/webdriver/remote/w3c_capabilities.rb:133-134 | a name that no step reads is kept as is |
| RemoteCapabilities.JsonFinishKeepsSymbol | rb/lib/selenium/webdriver/remote/w3c_capabilities.rb:122-134 | the vendor moves and the final merge leave a symbol key unchanged when no move writes it and the remaining data has no such key |
| RemoteCapabilities.JsonCreateSetsBrowserName | rb/lib/selenium/webdriver/remote/w3c_capabilities.rb:108 | browser_name is the data's browserName |
| RemoteCapabilities.JsonCreated | rb/lib/selenium/webdriver/remote/w3c_capabilities.rb:104-136 | definition: the standard step, the proxy step and the finish in order; `JsonCreateSetsBrowserName` and `JsonCreateKeepsOtherNames` state its result |
| RemoteCapabilities.JsonFinish | rb/lib/selenium/webdriver/remote/w3c_capabilities.rb:122-134 | definition: the vendor moves, then the leftover data merged; `JsonFinishKeeps` and `JsonFinishKeepsSymbol` state what it keeps |
| RemoteCapabilities.JsonFinishKeeps | rb/lib/selenium/webdriver/remote/w3c_capabilities.rb:122-134 | a string name that is not "proxy" and that no vendor move takes keeps the data's value |
| RemoteCapabilities.Edge | rb/lib/selenium/webdriver/remote/w3c_capabilities.rb:70-73 | the Edge defaults merged with the caller's options |
| RemoteCapabilities.Rename | rb/lib/selenium/webdriver/remote/w3c_capabilities.rb:83-84 | the value moves from the old name to the new one; other keys are kept |
| RemoteCapabilities.FirefoxTimeouts | rb/lib/selenium/webdriver/remote/w3c_capabilities.rb:85-89 | the timeouts are empty exactly when no timeout option is given |
| RemoteCapabilities.FirefoxOpts | rb/lib/selenium/webdriver/remote/w3c_capabilities.rb:83-89 | definition: version and platform renamed and the timeouts gathered; the three lemmas below state the result |
| RemoteCapabilities.Firefox | rb/lib/selenium/webdriver/remote/w3c_capabilities.rb:75-91 | the Firefox defaults merged with the translated options |
| RemoteCapabilities.FirefoxDropsOldNames | rb/lib/selenium/webdriver/remote/w3c_capabilities.rb:83-89 | the old option names are gone after translation |
| RemoteCapabilities.FirefoxVersionRenamed | rb/lib/selenium/webdriver/remote/w3c_capabilities.rb:83 | version becomes browser_version |
| RemoteCapabilities.FirefoxTimeoutGathered | rb/lib/selenium/webdriver/remote/w3c_capabilities.rb:85-89 | a timeout option lands in the timeouts hash |
| RemoteCapabilities.FirefoxCallerWins | rb/lib/selenium/webdriver/remote/w3c_capabilities.rb:90 | the caller's options override the defaults |
| RemoteCapabilities.W3CUnlessMarionetteFalse | rb/lib/selenium/webdriver/remote/w3c_capabilities.rb:95-98 | marionette: false, directly or in the desired capabilities, is not W3C; absence of both is W3C |
| RemoteCapabilities.IsW3C | rb/lib/selenium/webdriver/remote/w3c_capabilities.rb:95-98 | definition: :marionette is not false at the top level nor inside a truthy :desired_capabilities; `W3CUnlessMarionetteFalse` states the cases |
| CSharpFormat.AlnumPieces | ide/plugins/csharp-format/src/content/formats/cs-wd.js:9 | splitting on non-alphanumerics yields at least one piece |
| CSharpFormat.DropSeparators | ide/plugins/csharp-format/src/content/formats/cs-wd.js:9 | a suffix of the text that starts with an alphanumeric |
| CSharpFormat.AlnumOnly | ide/plugins/csharp-format/src/content/formats/cs-wd.js:8-13 | only alphanumerics remain |
| CSharpFormat.AlnumOnlySkipsSeparators | ide/plugins/csharp-format/src/content/formats/cs-wd.js:8-13 | leading separators do not change the alphanumeric text |
| CSharpFormat.PiecesAreTheAlnumText | ide/plugins/csharp-format/src/content/formats/cs-wd.js:8-13 | the pieces put together are exactly the alphanumeric characters |
| CSharpFormat.PiecesAreAlnum | ide/plugins/csharp-format/src/content/formats/cs-wd.js:8-13 | every piece is alphanumeric |
| CSharpFormat.ClassNameKeepsAlnum | ide/plugins/csharp-format/src/content/formats/cs-wd.js:8-13 | with an identity capitalizer the class name is the alphanumeric text |
| CSharpFormat.TestClassName | ide/plugins/csharp-format/src/content/formats/cs-wd.js:8-13 | definition: the pieces, each capitalised, concatenated; `ClassNameKeepsAlnum` states the result |
| CSharpFormat.TestMethodName | ide/plugins/csharp-format/src/content/formats/cs-wd.js:15-17 | "The" + capitalized name + "Test" |
| CSharpFormat.MethodNamesDistinct | ide/plugins/csharp-format/src/content/formats/cs-wd.js:15-17 | distinct capitalized names give distinct method names |
| CSharpFormat.Quoted | ide/plugins/csharp-format/src/content/formats/cs-wd.js:26 | one quoted item per item |
| CSharpFormat.ArrayTextSmall | ide/plugins/csharp-format/src/content/formats/cs-wd.js:23-31 | the empty and one-element arrays |
| CSharpFormat.ArrayText | ide/plugins/csharp-format/src/content/formats/cs-wd.js:23-31 | starts with "new String[] {" and ends with "}" |
| CSharpFormat.Array | ide/plugins/csharp-format/src/content/formats/cs-wd.js:23-31 | the loop builds "new String[] {" + the quoted items joined by ", " + "}" |
| CSharpFormat.JoinSnoc | ide/plugins/csharp-format/src/content/formats/cs-wd.js:24-30 | joining with one more item appends the separator and the item |
| CSharpFormat.ReplaceAllAbsent | ide/plugins/csharp-format/src/content/formats/cs-wd.js:104 | a pattern whose character is absent changes nothing |
| CSharpFormat.EscapeLoneQuotesAbsent | ide/plugins/csharp-format/src/content/formats/cs-wd.js:105 | a text without quotes is unchanged |
| CSharpFormat.ReplaceCharAppend | ide/plugins/csharp-format/src/content/formats/cs-wd.js:104 | replacement distributes over concatenation |
| CSharpFormat.ReplaceCharKeepsOut | ide/plugins/csharp-format/src/content/formats/cs-wd.js:116-117 | a character absent from the text and the replacement stays absent |
| CSharpFormat.PassesPerChar | ide/plugins/csharp-format/src/content/formats/cs-wd.js:104-117 | the chain of passes escapes character by character |
| CSharpFormat.QuoteFreePattern | ide/plugins/csharp-format/src/content/formats/cs-wd.js:100-122 | a pattern without quotes becomes its escaped text in quotes |
| CSharpFormat.EscapedHasNoLineBreak | ide/plugins/csharp-format/src/content/formats/cs-wd.js:116-117 | escaped text holds no CR or LF |
| CSharpFormat.NullPattern | ide/plugins/csharp-format/src/content/formats/cs-wd.js:119-121 | a null pattern becomes "\"\"" |
| CSharpFormat.PatternToString | ide/plugins/csharp-format/src/content/formats/cs-wd.js:100-122 | always quoted at both ends, a null pattern included |
| CSharpFormat.SearchContext | ide/plugins/csharp-format/src/content/formats/cs-wd.js:360-377 | the six known strategies produce "By.<Method>(locator)"; any other gives the unknown-strategy error |
| CSharpFormat.SearchContextDistinguishes | ide/plugins/csharp-format/src/content/formats/cs-wd.js:360-377 | different strategies give different code |
| CSharpFormat.GetAbsoluteIff | ide/plugins/csharp-format/src/content/formats/cs-wd.js:399-405 | the URL is used as is exactly when it is absolute; otherwise it is appended to the base URL |
| CSharpFormat.Get | ide/plugins/csharp-format/src/content/formats/cs-wd.js:399-405 | definition: the URL used as is or after the base URL; `GetAbsoluteIff` states when each happens |
| CSharpFormat.Select | ide/plugins/csharp-format/src/content/formats/cs-wd.js:463-481 | the corrected select starts with "new SelectElement(ref).Select" |
| CSharpFormat.Deselect | ide/plugins/csharp-format/src/content/formats/cs-wd.js:473-481 | starts with "new SelectElement(ref).Deselect" |
| CSharpFormat.SelectMirrorsDeselect | ide/plugins/csharp-format/src/content/formats/cs-wd.js:463-481 | select and deselect differ only in Select/Deselect, for every locator |
| CSharpFormat.SelectAgreesOnIndexAndValue | ide/plugins/csharp-format/src/content/formats/cs-wd.js:464-469 | the code as written agrees with the corrected one for index and value locators |
| CSharpFormat.SelectByTextBuildsSelect | ide/plugins/csharp-format/src/content/formats/cs-wd.js:470 | as written, the text branch emits "new Select(", unlike deselect |
| CSharpFormat.SelectAsWritten | ide/plugins/csharp-format/src/content/formats/cs-wd.js:463-471 | definition as written; `SelectAgreesOnIndexAndValue` and `SelectByTextBuildsSelect` state where it agrees with the corrected `Select` and where not |
| CSharpFormat.TrimLeft | ide/plugins/csharp-format/src/content/formats/cs-wd.js:606 | a suffix that starts with a non-space |
| CSharpFormat.TrimRight | ide/plugins/csharp-format/src/content/formats/cs-wd.js:606 | a prefix that ends with a non-space |
| CSharpFormat.Trim | ide/plugins/csharp-format/src/content/formats/cs-wd.js:606 | no space at either end |
| CSharpFormat.Statements | ide/plugins/csharp-format/src/content/formats/cs-wd.js:606-607 | the trimmed sentence without its one trailing ';' |
| CSharpFormat.LastStatement | ide/plugins/csharp-format/src/content/formats/cs-wd.js:608-610 | holds no ';' |
| CSharpFormat.JoinSplitLast | ide/plugins/csharp-format/src/content/formats/cs-wd.js:608-610 | the pieces before the last, each with its ';', followed by the last piece, give back the text |
| CSharpFormat.ReturnLastShape | ide/plugins/csharp-format/src/content/formats/cs-wd.js:610-612 | the leading statements, then "return (" + last + "+\"\");" |
| CSharpFormat.ReturnLast | ide/plugins/csharp-format/src/content/formats/cs-wd.js:610-612 | always ends in ";"; `ReturnLastShape` states the whole shape |
| CSharpFormat.JavaScriptFix | ide/plugins/csharp-format/src/content/formats/cs-wd.js:602-613 | definition, corrected; `JavaScriptFixShape` states its result |
| CSharpFormat.JavaScriptFixAsWritten | ide/plugins/csharp-format/src/content/formats/cs-wd.js:602-613 | definition as written; `AgreeWithoutSurroundingSpace` and `TrailingSpaceLosesLastStatement` state where it agrees with the corrected one and where not |
| CSharpFormat.StatementsAsWritten | ide/plugins/csharp-format/src/content/formats/cs-wd.js:605-609 | definition as written: the trimmed text cut at the untrimmed length; `StatementsAgree` states when it matches `Statements` |
| CSharpFormat.JavaScriptFixShape | ide/plugins/csharp-format/src/content/formats/cs-wd.js:602-613 | a sentence with "return" is unchanged; otherwise the last statement of the trimmed sentence is returned as a string |
| CSharpFormat.AgreeWithoutSurroundingSpace | ide/plugins/csharp-format/src/content/formats/cs-wd.js:602-613 | without surrounding space the code as written agrees with the corrected one |
| CSharpFormat.SampleTrimmed | ide/plugins/csharp-format/src/content/formats/cs-wd.js:606 | "a; " trims to "a;" |
| CSharpFormat.StatementsAgree | ide/plugins/csharp-format/src/content/formats/cs-wd.js:605-609 | when the sentence has no surrounding space, cutting with the untrimmed length gives the corrected statements |
| CSharpFormat.ShortHasNoReturn | ide/plugins/csharp-format/src/content/formats/cs-wd.js:603 | text shorter than "return" does not contain it |
| CSharpFormat.TrimOneTrailingSpace | ide/plugins/csharp-format/src/content/formats/cs-wd.js:606 | one trailing space and no leading one: trimming drops just that space |
| CSharpFormat.ReturnLastAfterSemicolon | ide/plugins/csharp-format/src/content/formats/cs-wd.js:610-612 | one statement ending in ';' keeps the statement and returns the empty expression after it |
| CSharpFormat.ReturnLastOfOne | ide/plugins/csharp-format/src/content/formats/cs-wd.js:610-612 | one statement without ';' is returned as a string |
| CSharpFormat.TrailingSpaceLosesLastStatement | ide/plugins/csharp-format/src/content/formats/cs-wd.js:606-607 | as written, "a; " gives "a;return (+\"\");" |
| CSharpFormat.TrailingSpaceReturnsLastStatement | ide/plugins/csharp-format/src/content/formats/cs-wd.js:606-613 | corrected, "a; " gives "return (a+\"\");" |
| AuthChallenge.Step | java/client/src/org/openqa/selenium/devtools/network/types/AuthChallenge.java:28-44 | an unknown name is skipped; a known name whose value is not a string fails |
| AuthChallenge.UnknownSkipped | java/client/src/org/openqa/selenium/devtools/network/types/AuthChallenge.java:41-43 | an unknown member changes no field |
| AuthChallenge.NeverSeenStaysNull | java/client/src/org/openqa/selenium/devtools/network/types/AuthChallenge.java:25-47 | a field whose name never occurs stays null |
| AuthChallenge.LastOccurrenceWins | java/client/src/org/openqa/selenium/devtools/network/types/AuthChallenge.java:25-47 | the last member with a name decides its field |
| AuthChallenge.ErrorIsFinal | java/client/src/org/openqa/selenium/devtools/network/types/AuthChallenge.java:25-47 | once a member fails, later members do not matter |
| AuthChallenge.AuthChallenge.constructor | java/client/src/org/openqa/selenium/devtools/network/types/AuthChallenge.java:26 | every field is null |
| AuthChallenge.AuthChallenge.SetOrigin | java/client/src/org/openqa/selenium/devtools/network/types/AuthChallenge.java:62-64 | only origin changes, and its getter returns the new value, null included |
| AuthChallenge.AuthChallenge.SetRealm | java/client/src/org/openqa/selenium/devtools/network/types/AuthChallenge.java:70-72 | only realm changes, and its getter returns the new value, null included |
| AuthChallenge.AuthChallenge.SetScheme | java/client/src/org/openqa/selenium/devtools/network/types/AuthChallenge.java:54-56 | only scheme changes, and its getter returns the new value, null included |
| AuthChallenge.AuthChallenge.SetSource | java/client/src/org/openqa/selenium/devtools/network/types/AuthChallenge.java:78-80 | only source changes, and its getter returns the new value, null included |
| AuthChallenge.ParseRequest | java/client/src/org/openqa/selenium/devtools/network/types/AuthChallenge.java:25-47 | the loop fails exactly when the specified reading fails, with its error; otherwise a fresh record with the read fields |
| AuthChallenge.Parsed | java/client/src/org/openqa/selenium/devtools/network/types/AuthChallenge.java:25-47 | definition: the members applied left to right from the all-null record; the four lemmas above state its result |
| SafariDriverInfo.SupportedExactly | java/src/org/openqa/selenium/safari/SafariDriverInfo.java:47-54 | supported exactly when the Safari matcher accepts or some key starts with "safari:" |
| SafariDriverInfo.IsSupporting | java/src/org/openqa/selenium/safari/SafariDriverInfo.java:48-55 | definition: the Safari matcher accepts or some key has the "safari:" prefix; `SupportedExactly` states both directions |
| SafariDriverInfo.IsSupportingCdp | java/src/org/openqa/selenium/safari/SafariDriverInfo.java:56-59 | false |
| SafariDriverInfo.IsSupportingBiDi | java/src/org/openqa/selenium/safari/SafariDriverInfo.java:61-64 | false |
| SafariDriverInfo.MaximumSimultaneousSessions | java/src/org/openqa/selenium/safari/SafariDriverInfo.java:94-97 | 1 |
| SafariDriverInfo.CreateDriver | java/src/org/openqa/selenium/safari/SafariDriverInfo.java:99-107 | nothing exactly when unavailable; otherwise a driver on the merged options |
| SafariTechPreviewDriverInfo.NameIgnoresCase | java/src/org/openqa/selenium/safari/SafariTechPreviewDriverInfo.java:52-59 | any case variant of the Technology Preview name is claimed |
| SafariTechPreviewDriverInfo.IsSupporting | java/src/org/openqa/selenium/safari/SafariTechPreviewDriverInfo.java:53-60 | definition: the name equals the Technology Preview name ignoring case, or some key has the "safari:" prefix; stated by the lemmas below |
| SafariTechPreviewDriverInfo.OtherNameRefused | java/src/org/openqa/selenium/safari/SafariTechPreviewDriverInfo.java:52-59 | plain "safari" without vendor keys is refused |
| SafariTechPreviewDriverInfo.VendorKeyClaimedByBoth | java/src/org/openqa/selenium/safari/SafariTechPreviewDriverInfo.java:58 | a "safari:" key makes both Safari entries claim the capabilities |
| SafariTechPreviewDriverInfo.IsSupportingCdp | java/src/org/openqa/selenium/safari/SafariTechPreviewDriverInfo.java:61-64 | false |
| SafariTechPreviewDriverInfo.IsSupportingBiDi | java/src/org/openqa/selenium/safari/SafariTechPreviewDriverInfo.java:66-69 | false |
| SafariTechPreviewDriverInfo.MaximumSimultaneousSessions | java/src/org/openqa/selenium/safari/SafariTechPreviewDriverInfo.java:107-110 | 1 |
| SafariTechPreviewDriverInfo.CreateDriver | java/src/org/openqa/selenium/safari/SafariTechPreviewDriverInfo.java:112-120 | nothing exactly when unavailable; otherwise a driver on options built from the capabilities |
| ClientSafariDriverInfo.AnyVendorKey | java/client/src/org/openqa/selenium/safari/SafariDriverInfo.java:36-39 | no answer for no keys; otherwise true exactly when some key has a vendor prefix |
| ClientSafariDriverInfo.SupportedIff | java/client/src/org/openqa/selenium/safari/SafariDriverInfo.java:30-40 | supported exactly when the name is "safari" or some key starts with "safari." or "safari:" |
| ClientSafariDriverInfo.IsSupporting | java/client/src/org/openqa/selenium/safari/SafariDriverInfo.java:31-40 | definition: the name is exactly "safari", or else the vendor-key reduction, false for no keys; `SupportedIff` states it in both directions |
| ClientSafariDriverInfo.NameIsCaseSensitive | java/client/src/org/openqa/selenium/safari/SafariDriverInfo.java:32-34 | "Safari" alone is refused |
| ClientSafariDriverInfo.EmptyRefused | java/client/src/org/openqa/selenium/safari/SafariDriverInfo.java:36-39 | empty capabilities are refused |
| ClientSafariDriverInfo.MaximumSimultaneousSessions | java/client/src/org/openqa/selenium/safari/SafariDriverInfo.java:52-55 | 1 |
| ClientSafariDriverInfo.CreateDriver | java/client/src/org/openqa/selenium/safari/SafariDriverInfo.java:57-65 | nothing exactly when unavailable; otherwise a driver on the capabilities as given |

## Left out

- Concurrency is not modelled. This covers atomics, `synchronized` blocks, scheduled executors, the parallel streams and the timing of the Guava session cache. Each node operation is one atomic step, and a cache timeout is the explicit `Evict` operation.
- I/O is not modelled: downloads and uploads, temporary filesystems, tracing spans, logging, event-bus transport and JMX registration. Drain events and slot calls are recorded in logs on the node instead.
- `getLoad` is left out because it computes a floating-point percentage.
- The download-folder bookkeeping of `newSession` and `stop` is left out, as is the capability enrichment with the downloads path. Both are filesystem work. The capability merge is a parameter.
- `LocalNode.LocalNode.GetStatus`: heartbeat period, node version and OS information are taken from the configuration as given.
- Foreign code is represented by parameters:
  - slot `test`, `apply` and `execute`;
  - `Capabilities.merge`, `getBestMatch`, `Platform.is` and `Browser.is`;
  - `Source.getSource`;
  - the JSON readers, `json.loads` and URI parsing;
  - Ruby `capitalize`, `to_s` and `Proxy.json_create`;
  - the IDE's `xlateArgument` and `capitalize`.

  The model promises nothing about their results.
- `SessionMapOptions.getSessionMap` is not part of this model. Its body holds unresolved merge-conflict markers (SessionMapOptions.java:79-85).
- Safari driver availability, found through the driver finder, is the `available` parameter. The service start-up itself is not modelled.
- Java `equalsIgnoreCase` is modelled on ASCII letters only. No Unicode case folding is done.
- Colour parsing is partial:
  - the percentage and HSL/HSLA notations of `color.rb` are recognised, but return an outcome outside the model instead of a colour, because their channel values need floating-point arithmetic;
  - alpha is a real number, not a Ruby float;
  - Ruby's `^`/`$` are line anchors, but the model anchors the whole string.
- SupportColor.RgbaRoundTrip: the round trip is proved only when the alpha is 1, or when `Float#to_s` writes it as a `0.d…` token that reads back as the alpha. Ruby writes small alphas in exponent form (`1.0e-05`), and the rgba pattern refuses that text.
- ManagerFiles.KeepVersionChars: a digit is an ASCII digit. Rust's `\d` in `[^\d^.]` also matches other Unicode decimal digits, which the model drops.
- ManagerFiles.ChooseDecompressor: the Debug text of the opened `File` (files.rs:72) is a parameter, since its layout is the Rust standard library's and differs by platform. The failures of `File::open` and of type detection (files.rs:70-71) are not modelled.
- `files.rs` archive extraction (unzip, untargz), the cache-root lookup and the storage configuration are left out as filesystem work. The cache root is a parameter.
- `NodeStatus`: the heartbeat, OS-information, node-id and URI setters and getters are plain field access and are not modelled. `touch` and the modelled setters stand for them.
- `RemoteCapabilities.W3CCapabilities.FirefoxOptions`: the Firefox profile accessors and the other methods Ruby defines dynamically beyond `firefox_options` are left out.
- `HubStatusServlet`: the HTTP plumbing of `doGet`/`doPost`, the request-body reading and the response writing are left out. The query parameter and the parsed body are inputs.
- `ErrorHandler.Decode`: `json.loads` is a parameter. A text that does not parse is kept as the value, as the code's `except` branch does.
- `GridData.NodeStatus.LastSessionCreated` is a ghost function. The maximum over a set cannot be computed without an order of traversal.
- RemoteCapabilities.JsonCreate: the `moz:firefoxOptions` entry is stored as if `firefox` had already run. Ruby defines `firefox_options=` only inside `firefox` (w3c_capabilities.rb:76-77), so before any `firefox` call line 128 raises NoMethodError for that entry.
- RemoteCapabilities.New: the object holds a copy of the options. Ruby keeps the caller's own hash (w3c_capabilities.rb:151), so the `delete(:proxy)` on line 152 removes the caller's entry and later writes through the object show in the caller's hash. That aliasing is not modelled.
- RemoteCapabilities.Firefox: the renames and deletions of w3c_capabilities.rb:83-88 change the caller's `opts` in Ruby. The model works on a copy, so the caller's hash is left as it was.
- RemoteCapabilities.AddJson: the TypeError message ends after the key's inspect text. Ruby appends the key's class and the value's inspect text (w3c_capabilities.rb:207), and the model has no class names for keys.
- RemoteCapabilities.AddJson: `upcase` of the `:platform` value maps ASCII letters only. Ruby's `upcase` also maps non-ASCII letters.
- RemoteCapabilities.JsonCreate and RemoteCapabilities.IsW3C: `[]` on a timeouts value or a desired-capabilities value that is not a Hash is the `index` parameter, which always yields a value. Ruby's `[]` raises TypeError or NoMethodError there for an Integer, an Array or true (w3c_capabilities.rb:96, 115-117); that error path is not modelled.
- SupportColor.Channels: the ArgumentError text shows the digit string without the quotes that Ruby's `Integer()` message puts around it.
- SupportColor.FromString: the "could not convert" text shows the input without the quotes of Ruby's `inspect` (color.rb:50).
- SupportColor.Hex: channels must be non-negative. Every colour `FromString` builds meets this, but a colour built directly with a negative channel has a `%02x` text in Ruby that the model does not define.
- DriverFactory.DefaultDriverFactory.GetProviderMatching: the IllegalStateException text stops before " %s" and the desired capabilities (DefaultDriverFactory.java:82), because capabilities have no text form in the model.
- DriverFactory.DefaultDriverFactory.NewInstance: the error text stops before " for %s" and the capabilities (DefaultDriverFactory.java:94), for the same reason.
- Capabilities.BrowserName: a non-string browser name gives "". Java would use the value's `toString`, which is not part of this model.
- LocalNodeSpec.ExternalSession: the stereotype of the returned session is the slot's. Java takes it from the active session (LocalNode.java:752); the model takes the two to be the same, since a slot starts its sessions with its own stereotype.
- LocalNodeSpec.ExecuteCommand: the NoSuchSession text for a request without a session id shows the request URI. Java shows the request's `toString` (LocalNode.java:547), which is not part of this model.
- LocalNodeSpec.Rewrite: the `URISyntaxException` that Java wraps in a RuntimeException (LocalNode.java:763-764) is not modelled; the model's URI is built from the grid URI's own components and a fixed path, and the model has no URI syntax to reject.
- GraphqlGrid.TotalSlots: the sums are unbounded integers. Java sums into an `int` (Grid.java:69-84), which would wrap on grids with more than 2^31 - 1 slots; this is not modelled. The same holds for GraphqlGrid.UsedSlots.
- HubStatusServlet.TotalSlots: the sum is an unbounded integer. Java sums into an `int` (HubStatusServlet.java:157-169), whose wrap-around is not modelled; the same holds for HubStatusServlet.UsedSlots.

## Findings

| source | as written | input that shows it | evidently intended | confidence | as-written member | corrected member |
|---|---|---|---|---|---|---|
| ide/plugins/csharp-format/src/content/formats/cs-wd.js:470 | the text-label branch of `select` emits `new Select(` where every other branch and `deselect` emit `new SelectElement(` | a select locator of type "label" with any text | `new SelectElement(ref).SelectByText(...)`, as `deselect` does | high, not executed | CSharpFormat.SelectByTextBuildsSelect | CSharpFormat.SelectMirrorsDeselect |
| ide/plugins/csharp-format/src/content/formats/cs-wd.js:606-607 | `javaScriptFix` trims the sentence, but both the test for a trailing `;` and the cut use the untrimmed length; with trailing spaces the test reads past the end of the trimmed text, finds no `;`, and keeps it | "a; " gives `a;return (+"");` | `return (a+"");`, the same as for "a;" | high, not executed | CSharpFormat.TrailingSpaceLosesLastStatement | CSharpFormat.JavaScriptFixShape |
