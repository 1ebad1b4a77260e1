/** The GraphQL view of the whole Grid (org.openqa.selenium.grid.graphql.Grid): slot totals and
    the node list, all read from one memoised snapshot of the Distributor's status. */
module GraphqlGrid {
  import opened Wrappers
  import opened Capabilities

  /** One node of the Distributor's status: its stereotypes with their slot counts, and the
      counts of those in use. */
  datatype NodeSummary = NodeSummary(
    nodeId: string, uri: string, up: bool, maxSessionCount: int,
    stereotypes: seq<(Caps, int)>, usedStereotypes: seq<(Caps, int)>)

  datatype DistributorStatus = DistributorStatus(nodes: seq<NodeSummary>)

  /** The GraphQL `Node` type as `getNodes` builds it. */
  datatype GraphNode = GraphNode(id: string, uri: string, up: bool, maxSessionCount: int, stereotypes: seq<(Caps, int)>)

  /** Sum of the counts of a stereotype table. */
  function SumCounts(entries: seq<(Caps, int)>): int
  {
    if entries == [] then 0 else SumCounts(entries[..|entries| - 1]) + entries[|entries| - 1].1
  }

  function Min(a: int, b: int): int { if a <= b then a else b }

  /** The slots a node contributes to the total: its stereotype count, capped by its session limit. */
  function NodeSlots(n: NodeSummary): (r: int)
    ensures r <= n.maxSessionCount && r <= SumCounts(n.stereotypes)
    ensures r == n.maxSessionCount || r == SumCounts(n.stereotypes)
  {
    Min(n.maxSessionCount, SumCounts(n.stereotypes))
  }

  /** `getTotalSlots` over a snapshot. */
  function TotalSlots(nodes: seq<NodeSummary>): int
  {
    if nodes == [] then 0 else TotalSlots(nodes[..|nodes| - 1]) + NodeSlots(nodes[|nodes| - 1])
  }

  /** `getUsedSlots` over a snapshot. */
  function UsedSlots(nodes: seq<NodeSummary>): int
  {
    if nodes == [] then 0 else UsedSlots(nodes[..|nodes| - 1]) + SumCounts(nodes[|nodes| - 1].usedStereotypes)
  }

  /** Sum of the session limits of the nodes. */
  function SumMax(nodes: seq<NodeSummary>): int
  {
    if nodes == [] then 0 else SumMax(nodes[..|nodes| - 1]) + nodes[|nodes| - 1].maxSessionCount
  }

  /** Sum of the stereotype counts of the nodes. */
  function SumStereotypes(nodes: seq<NodeSummary>): int
  {
    if nodes == [] then 0 else SumStereotypes(nodes[..|nodes| - 1]) + SumCounts(nodes[|nodes| - 1].stereotypes)
  }

  /** The total never exceeds either the sum of the session limits or the sum of the slot counts. */
  lemma {:induction false} TotalSlotsBounded(nodes: seq<NodeSummary>)
    ensures TotalSlots(nodes) <= SumMax(nodes) && TotalSlots(nodes) <= SumStereotypes(nodes)
    decreases |nodes|
  {
    if nodes != [] {
      TotalSlotsBounded(nodes[..|nodes| - 1]);
    }
  }

  /** Totals over a snapshot split into two parts add up. */
  lemma {:induction false} TotalSlotsAppend(a: seq<NodeSummary>, b: seq<NodeSummary>)
    ensures TotalSlots(a + b) == TotalSlots(a) + TotalSlots(b)
    ensures UsedSlots(a + b) == UsedSlots(a) + UsedSlots(b)
    decreases |b|
  {
    if b == [] {
      assert a + b == a;
    } else {
      assert (a + b)[..|a + b| - 1] == a + b[..|b| - 1];
      TotalSlotsAppend(a, b[..|b| - 1]);
    }
  }

  function ToGraphNode(n: NodeSummary): GraphNode
  {
    GraphNode(n.nodeId, n.uri, n.up, n.maxSessionCount, n.stereotypes)
  }

  datatype GridError = NullArgument(name: string)

  class Grid {
    const uri: string
    const sessionCount: int
    /** The memoised Distributor status: empty until a getter first asks for it. */
    var snapshot: Option<DistributorStatus>

    constructor (uri: string, sessionCount: int)
      ensures this.uri == uri && this.sessionCount == sessionCount && snapshot.None?
    {
      this.uri := uri;
      this.sessionCount := sessionCount;
      snapshot := None;
    }

    /** `new Grid(distributor, uri, sessions)`: the Distributor and the URI must be present; the
        session count is read once, here. */
    static method Build(distributorPresent: bool, uri: Option<string>, sessionCount: int)
      returns (r: Result<Grid, GridError>)
      ensures !distributorPresent ==> r == Err(NullArgument("Distributor"))
      ensures distributorPresent && uri.None? ==> r == Err(NullArgument("Grid's public URI"))
      ensures distributorPresent && uri.Some? ==>
        (r.Ok? && fresh(r.value) && r.value.uri == uri.value &&
         r.value.sessionCount == sessionCount && r.value.snapshot.None?)
    {
      if !distributorPresent {
        return Err(NullArgument("Distributor"));
      }
      if uri.None? {
        return Err(NullArgument("Grid's public URI"));
      }
      var g := new Grid(uri.value, sessionCount);
      return Ok(g);
    }

    /** The memoising supplier: `current` is what the Distributor would answer now; only the
        first call's answer is kept and every later call returns it. */
    method Status(current: DistributorStatus) returns (s: DistributorStatus)
      modifies this`snapshot
      ensures old(snapshot).Some? ==> s == old(snapshot).value && snapshot == old(snapshot)
      ensures old(snapshot).None? ==> s == current && snapshot == Some(current)
    {
      if snapshot.None? {
        snapshot := Some(current);
      }
      s := snapshot.value;
    }

    /** `getNodes`: one GraphQL node per summary, in snapshot order. */
    method GetNodes(current: DistributorStatus) returns (nodes: seq<GraphNode>)
      modifies this`snapshot
      ensures old(snapshot).Some? ==> snapshot == old(snapshot)
      ensures old(snapshot).None? ==> snapshot == Some(current)
      ensures |nodes| == |snapshot.value.nodes|
      ensures forall i | 0 <= i < |nodes| :: nodes[i] == ToGraphNode(snapshot.value.nodes[i])
    {
      var s := Status(current);
      nodes := seq(|s.nodes|, i requires 0 <= i < |s.nodes| => ToGraphNode(s.nodes[i]));
    }

    /** `getTotalSlots`. */
    method GetTotalSlots(current: DistributorStatus) returns (n: int)
      modifies this`snapshot
      ensures old(snapshot).Some? ==> snapshot == old(snapshot)
      ensures old(snapshot).None? ==> snapshot == Some(current)
      ensures n == TotalSlots(snapshot.value.nodes)
    {
      var s := Status(current);
      n := TotalSlots(s.nodes);
    }

    /** `getUsedSlots`. */
    method GetUsedSlots(current: DistributorStatus) returns (n: int)
      modifies this`snapshot
      ensures old(snapshot).Some? ==> snapshot == old(snapshot)
      ensures old(snapshot).None? ==> snapshot == Some(current)
      ensures n == UsedSlots(snapshot.value.nodes)
    {
      var s := Status(current);
      n := UsedSlots(s.nodes);
    }
  }

  /** Two getters on one Grid read the same snapshot, whatever the Distributor says in between. */
  method SameSnapshot(g: Grid, first: DistributorStatus, later: DistributorStatus)
    returns (total: int, used: int)
    modifies g
    ensures g.snapshot.Some?
    ensures total == TotalSlots(g.snapshot.value.nodes) && used == UsedSlots(g.snapshot.value.nodes)
    ensures old(g.snapshot).None? ==> g.snapshot == Some(first)
  {
    total := g.GetTotalSlots(first);
    used := g.GetUsedSlots(later);
  }
}
