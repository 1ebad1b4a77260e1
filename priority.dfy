/** The request prioritizer of the grid's priority demo: requests flagged "_important" are served
    before the others, and requests of equal importance keep their queue order. */
module Prioritizer {
  import opened Strings

  /** A queued new-session request: its desired capabilities, each value held by its textual
      form (`toString()`). */
  type Request = map<string, string>

  /** `Boolean.parseBoolean`: true exactly for the text "true" in any letter case. */
  predicate ParseBoolean(s: string)
  {
    EqualsIgnoreCase(s, "true")
  }

  /** A missing "_important" entry counts as not important. */
  predicate IsImportant(r: Request)
  {
    "_important" in r && ParseBoolean(r["_important"])
  }

  /** The comparator: negative when `a` goes first, positive when `b` does, zero when both have
      the same importance. */
  function Compare(a: Request, b: Request): (c: int)
    ensures c == 0 <==> IsImportant(a) == IsImportant(b)
    ensures c == -1 <==> IsImportant(a) && !IsImportant(b)
    ensures c == 1 <==> !IsImportant(a) && IsImportant(b)
  {
    if IsImportant(a) == IsImportant(b) then 0
    else if IsImportant(a) && !IsImportant(b) then -1
    else 1
  }

  /** Swapping the arguments negates the result. */
  lemma Antisymmetric(a: Request, b: Request)
    ensures Compare(a, b) == -Compare(b, a)
  {
  }

  /** The order is transitive, so sorting by it is well defined. */
  lemma Transitive(a: Request, b: Request, c: Request)
    ensures Compare(a, b) <= 0 && Compare(b, c) <= 0 ==> Compare(a, c) <= 0
    ensures Compare(a, b) < 0 && Compare(b, c) <= 0 ==> Compare(a, c) < 0
  {
  }

  /** Requests of equal importance are interchangeable for the comparator. */
  lemma ZeroIsEquivalence(a: Request, b: Request, c: Request)
    requires Compare(a, b) == 0
    ensures Compare(a, c) == Compare(b, c)
  {
  }

  /** Whether the queue holds an important request. */
  predicate AnyImportant(queue: seq<Request>)
  {
    exists i | 0 <= i < |queue| :: IsImportant(queue[i])
  }

  /** The request the hub serves next when the queue is stably sorted by the comparator: the
      first important one, or else the head of the queue. */
  function Next(queue: seq<Request>): (i: nat)
    requires |queue| > 0
    ensures i < |queue|
    ensures forall j | 0 <= j < |queue| :: Compare(queue[i], queue[j]) <= 0
    ensures forall j | 0 <= j < i :: Compare(queue[j], queue[i]) > 0
  {
    if IsImportant(queue[0]) || |queue| == 1 then 0
    else
      var k := Next(queue[1..]);
      if IsImportant(queue[1..][k]) then k + 1 else 0
  }

  /** The served request is important exactly when the queue holds one. */
  lemma NextIsImportantIff(queue: seq<Request>)
    requires |queue| > 0
    ensures IsImportant(queue[Next(queue)]) <==> AnyImportant(queue)
  {
    if AnyImportant(queue) {
      var j :| 0 <= j < |queue| && IsImportant(queue[j]);
      assert Compare(queue[Next(queue)], queue[j]) <= 0;
    }
  }

  /** Removing the served request from the queue. */
  function Serve(queue: seq<Request>): (r: seq<Request>)
    requires |queue| > 0
    ensures |r| == |queue| - 1
    ensures r == queue[..Next(queue)] + queue[Next(queue) + 1..]
  {
    queue[..Next(queue)] + queue[Next(queue) + 1..]
  }

  const Plain: Request := map["browserName" := "htmlunit"]
  const Important: Request := map["browserName" := "htmlunit", "_important" := "true"]

  /** The demo's queue: five plain requests, the important one, five more plain ones. */
  function DemoQueue(): (q: seq<Request>)
    ensures |q| == 11
  {
    [Plain, Plain, Plain, Plain, Plain, Important, Plain, Plain, Plain, Plain, Plain]
  }

  /** The served request is the first important one when there is one. */
  lemma {:induction false} NextIsFirstImportant(queue: seq<Request>, k: nat)
    requires k < |queue| && IsImportant(queue[k])
    requires forall j | 0 <= j < k :: !IsImportant(queue[j])
    ensures Next(queue) == k
  {
    if k > 0 {
      NextIsFirstImportant(queue[1..], k - 1);
    }
  }

  /** The demo flags its request with the boolean true, whose text is "true". */
  lemma ImportantIsFlagged()
    ensures IsImportant(Important) && !IsImportant(Plain)
  {
    assert Important["_important"] == "true";
  }

  /** Five plain requests, one important, five plain: the important one is served and the ten
      plain ones remain. */
  lemma {:induction false} ServesTheSixth(plain: Request, important: Request)
    requires !IsImportant(plain) && IsImportant(important)
    ensures var q := seq(5, _ => plain) + [important] + seq(5, _ => plain);
      Next(q) == 5 && Serve(q) == seq(10, _ => plain)
  {
    var q := seq(5, _ => plain) + [important] + seq(5, _ => plain);
    NextIsFirstImportant(q, 5);
    assert Serve(q) == q[..5] + q[6..];
  }

  /** Freeing the single slot serves the sixth, important request; ten plain requests remain. */
  lemma DemoServesImportantFirst()
    ensures Next(DemoQueue()) == 5
    ensures Serve(DemoQueue()) == seq(10, _ => Plain)
  {
    ImportantIsFlagged();
    ServesTheSixth(Plain, Important);
    assert DemoQueue() == seq(5, _ => Plain) + [Important] + seq(5, _ => Plain);
  }
}
