/**
  Where a running chain stands: its issues in the order a chain takes them — blockers
  first, ties by number — and what each one is waiting on.
  */
module Chains {
  import opened Options

  datatype IssueState = Open | Closed

  datatype Blocker = Blocker(number: nat, state: IssueState)

  datatype Issue = Issue(number: nat, title: string, state: IssueState, blockedBy: seq<Blocker>)

  // ------------------------------------------------------------------ by number

  predicate Ascending(issues: seq<Issue>) {
    forall j, k :: 0 <= j < k < |issues| ==> issues[j].number <= issues[k].number
  }

  function Insert(sorted: seq<Issue>, i: Issue): seq<Issue> {
    if sorted == [] || i.number < sorted[0].number then [i] + sorted
    else [sorted[0]] + Insert(sorted[1..], i)
  }

  /** `issues` by number, those of one number in the order given. */
  function ByNumber(issues: seq<Issue>): seq<Issue> {
    if issues == [] then [] else Insert(ByNumber(issues[..|issues| - 1]), issues[|issues| - 1])
  }

  lemma InsertLater(sorted: seq<Issue>, i: Issue)
    requires sorted != [] && sorted[0].number <= i.number
    ensures Insert(sorted, i) == [sorted[0]] + Insert(sorted[1..], i)
  {
  }

  lemma {:induction false} InsertAdds(sorted: seq<Issue>, i: Issue)
    ensures multiset(Insert(sorted, i)) == multiset(sorted) + multiset{i}
  {
    if sorted != [] && sorted[0].number <= i.number {
      InsertAdds(sorted[1..], i);
      assert sorted == [sorted[0]] + sorted[1..];
    }
  }

  lemma AscendingCons(first: Issue, rest: seq<Issue>)
    requires Ascending(rest) && forall x :: x in multiset(rest) ==> first.number <= x.number
    ensures Ascending([first] + rest)
  {
    assert forall k :: 0 <= k < |rest| ==> rest[k] in multiset(rest);
  }

  lemma {:induction false} InsertKeeps(sorted: seq<Issue>, i: Issue)
    requires Ascending(sorted)
    ensures Ascending(Insert(sorted, i))
  {
    if sorted != [] && sorted[0].number <= i.number {
      InsertLater(sorted, i);
      hide Insert, Ascending;
      InsertTail(sorted);
      InsertKeeps(sorted[1..], i);
      InsertAdds(sorted[1..], i);
      AscendingCons(sorted[0], Insert(sorted[1..], i));
    }
  }

  lemma InsertTail(sorted: seq<Issue>)
    requires sorted != [] && Ascending(sorted)
    ensures Ascending(sorted[1..]) && forall x :: x in multiset(sorted[1..]) ==> sorted[0].number <= x.number
  {
    assert forall x :: x in multiset(sorted[1..]) ==> x in sorted[1..];
  }

  lemma {:induction false} ByNumberSorts(issues: seq<Issue>)
    ensures Ascending(ByNumber(issues)) && multiset(ByNumber(issues)) == multiset(issues)
  {
    if issues != [] {
      var front, last := issues[..|issues| - 1], issues[|issues| - 1];
      assert issues == front + [last];
      ByNumberSorts(front);
      InsertKeeps(ByNumber(front), last);
      InsertAdds(ByNumber(front), last);
    }
  }

  // ------------------------------------------------------------------ the order

  function Numbers(issues: seq<Issue>): set<nat> {
    set i | i in issues :: i.number
  }

  /** Nothing of the chain still to be placed blocks `i`. */
  predicate Free(i: Issue, inChain: set<nat>, placed: set<nat>) {
    forall b :: b in i.blockedBy ==> b.number !in inChain || b.number in placed
  }

  /** The first free issue of `left`, or the first issue when none is free. */
  function Pick(left: seq<Issue>, inChain: set<nat>, placed: set<nat>): (at: nat)
    requires left != []
    ensures at < |left|
    ensures if exists k :: 0 <= k < |left| && Free(left[k], inChain, placed)
            then Free(left[at], inChain, placed) && forall k :: 0 <= k < at ==> !Free(left[k], inChain, placed)
            else at == 0
  {
    var free := FirstFree(left, inChain, placed);
    if free == |left| then 0 else free
  }

  function FirstFree(left: seq<Issue>, inChain: set<nat>, placed: set<nat>): (at: nat)
    ensures at <= |left|
    ensures forall k :: 0 <= k < at ==> !Free(left[k], inChain, placed)
    ensures at < |left| ==> Free(left[at], inChain, placed)
  {
    if left == [] || Free(left[0], inChain, placed) then 0 else 1 + FirstFree(left[1..], inChain, placed)
  }

  function Without(left: seq<Issue>, at: nat): seq<Issue>
    requires at < |left|
  {
    left[..at] + left[at + 1..]
  }

  /** What is still to come once `placed` are, taken from `left`. */
  function OrderFrom(left: seq<Issue>, inChain: set<nat>, placed: set<nat>): seq<Issue>
    decreases |left|
  {
    if left == [] then []
    else
      var at := Pick(left, inChain, placed);
      [left[at]] + OrderFrom(Without(left, at), inChain, placed + {left[at].number})
  }

  function OrderOf(issues: seq<Issue>): seq<Issue> {
    OrderFrom(ByNumber(issues), Numbers(issues), {})
  }

  /** `findIndex`, and the splice's answer to finding nothing. */
  method FindFree(left: seq<Issue>, inChain: set<nat>, placed: set<nat>) returns (at: nat)
    requires left != []
    ensures at == Pick(left, inChain, placed)
  {
    hide Free;
    at := 0;
    while at < |left| && !Free(left[at], inChain, placed)
      invariant at <= |left|
      invariant forall k :: 0 <= k < at ==> !Free(left[k], inChain, placed)
    {
      at := at + 1;
    }
    if at == |left| {
      at := 0;
    }
  }

  /** `issues` in the chain's order, as the page computes it: spliced out of what is left, one at a time. */
  method OrderChain(issues: seq<Issue>) returns (order: seq<Issue>)
    ensures order == OrderOf(issues)
  {
    hide Free, Pick;
    var inChain := Numbers(issues);
    var left := ByNumber(issues);
    var placed: set<nat> := {};
    order := [];
    while left != []
      invariant order + OrderFrom(left, inChain, placed) == OrderOf(issues)
      decreases |left|
    {
      var at := FindFree(left, inChain, placed);
      var issue := left[at];
      ghost var rest := OrderFrom(Without(left, at), inChain, placed + {issue.number});
      assert order + ([issue] + rest) == (order + [issue]) + rest;
      left, placed, order := Without(left, at), placed + {issue.number}, order + [issue];
    }
  }

  lemma {:induction false} OrderFromPermutes(left: seq<Issue>, inChain: set<nat>, placed: set<nat>)
    ensures multiset(OrderFrom(left, inChain, placed)) == multiset(left)
    decreases |left|
  {
    if left != [] {
      var at := Pick(left, inChain, placed);
      OrderFromPermutes(Without(left, at), inChain, placed + {left[at].number});
      assert left == left[..at] + ([left[at]] + left[at + 1..]);
    }
  }

  /** The order drops nothing and repeats nothing, whatever blocks what. */
  lemma OrderPermutes(issues: seq<Issue>)
    ensures multiset(OrderOf(issues)) == multiset(issues)
    ensures |OrderOf(issues)| == |issues|
  {
    ByNumberSorts(issues);
    OrderFromPermutes(ByNumber(issues), Numbers(issues), {});
    assert |multiset(OrderOf(issues))| == |multiset(issues)|;
  }

  // ------------------------------------------------------------------ greedy

  /**
    `i` is the lowest-numbered of those free among `left`; only when nothing is free is it
    one that is not, the lowest left.
    */
  ghost predicate Best(i: Issue, left: seq<Issue>, inChain: set<nat>, placed: set<nat>) {
    && i in left
    && if exists x :: x in left && Free(x, inChain, placed)
       then Free(i, inChain, placed) && forall x :: x in left && Free(x, inChain, placed) ==> i.number <= x.number
       else forall x :: x in left ==> i.number <= x.number
  }

  /** The issue at `k` is the best of those from `k` on, once everything before it is placed. */
  ghost predicate GreedyAt(order: seq<Issue>, inChain: set<nat>, placed: set<nat>, k: nat)
    requires k < |order|
  {
    Best(order[k], order[k..], inChain, placed + Numbers(order[..k]))
  }

  lemma PickIsBest(left: seq<Issue>, inChain: set<nat>, placed: set<nat>)
    requires left != [] && Ascending(left)
    ensures Best(left[Pick(left, inChain, placed)], left, inChain, placed)
  {
    var at := Pick(left, inChain, placed);
    forall x | x in left && Free(x, inChain, placed)
      ensures left[at].number <= x.number
    {
      var m :| 0 <= m < |left| && left[m] == x;
    }
    forall x | x in left
      ensures left[0].number <= x.number
    {
      var m :| 0 <= m < |left| && left[m] == x;
    }
  }

  lemma {:induction false} OrderFromIsGreedy(left: seq<Issue>, inChain: set<nat>, placed: set<nat>, k: nat)
    requires Ascending(left) && k < |OrderFrom(left, inChain, placed)|
    ensures GreedyAt(OrderFrom(left, inChain, placed), inChain, placed, k)
    decreases |left|
  {
    hide Best, Free;
    var order := OrderFrom(left, inChain, placed);
    var at := Pick(left, inChain, placed);
    var rest := OrderFrom(Without(left, at), inChain, placed + {left[at].number});
    if k == 0 {
      assert order[..0] == [] && order[0..] == order;
      assert placed + Numbers([]) == placed;
      OrderFromPermutes(left, inChain, placed);
      PickIsBest(left, inChain, placed);
      PermutedAlike(order, left);
      BestAlike(left[at], order, left, inChain, placed);
    } else {
      OrderFromIsGreedy(Without(left, at), inChain, placed + {left[at].number}, k - 1);
      assert order[..k] == [left[at]] + rest[..k - 1];
      NumbersCons(left[at], rest[..k - 1]);
      assert placed + {left[at].number} + Numbers(rest[..k - 1]) == placed + Numbers(order[..k]);
      assert order[k..] == rest[k - 1..];
    }
  }

  lemma NumbersCons(i: Issue, rest: seq<Issue>)
    ensures Numbers([i] + rest) == {i.number} + Numbers(rest)
  {
  }

  lemma BestAlike(i: Issue, a: seq<Issue>, b: seq<Issue>, inChain: set<nat>, placed: set<nat>)
    requires forall x :: x in a <==> x in b
    requires Best(i, b, inChain, placed)
    ensures Best(i, a, inChain, placed)
  {
  }

  /** Every choice the order makes is the one a chain's rule makes there. */
  lemma OrderIsGreedy(issues: seq<Issue>, k: nat)
    requires k < |issues|
    ensures |OrderOf(issues)| == |issues| && GreedyAt(OrderOf(issues), Numbers(issues), {}, k)
  {
    OrderPermutes(issues);
    ByNumberSorts(issues);
    OrderFromIsGreedy(ByNumber(issues), Numbers(issues), {}, k);
  }

  // ------------------------------------------------------------------ blockers first

  /** Every issue comes after every blocker of it that is in the chain. */
  ghost predicate BlockersFirst(order: seq<Issue>, inChain: set<nat>) {
    forall k :: 0 <= k < |order| ==> Free(order[k], inChain, Numbers(order[..k]))
  }

  ghost predicate DistinctNumbers(issues: seq<Issue>) {
    forall j, k :: 0 <= j < k < |issues| ==> issues[j].number != issues[k].number
  }

  predicate BlockedBy(i: Issue, number: nat) {
    exists b :: b in i.blockedBy && b.number == number
  }

  /** A ring of issues, each blocked by the one after it, the last by the first. */
  ghost predicate IsRing(issues: seq<Issue>, ring: seq<Issue>) {
    && ring != []
    && (forall k :: 0 <= k < |ring| ==> ring[k] in issues)
    && (forall k :: 0 <= k < |ring| - 1 ==> BlockedBy(ring[k], ring[k + 1].number))
    && BlockedBy(ring[|ring| - 1], ring[0].number)
  }

  ghost predicate Acyclic(issues: seq<Issue>) {
    forall ring :: !IsRing(issues, ring)
  }

  lemma PermutedAlike(order: seq<Issue>, issues: seq<Issue>)
    requires multiset(order) == multiset(issues)
    ensures |order| == |issues|
    ensures forall i :: i in order <==> i in issues
    ensures Numbers(order) == Numbers(issues)
  {
    assert |multiset(order)| == |multiset(issues)|;
    assert forall i :: i in order <==> i in multiset(order);
    assert forall i :: i in issues <==> i in multiset(issues);
  }

  lemma PermutedDistinct(order: seq<Issue>, issues: seq<Issue>)
    requires multiset(order) == multiset(issues) && DistinctNumbers(issues)
    ensures DistinctNumbers(order)
  {
    PermutedAlike(order, issues);
    assert issues[..|issues|] == issues;
    forall j, k | 0 <= j < k < |order|
      ensures order[j].number != order[k].number
    {
      if order[j].number == order[k].number {
        assert order[j] in order && order[k] in order;
        var a :| 0 <= a < |issues| && issues[a] == order[j];
        var b :| 0 <= b < |issues| && issues[b] == order[k];
        CountOnce(issues, a, |issues|);
        CountTwice(order, j, k);
      }
    }
  }

  lemma CountTwice(order: seq<Issue>, j: nat, k: nat)
    requires j < k < |order| && order[j] == order[k]
    ensures multiset(order)[order[j]] >= 2
  {
    assert order == order[..j] + ([order[j]] + order[j + 1..k]) + ([order[k]] + order[k + 1..]);
  }

  lemma {:induction false} CountOnce(issues: seq<Issue>, a: nat, n: nat)
    requires DistinctNumbers(issues) && a < |issues| && n <= |issues|
    ensures multiset(issues[..n])[issues[a]] == if a < n then 1 else 0
  {
    if n > 0 {
      CountOnce(issues, a, n - 1);
      assert issues[..n] == issues[..n - 1] + [issues[n - 1]];
    }
  }

  /** Where a ring is, something in it comes before its own blocker. */
  lemma {:induction false} RingDescends(order: seq<Issue>, ring: seq<Issue>, at: seq<nat>, k: nat)
    requires BlockersFirst(order, Numbers(order)) && DistinctNumbers(order) && IsRing(order, ring)
    requires |at| == |ring| && forall j :: 0 <= j < |ring| ==> at[j] < |order| && order[at[j]] == ring[j]
    requires k < |ring|
    ensures at[k] + k <= at[0]
  {
    if k > 0 {
      RingDescends(order, ring, at, k - 1);
      BlockerBefore(order, at[k - 1], at[k]);
    }
  }

  lemma BlockerBefore(order: seq<Issue>, j: nat, k: nat)
    requires BlockersFirst(order, Numbers(order)) && DistinctNumbers(order)
    requires j < |order| && k < |order| && BlockedBy(order[j], order[k].number)
    ensures k < j
  {
    assert order[k].number in Numbers(order);
    assert order[k].number in Numbers(order[..j]);
    var i :| i in order[..j] && i.number == order[k].number;
    var m :| 0 <= m < j && order[m] == i;
  }

  lemma RingBreaksOrder(order: seq<Issue>, ring: seq<Issue>)
    requires DistinctNumbers(order) && IsRing(order, ring)
    ensures !BlockersFirst(order, Numbers(order))
  {
    if BlockersFirst(order, Numbers(order)) {
      var at := seq(|ring|, k requires 0 <= k < |ring| => PositionOf(order, ring[k]));
      RingDescends(order, ring, at, |ring| - 1);
      BlockerBefore(order, at[|ring| - 1], at[0]);
    }
  }

  ghost function PositionOf(order: seq<Issue>, i: Issue): (at: nat)
    requires i in order
    ensures at < |order| && order[at] == i
  {
    var k :| 0 <= k < |order| && order[k] == i; k
  }

  // ------------------------------------------------------------------ a ring when nothing is free

  /** The issue at `k` blocks the one at `j`. */
  predicate Steps(left: seq<Issue>, j: nat, k: nat) {
    j < |left| && k < |left| && BlockedBy(left[j], left[k].number)
  }

  ghost predicate HasStep(left: seq<Issue>, j: nat) {
    exists k :: Steps(left, j, k)
  }

  ghost predicate AllBlocked(left: seq<Issue>) {
    forall j :: 0 <= j < |left| ==> HasStep(left, j)
  }

  ghost function BlockerIn(left: seq<Issue>, j: nat): (k: nat)
    requires HasStep(left, j)
    ensures Steps(left, j, k)
  {
    var k: nat :| Steps(left, j, k); k
  }

  /** A walk from the first issue, each step to a blocker of the last. */
  ghost function Walk(left: seq<Issue>, steps: nat): (walk: seq<nat>)
    requires AllBlocked(left) && left != []
    ensures |walk| == steps + 1
    ensures forall j :: 0 <= j < |walk| ==> walk[j] < |left|
    ensures forall j :: 0 <= j < steps ==> Steps(left, walk[j], walk[j + 1])
  {
    if steps == 0 then [0]
    else
      var before := Walk(left, steps - 1);
      assert HasStep(left, before[steps - 1]);
      before + [BlockerIn(left, before[steps - 1])]
  }

  ghost function Below(n: nat): (all: set<nat>)
    ensures |all| == n && forall j: nat :: j in all <==> j < n
  {
    if n == 0 then {} else Below(n - 1) + {n - 1}
  }

  ghost function Seen(walk: seq<nat>): (all: set<nat>)
    requires forall j, k :: 0 <= j < k < |walk| ==> walk[j] != walk[k]
    ensures |all| == |walk| && forall x :: x in all <==> x in walk
  {
    if walk == [] then {}
    else
      assert walk == walk[..|walk| - 1] + [walk[|walk| - 1]];
      Seen(walk[..|walk| - 1]) + {walk[|walk| - 1]}
  }

  lemma SubsetSize(a: set<nat>, b: set<nat>)
    requires a <= b
    ensures |a| <= |b|
  {
    assert b == a + (b - a);
  }

  /** More numbers below `n` than `n` of them: one comes twice. */
  lemma Pigeonhole(walk: seq<nat>, n: nat)
    requires |walk| > n && forall j :: 0 <= j < |walk| ==> walk[j] < n
    ensures exists j, k :: 0 <= j < k < |walk| && walk[j] == walk[k]
  {
    if forall j, k :: 0 <= j < k < |walk| ==> walk[j] != walk[k] {
      SubsetSize(Seen(walk), Below(n));
    }
  }

  /** Where every issue left is blocked by one left, there is a ring. */
  lemma BlockedLeftHasRing(left: seq<Issue>)
    requires left != [] && AllBlocked(left)
    ensures exists ring :: IsRing(left, ring)
  {
    hide BlockedBy, HasStep;
    var walk := Walk(left, |left|);
    Pigeonhole(walk, |left|);
    var j, k :| 0 <= j < k < |walk| && walk[j] == walk[k];
    var ring := seq(k - j, m requires 0 <= m < k - j => left[walk[j + m]]);
    assert Steps(left, walk[k - 1], walk[k]);
    forall m | 0 <= m < |ring| - 1
      ensures BlockedBy(ring[m], ring[m + 1].number)
    {
      assert Steps(left, walk[j + m], walk[j + m + 1]);
    }
    assert IsRing(left, ring);
  }

  lemma NotFreeIsBlocked(order: seq<Issue>, k: nat, j: nat)
    requires k + j < |order| && !Free(order[k + j], Numbers(order), Numbers(order[..k]))
    ensures HasStep(order[k..], j)
  {
    var b :| b in order[k + j].blockedBy && b.number in Numbers(order) && b.number !in Numbers(order[..k]);
    var i :| i in order && i.number == b.number;
    var m :| 0 <= m < |order| && order[m] == i;
    assert forall n :: 0 <= n < k ==> order[n] in order[..k];
    assert BlockedBy(order[k + j], order[m].number);
    assert Steps(order[k..], j, m - k);
  }

  /**
    The chain's order puts every in-chain blocker first exactly when no ring of issues
    block each other; a ring is what the order breaks by number rather than drop.
    */
  lemma BlockersFirstIffAcyclic(issues: seq<Issue>)
    requires DistinctNumbers(issues)
    ensures BlockersFirst(OrderOf(issues), Numbers(issues)) <==> Acyclic(issues)
  {
    var order := OrderOf(issues);
    OrderPermutes(issues);
    PermutedAlike(order, issues);
    PermutedDistinct(order, issues);
    if BlockersFirst(order, Numbers(issues)) {
      forall ring
        ensures !IsRing(issues, ring)
      {
        if IsRing(issues, ring) {
          assert IsRing(order, ring);
          RingBreaksOrder(order, ring);
        }
      }
    } else {
      var k :| 0 <= k < |order| && !Free(order[k], Numbers(issues), Numbers(order[..k]));
      NothingFreeHasRing(issues, k);
    }
  }

  lemma NothingFreeHasRing(issues: seq<Issue>, k: nat)
    requires k < |OrderOf(issues)|
    requires !Free(OrderOf(issues)[k], Numbers(issues), Numbers(OrderOf(issues)[..k]))
    ensures !Acyclic(issues)
  {
    hide OrderOf, Free, HasStep;
    var order := OrderOf(issues);
    OrderPermutes(issues);
    PermutedAlike(order, issues);
    OrderIsGreedy(issues, k);
    assert {} + Numbers(order[..k]) == Numbers(order[..k]);
    var left := order[k..];
    forall j | 0 <= j < |left|
      ensures HasStep(left, j)
    {
      assert left[j] in left && left[j] == order[k + j];
      NotFreeIsBlocked(order, k, j);
    }
    BlockedLeftHasRing(left);
    var ring :| IsRing(left, ring);
    RingOfMore(left, issues, ring);
  }

  lemma RingOfMore(left: seq<Issue>, issues: seq<Issue>, ring: seq<Issue>)
    requires IsRing(left, ring) && forall i :: i in left ==> i in issues
    ensures IsRing(issues, ring)
  {
  }

  // ------------------------------------------------------------------ the least order by number

  /** `a` comes no later than `b`, read number by number. */
  ghost predicate NoLater(a: seq<Issue>, b: seq<Issue>) {
    || a == b
    || exists k :: 0 <= k < |a| && k < |b| && a[..k] == b[..k] && a[k].number < b[k].number
  }

  ghost function FirstDifference(a: seq<Issue>, b: seq<Issue>): (k: nat)
    requires |a| == |b|
    ensures k <= |a| && a[..k] == b[..k]
    ensures k < |a| ==> a[k] != b[k]
  {
    if a == [] || a[0] != b[0] then 0
    else
      var k := FirstDifference(a[1..], b[1..]);
      assert a[..k + 1] == [a[0]] + a[1..][..k] && b[..k + 1] == [b[0]] + b[1..][..k];
      k + 1
  }

  /**
    Of every order of the issues that puts blockers first, the chain's is the least: at the
    first place another differs, the chain's takes the lower number.
    */
  lemma OrderIsLeast(issues: seq<Issue>, other: seq<Issue>)
    requires DistinctNumbers(issues)
    requires multiset(other) == multiset(issues) && BlockersFirst(other, Numbers(issues))
    ensures NoLater(OrderOf(issues), other)
  {
    var order := OrderOf(issues);
    OrderPermutes(issues);
    PermutedAlike(order, issues);
    PermutedAlike(other, issues);
    PermutedDistinct(order, issues);
    var k := FirstDifference(order, other);
    if k == |order| {
      assert order[..k] == order && other[..k] == other;
    } else {
      OrderIsGreedy(issues, k);
      assert {} + Numbers(order[..k]) == Numbers(order[..k]);
      StillLeft(order, other, k);
      assert order[k].number <= other[k].number;
      var m :| k <= m < |order| && order[m] == other[k];
    }
  }

  lemma StillLeft(order: seq<Issue>, other: seq<Issue>, k: nat)
    requires multiset(order) == multiset(other) && |order| == |other| && k < |other| && order[..k] == other[..k]
    ensures other[k] in order[k..]
    ensures exists m :: k <= m < |order| && order[m] == other[k]
  {
    assert order == order[..k] + order[k..] && other == other[..k] + other[k..];
    assert multiset(order) == multiset(order[..k]) + multiset(order[k..]);
    assert multiset(other) == multiset(other[..k]) + multiset(other[k..]);
    assert multiset(order[k..]) == multiset(order) - multiset(order[..k]);
    assert other[k] == other[k..][0];
    assert other[k] in multiset(order[k..]);
    var j :| 0 <= j < |order[k..]| && order[k..][j] == other[k];
    assert order[k + j] == other[k];
  }

  // ------------------------------------------------------------------ the view

  datatype Worker = Worker(name: string, issue: nat)

  datatype ChainIssueState = Merged | InProgress | Blocked | Next | Waiting

  datatype ChainIssue = ChainIssue(
    issue: nat, title: string, state: ChainIssueState, worker: Option<string>, blockers: seq<nat>)

  datatype Listing = Listing(issues: Option<seq<Issue>>, warning: Option<string>)

  datatype Unknown = NoPlan | NoListing(warning: Option<string>) | NoIssues

  datatype ChainView = Known(issues: seq<ChainIssue>) | Unknown(why: Unknown)

  /** The numbers of the open blockers of `i` that are not in the chain. */
  function OpenOutside(blockedBy: seq<Blocker>, inChain: set<nat>): seq<nat> {
    if blockedBy == [] then []
    else
      var b := blockedBy[0];
      (if b.number !in inChain && b.state.Open? then [b.number] else []) + OpenOutside(blockedBy[1..], inChain)
  }

  /** The latest worker started on an open issue. */
  function WorkerOn(workers: seq<Worker>, i: Issue): Option<string> {
    if i.state.Closed? || workers == [] then None
    else if workers[|workers| - 1].issue == i.number then Some(workers[|workers| - 1].name)
    else WorkerOn(workers[..|workers| - 1], i)
  }

  predicate AllClosed(blockedBy: seq<Blocker>) {
    forall b :: b in blockedBy ==> b.state.Closed?
  }

  /** Open, with nobody on it, and every blocker of it closed. */
  predicate Startable(i: Issue, workers: seq<Worker>) {
    i.state.Open? && WorkerOn(workers, i).None? && AllClosed(i.blockedBy)
  }

  /** Where the issue at `k` of the order stands. */
  ghost predicate StandsAt(order: seq<Issue>, inChain: set<nat>, workers: seq<Worker>, k: nat, at: ChainIssue)
    requires k < |order|
  {
    var i := order[k];
    && at.issue == i.number && at.title == i.title
    && at.worker == WorkerOn(workers, i)
    && at.blockers == OpenOutside(i.blockedBy, inChain)
    && (at.state.Merged? <==> i.state.Closed?)
    && (at.state.InProgress? <==> at.worker.Some?)
    && (at.state.Blocked? <==> i.state.Open? && at.worker.None? && at.blockers != [])
    && (at.state.Next? <==> Startable(i, workers) && forall j :: 0 <= j < k ==> !Startable(order[j], workers))
  }

  lemma {:induction false} StartableIsUnblocked(blockedBy: seq<Blocker>, inChain: set<nat>)
    requires AllClosed(blockedBy)
    ensures OpenOutside(blockedBy, inChain) == []
  {
    if blockedBy != [] {
      assert blockedBy[0] in blockedBy;
      StartableIsUnblocked(blockedBy[1..], inChain);
    }
  }

  /** The view of a chain under way: its issues in order, each with its place. */
  method ViewChain(plan: Option<string>, workers: seq<Worker>, listing: Option<Listing>) returns (view: ChainView)
    ensures view.Unknown?
            <==> plan.None? || listing.None? || listing.value.issues.None? || listing.value.issues.value == []
    ensures view.Known? ==>
              var order := OrderOf(listing.value.issues.value);
              && |view.issues| == |order|
              && forall k :: 0 <= k < |order| ==>
                   StandsAt(order, Numbers(listing.value.issues.value), workers, k, view.issues[k])
  {
    hide StandsAt, OrderOf, Numbers;
    if plan.None? || listing.None? {
      return Unknown(NoPlan);
    }
    if listing.value.issues.None? {
      return Unknown(NoListing(listing.value.warning));
    }
    var issues := listing.value.issues.value;
    if issues == [] {
      return Unknown(NoIssues);
    }
    var order := OrderChain(issues);
    OrderPermutes(issues);
    var views := ViewOrder(order, Numbers(issues), workers);
    view := Known(views);
  }

  /** One issue of the order, and whether `next` has now been given. */
  method ViewIssue(order: seq<Issue>, inChain: set<nat>, workers: seq<Worker>, k: nat, nextGiven: bool)
    returns (at: ChainIssue, given: bool)
    requires k < |order|
    requires nextGiven <==> exists j :: 0 <= j < k && Startable(order[j], workers)
    ensures StandsAt(order, inChain, workers, k, at)
    ensures given <==> nextGiven || Startable(order[k], workers)
  {
    var i := order[k];
    var blockers, worker := OpenOutside(i.blockedBy, inChain), WorkerOn(workers, i);
    var state;
    given := nextGiven;
    if AllClosed(i.blockedBy) {
      StartableIsUnblocked(i.blockedBy, inChain);
    }
    if i.state.Closed? {
      state := Merged;
    } else if worker.Some? {
      state := InProgress;
    } else if blockers != [] {
      state := Blocked;
    } else if !nextGiven && AllClosed(i.blockedBy) {
      state, given := Next, true;
    } else {
      state := Waiting;
    }
    at := ChainIssue(i.number, i.title, state, worker, blockers);
  }

  method ViewOrder(order: seq<Issue>, inChain: set<nat>, workers: seq<Worker>) returns (views: seq<ChainIssue>)
    ensures |views| == |order|
    ensures forall k :: 0 <= k < |order| ==> StandsAt(order, inChain, workers, k, views[k])
  {
    hide StandsAt, Startable;
    views := [];
    var nextGiven := false;
    for k := 0 to |order|
      invariant |views| == k
      invariant nextGiven <==> exists j :: 0 <= j < k && Startable(order[j], workers)
      invariant forall j :: 0 <= j < k ==> StandsAt(order, inChain, workers, j, views[j])
    {
      var at;
      at, nextGiven := ViewIssue(order, inChain, workers, k, nextGiven);
      views := views + [at];
    }
  }

  /** At most one issue is marked next; one is whenever any could be started. */
  lemma OneNext(order: seq<Issue>, inChain: set<nat>, workers: seq<Worker>, views: seq<ChainIssue>)
    requires |views| == |order|
    requires forall k :: 0 <= k < |order| ==> StandsAt(order, inChain, workers, k, views[k])
    ensures forall j, k :: 0 <= j < k < |views| ==> !(views[j].state.Next? && views[k].state.Next?)
    ensures (exists k :: 0 <= k < |views| && views[k].state.Next?)
       <==> (exists k :: 0 <= k < |order| && Startable(order[k], workers))
  {
    if exists k :: 0 <= k < |order| && Startable(order[k], workers) {
      var k :| 0 <= k < |order| && Startable(order[k], workers);
      var first := FirstStartable(order, workers, k);
      assert StandsAt(order, inChain, workers, first, views[first]);
    }
  }

  lemma {:induction false} FirstStartable(order: seq<Issue>, workers: seq<Worker>, k: nat) returns (first: nat)
    requires k < |order| && Startable(order[k], workers)
    ensures first <= k && Startable(order[first], workers)
    ensures forall j :: 0 <= j < first ==> !Startable(order[j], workers)
  {
    if j :| 0 <= j < k && Startable(order[j], workers) {
      first := FirstStartable(order, workers, j);
    } else {
      first := k;
    }
  }
}
