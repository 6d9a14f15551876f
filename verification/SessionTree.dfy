/**
  A session's tree of cards: which call started which subagent, what every card's state is,
  and whom a waiting record marks. Cards are named by their place in the reading.
  */
module SessionTree {
  import opened Options

  type Call = string

  /** A card before it is linked; the session's own comes first. */
  datatype Node = Node(
    id: string, calls: seq<Call>, toolUseId: Option<Call>, writtenMs: int, over: bool, isSession: bool)

  // ------------------------------------------------------------------ who started whom

  /** The card that made `call`: the last that claims to. */
  function CallerOf(nodes: seq<Node>, call: Call): (caller: Option<nat>)
    ensures caller.Some? ==> caller.value < |nodes| && call in nodes[caller.value].calls
    ensures caller.None? ==> forall i :: 0 <= i < |nodes| ==> call !in nodes[i].calls
    ensures caller.Some? ==> forall i :: caller.value < i < |nodes| ==> call !in nodes[i].calls
  {
    if nodes == [] then None
    else if call in nodes[|nodes| - 1].calls then Some(|nodes| - 1)
    else CallerOf(nodes[..|nodes| - 1], call)
  }

  /** A subagent whose call no other card made is shown under its session, with a warning. */
  predicate Orphan(nodes: seq<Node>, i: nat)
    requires i < |nodes|
  {
    i > 0 && nodes[i].toolUseId.Some?
    && (CallerOf(nodes, nodes[i].toolUseId.value).None? || CallerOf(nodes, nodes[i].toolUseId.value) == Some(i))
  }

  function Parent(nodes: seq<Node>, i: nat): (parent: nat)
    requires i < |nodes|
    ensures parent < |nodes| && (i > 0 ==> parent != i)
  {
    if i == 0 || nodes[i].toolUseId.None? || Orphan(nodes, i) then 0
    else CallerOf(nodes, nodes[i].toolUseId.value).value
  }

  /** The subagents of the first `n` cards that are linked under `p`. */
  function ChildrenOf(nodes: seq<Node>, p: nat, n: nat): (children: seq<nat>)
    requires n <= |nodes|
    ensures forall c :: c in children <==> 0 < c < n && Parent(nodes, c) == p
  {
    if n <= 1 then []
    else if Parent(nodes, n - 1) == p then ChildrenOf(nodes, p, n - 1) + [n - 1]
    else ChildrenOf(nodes, p, n - 1)
  }

  ghost predicate AllApart(s: seq<nat>) {
    forall j, k :: 0 <= j < k < |s| ==> s[j] != s[k]
  }

  lemma {:induction false} ChildrenApart(nodes: seq<Node>, p: nat, n: nat)
    requires n <= |nodes|
    ensures AllApart(ChildrenOf(nodes, p, n))
  {
    if n > 1 {
      hide Parent;
      ChildrenApart(nodes, p, n - 1);
      var earlier := ChildrenOf(nodes, p, n - 1);
      assert forall k :: 0 <= k < |earlier| ==> earlier[k] in earlier;
    }
  }

  function WarnedOf(nodes: seq<Node>, n: nat): seq<nat>
    requires n <= |nodes|
  {
    if n <= 1 then [] else WarnedOf(nodes, n - 1) + if Orphan(nodes, n - 1) then [n - 1] else []
  }

  /** Every card's children, as linking leaves them. */
  ghost predicate Linked(nodes: seq<Node>, children: seq<seq<nat>>) {
    && |children| == |nodes|
    && forall p: nat :: p < |nodes| ==> children[p] == ChildrenOf(nodes, p, |nodes|)
  }

  /**
    Every card's children in whatever order: `settle` sorts them by when they started. What
    is said of the tree below holds however they are sorted.
    */
  ghost predicate Arranged(nodes: seq<Node>, children: seq<seq<nat>>) {
    |children| == |nodes| && forall p: nat :: p < |nodes| ==> AreChildren(nodes, p, children[p])
  }

  ghost predicate AreChildren(nodes: seq<Node>, p: nat, cs: seq<nat>) {
    AllApart(cs) && forall c :: c in cs <==> 0 < c < |nodes| && Parent(nodes, c) == p
  }

  lemma LinkedIsArranged(nodes: seq<Node>, children: seq<seq<nat>>)
    requires Linked(nodes, children)
    ensures Arranged(nodes, children)
  {
    hide Parent;
    forall p: nat | p < |nodes|
      ensures AreChildren(nodes, p, children[p])
    {
      ChildrenApart(nodes, p, |nodes|);
    }
  }

  /** Sorting a card's children keeps them. */
  lemma SortedIsArranged(nodes: seq<Node>, children: seq<seq<nat>>, sorted: seq<seq<nat>>)
    requires Arranged(nodes, children) && |sorted| == |children|
    requires forall p :: 0 <= p < |children| ==> multiset(sorted[p]) == multiset(children[p])
    ensures Arranged(nodes, sorted)
  {
    hide Parent;
    forall p: nat | p < |nodes|
      ensures AreChildren(nodes, p, sorted[p])
    {
      assert AreChildren(nodes, p, children[p]);
      SameElements(sorted[p], children[p]);
    }
  }

  lemma SameElements(a: seq<nat>, b: seq<nat>)
    requires multiset(a) == multiset(b) && AllApart(b)
    ensures AllApart(a) && forall c :: c in a <==> c in b
  {
    assert forall c :: c in a <==> c in multiset(a);
    assert forall c :: c in b <==> c in multiset(b);
    forall j, k | 0 <= j < k < |a|
      ensures a[j] != a[k]
    {
      if a[j] == a[k] {
        Twice(a, j, k);
        OnceEach(b, a[j]);
      }
    }
  }

  lemma Twice(a: seq<nat>, j: nat, k: nat)
    requires j < k < |a| && a[j] == a[k]
    ensures multiset(a)[a[j]] >= 2
  {
    assert a == a[..k] + a[k..];
    assert a[j] in a[..k] && a[k] in a[k..];
    assert multiset(a) == multiset(a[..k]) + multiset(a[k..]);
  }

  lemma {:induction false} OnceEach(b: seq<nat>, c: nat)
    requires AllApart(b)
    ensures multiset(b)[c] <= 1
  {
    if b != [] {
      OnceEach(b[1..], c);
      assert b == [b[0]] + b[1..];
      assert b[0] !in b[1..];
    }
  }

  method Callers(nodes: seq<Node>) returns (callers: map<Call, nat>)
    ensures forall call :: call in callers <==> CallerOf(nodes, call).Some?
    ensures forall call :: call in callers ==> CallerOf(nodes, call) == Some(callers[call])
  {
    callers := map[];
    for i := 0 to |nodes|
      invariant forall call :: call in callers <==> CallerOf(nodes[..i], call).Some?
      invariant forall call :: call in callers ==> CallerOf(nodes[..i], call) == Some(callers[call])
    {
      assert nodes[..i + 1][..i] == nodes[..i];
      callers := Claimed(callers, nodes[i].calls, i);
    }
    assert nodes[..|nodes|] == nodes;
  }

  /** The first `n` cards are linked. */
  ghost predicate LinkedTo(nodes: seq<Node>, children: seq<seq<nat>>, n: nat)
    requires n <= |nodes|
  {
    && |children| == |nodes|
    && forall p: nat :: p < |nodes| ==> children[p] == ChildrenOf(nodes, p, n)
  }

  method Link(nodes: seq<Node>) returns (children: seq<seq<nat>>, warned: seq<nat>)
    requires |nodes| > 0
    ensures Linked(nodes, children) && warned == WarnedOf(nodes, |nodes|)
  {
    hide *;
    var callers := Callers(nodes);
    children := seq(|nodes|, (_: nat) => []);
    warned := [];
    NoneLinked(nodes, children);
    for i := 1 to |nodes|
      invariant |children| == |nodes| && LinkedTo(nodes, children, i)
      invariant warned == WarnedOf(nodes, i)
    {
      var parent, orphan := Attached(nodes, callers, i);
      OneMoreLinked(nodes, children, i);
      if orphan {
        warned := warned + [i];
      }
      children := children[parent := children[parent] + [i]];
    }
    AllLinked(nodes, children);
  }

  lemma NoneLinked(nodes: seq<Node>, children: seq<seq<nat>>)
    requires |nodes| > 0 && |children| == |nodes| && forall p :: 0 <= p < |nodes| ==> children[p] == []
    ensures LinkedTo(nodes, children, 1) && WarnedOf(nodes, 1) == []
  {
  }

  lemma AllLinked(nodes: seq<Node>, children: seq<seq<nat>>)
    requires LinkedTo(nodes, children, |nodes|)
    ensures Linked(nodes, children)
  {
    hide ChildrenOf;
  }

  lemma OneMoreLinked(nodes: seq<Node>, children: seq<seq<nat>>, i: nat)
    requires 0 < i < |nodes| && LinkedTo(nodes, children, i)
    ensures WarnedOf(nodes, i + 1) == WarnedOf(nodes, i) + if Orphan(nodes, i) then [i] else []
    ensures |children| == |nodes|
    ensures var p := Parent(nodes, i); LinkedTo(nodes, children[p := children[p] + [i]], i + 1)
  {
    hide Parent, Orphan;
  }

  /** Where one subagent goes, and whether nobody claims its call. */
  method Attached(nodes: seq<Node>, callers: map<Call, nat>, i: nat) returns (parent: nat, orphan: bool)
    requires 0 < i < |nodes|
    requires forall call :: call in callers <==> CallerOf(nodes, call).Some?
    requires forall call :: call in callers ==> CallerOf(nodes, call) == Some(callers[call])
    ensures parent == Parent(nodes, i) && orphan == Orphan(nodes, i)
  {
    if nodes[i].toolUseId.None? {
      return 0, false;
    }
    var call := nodes[i].toolUseId.value;
    orphan := call !in callers || callers[call] == i;
    parent := if orphan then 0 else callers[call];
  }

  /** `callers.set(call, node)` for each call of a card. */
  function Claimed(callers: map<Call, nat>, calls: seq<Call>, i: nat): (next: map<Call, nat>)
    ensures forall call :: call in next <==> call in callers || call in calls
    ensures forall call :: call in next ==> next[call] == if call in calls then i else callers[call]
  {
    if calls == [] then callers else Claimed(callers, calls[..|calls| - 1], i)[calls[|calls| - 1] := i]
  }

  // ------------------------------------------------------------------ up to the session

  /** The card `k` links above `i`; above the session there is the session. */
  function Climb(nodes: seq<Node>, i: nat, k: nat): (card: nat)
    requires i < |nodes|
    ensures card < |nodes|
  {
    if k == 0 then i else Parent(nodes, Climb(nodes, i, k - 1))
  }

  lemma ClimbStep(nodes: seq<Node>, i: nat, k: nat)
    requires i < |nodes|
    ensures Climb(nodes, i, 0) == i && Climb(nodes, i, k + 1) == Parent(nodes, Climb(nodes, i, k))
  {
    hide Parent;
  }

  lemma {:induction false} ClimbOn(nodes: seq<Node>, i: nat, a: nat, b: nat)
    requires i < |nodes|
    ensures Climb(nodes, Climb(nodes, i, a), b) == Climb(nodes, i, a + b)
  {
    hide *;
    if b == 0 {
      ClimbStep(nodes, Climb(nodes, i, a), 0);
    } else {
      ClimbOn(nodes, i, a, b - 1);
      ClimbStep(nodes, Climb(nodes, i, a), b - 1);
      ClimbStep(nodes, i, a + b - 1);
    }
  }

  lemma {:induction false} StaysAtTop(nodes: seq<Node>, k: nat)
    requires |nodes| > 0
    ensures Climb(nodes, 0, k) == 0
  {
    if k > 0 {
      StaysAtTop(nodes, k - 1);
    }
  }

  /** The session is `k` links above `i`, and no fewer. */
  ghost predicate IsDepth(nodes: seq<Node>, i: nat, k: nat)
    requires i < |nodes|
  {
    Climb(nodes, i, k) == 0 && forall j: nat :: j < k ==> Climb(nodes, i, j) != 0
  }

  /** Following what started it leads from `i` to its session. */
  ghost predicate Rooted(nodes: seq<Node>, i: nat)
    requires i < |nodes|
  {
    exists k: nat :: IsDepth(nodes, i, k)
  }

  ghost function Depth(nodes: seq<Node>, i: nat): (k: nat)
    requires i < |nodes| && Rooted(nodes, i)
    ensures IsDepth(nodes, i, k)
  {
    var k: nat :| IsDepth(nodes, i, k);
    k
  }

  lemma DepthIs(nodes: seq<Node>, i: nat, k: nat)
    requires i < |nodes| && IsDepth(nodes, i, k)
    ensures Rooted(nodes, i) && Depth(nodes, i) == k
  {
  }

  lemma {:induction false} ReachesTop(nodes: seq<Node>, i: nat, k: nat)
    requires i < |nodes| && Climb(nodes, i, k) == 0
    ensures Rooted(nodes, i) && Depth(nodes, i) <= k
  {
    if j: nat :| j < k && Climb(nodes, i, j) == 0 {
      ReachesTop(nodes, i, j);
    } else {
      assert IsDepth(nodes, i, k);
      DepthIs(nodes, i, k);
    }
  }

  lemma TopIsRooted(nodes: seq<Node>)
    requires |nodes| > 0
    ensures Rooted(nodes, 0) && Depth(nodes, 0) == 0
  {
    assert IsDepth(nodes, 0, 0);
    DepthIs(nodes, 0, 0);
  }

  lemma {:induction false} ClimbFromParent(nodes: seq<Node>, i: nat, k: nat)
    requires i < |nodes|
    ensures Climb(nodes, i, k + 1) == Climb(nodes, Parent(nodes, i), k)
  {
    hide Parent;
    if k > 0 {
      ClimbFromParent(nodes, i, k - 1);
    } else {
      assert Climb(nodes, i, 0) == i;
    }
  }

  lemma ChildIsRooted(nodes: seq<Node>, i: nat)
    requires 0 < i < |nodes| && Rooted(nodes, Parent(nodes, i))
    ensures Rooted(nodes, i) && Depth(nodes, i) == Depth(nodes, Parent(nodes, i)) + 1
  {
    var p := Parent(nodes, i);
    var k := Depth(nodes, p);
    assert Climb(nodes, i, 0) == i;
    hide Climb, Parent, Rooted;
    forall j: nat | j < k + 1
      ensures Climb(nodes, i, j) != 0
    {
      if j > 0 {
        ClimbFromParent(nodes, i, j - 1);
      }
    }
    ClimbFromParent(nodes, i, k);
    DepthIs(nodes, i, k + 1);
  }

  lemma ParentIsRooted(nodes: seq<Node>, i: nat)
    requires 0 < i < |nodes| && Rooted(nodes, i)
    ensures Rooted(nodes, Parent(nodes, i))
  {
    assert Climb(nodes, i, 0) == i;
    var k := Depth(nodes, i);
    hide Climb, Parent, Rooted;
    ClimbFromParent(nodes, i, k - 1);
    ReachesTop(nodes, Parent(nodes, i), k - 1);
  }

  /** A card and the one it is linked under lead to the session together, a link apart. */
  lemma ParentIsNearer(nodes: seq<Node>, i: nat)
    requires 0 < i < |nodes|
    ensures Rooted(nodes, i) <==> Rooted(nodes, Parent(nodes, i))
    ensures Rooted(nodes, i) ==> Depth(nodes, i) == Depth(nodes, Parent(nodes, i)) + 1
  {
    hide Rooted, Parent;
    if Rooted(nodes, i) {
      ParentIsRooted(nodes, i);
    }
    if Rooted(nodes, Parent(nodes, i)) {
      ChildIsRooted(nodes, i);
    }
  }

  // ------------------------------------------------------------------ no card started by its own starting

  /** No more apart than there are places. */
  lemma {:induction false} Pigeonhole(s: seq<nat>, n: nat)
    requires AllApart(s) && forall k :: 0 <= k < |s| ==> 0 < s[k] < n
    ensures |s| < n || s == []
  {
    if s != [] {
      assert 0 < s[0] < n;
      if n - 1 in s {
        var at :| 0 <= at < |s| && s[at] == n - 1;
        var rest := s[..at] + s[at + 1..];
        assert AllApart(rest) && forall k :: 0 <= k < |rest| ==> 0 < rest[k] < n - 1;
        Pigeonhole(rest, n - 1);
      } else {
        assert forall k :: 0 <= k < |s| ==> s[k] in s;
        Pigeonhole(s, n - 1);
      }
    }
  }

  function Chain(nodes: seq<Node>, i: nat, k: nat): (chain: seq<nat>)
    requires i < |nodes|
    ensures |chain| == k && forall j: nat :: j < k ==> chain[j] == Climb(nodes, i, j)
  {
    if k == 0 then [] else Chain(nodes, i, k - 1) + [Climb(nodes, i, k - 1)]
  }

  lemma ClimbApart(nodes: seq<Node>, i: nat, j: nat, k: nat, d: nat)
    requires i < |nodes| && IsDepth(nodes, i, d) && j < k < d
    ensures Climb(nodes, i, j) != Climb(nodes, i, k)
  {
    hide Climb, Parent;
    ClimbOn(nodes, i, j, d - k);
    ClimbOn(nodes, i, k, d - k);
  }

  /** The way up to the session meets no card twice. */
  lemma WayUpIsApart(nodes: seq<Node>, i: nat, j: nat, k: nat)
    requires i < |nodes| && Rooted(nodes, i) && j < k < Depth(nodes, i)
    ensures Climb(nodes, i, j) != Climb(nodes, i, k)
  {
    hide *;
    ClimbApart(nodes, i, j, k, Depth(nodes, i));
  }

  lemma DepthIsBounded(nodes: seq<Node>, i: nat)
    requires i < |nodes| && Rooted(nodes, i)
    ensures Depth(nodes, i) < |nodes|
  {
    var d := Depth(nodes, i);
    var chain := Chain(nodes, i, d);
    forall j, k | 0 <= j < k < |chain|
      ensures chain[j] != chain[k]
    {
      WayUpIsApart(nodes, i, j, k);
    }
    Pigeonhole(chain, |nodes|);
  }

  /** `i` was started, through others or not, by a call of its own. */
  ghost predicate StartedByItself(nodes: seq<Node>, i: nat)
    requires i < |nodes|
  {
    i > 0 && exists k: nat :: k > 0 && Climb(nodes, i, k) == i
  }

  lemma CycleHasNoDepth(nodes: seq<Node>, i: nat, p: nat, d: nat)
    requires 0 < i < |nodes| && p > 0 && Climb(nodes, i, p) == i
    ensures !IsDepth(nodes, i, d)
  {
    hide Climb, Parent;
    if p < d {
      ClimbOn(nodes, i, p, d - p);
    } else if Climb(nodes, i, d) == 0 {
      ClimbOn(nodes, i, d, p - d);
      StaysAtTop(nodes, p - d);
    }
  }

  lemma CycleNeverLeaves(nodes: seq<Node>, i: nat)
    requires i < |nodes| && StartedByItself(nodes, i)
    ensures !Rooted(nodes, i)
  {
    var p: nat :| p > 0 && Climb(nodes, i, p) == i;
    hide Climb, Parent, IsDepth;
    forall d: nat
      ensures !IsDepth(nodes, i, d)
    {
      CycleHasNoDepth(nodes, i, p, d);
    }
  }

  lemma UnrootedRepeats(nodes: seq<Node>, i: nat) returns (j: nat, k: nat)
    requires i < |nodes| && !Rooted(nodes, i)
    ensures j < k && Climb(nodes, i, j) == Climb(nodes, i, k) != 0
  {
    var chain := Chain(nodes, i, |nodes|);
    forall m: nat
      ensures Climb(nodes, i, m) != 0
    {
      if Climb(nodes, i, m) == 0 {
        ReachesTop(nodes, i, m);
      }
    }
    if AllApart(chain) {
      Pigeonhole(chain, |nodes|);
      assert false;
    }
    j, k :| 0 <= j < k < |chain| && chain[j] == chain[k];
  }

  lemma UnrootedIsCycle(nodes: seq<Node>, i: nat) returns (x: nat)
    requires i < |nodes| && !Rooted(nodes, i)
    ensures x < |nodes| && StartedByItself(nodes, x)
  {
    hide *;
    var j, k := UnrootedRepeats(nodes, i);
    x := Climb(nodes, i, j);
    ClimbOn(nodes, i, j, k - j);
    ComesRound(nodes, x, k - j);
  }

  lemma ComesRound(nodes: seq<Node>, x: nat, k: nat)
    requires 0 < x < |nodes| && k > 0 && Climb(nodes, x, k) == x
    ensures StartedByItself(nodes, x)
  {
  }

  /** Every subagent leads to the session exactly when none was started by a call of its own. */
  lemma RootedIffNoCycle(nodes: seq<Node>)
    requires |nodes| > 0
    ensures (forall i: nat :: i < |nodes| ==> Rooted(nodes, i))
            <==> (forall i: nat :: i < |nodes| ==> !StartedByItself(nodes, i))
  {
    hide Rooted, StartedByItself;
    forall i: nat | i < |nodes| && StartedByItself(nodes, i)
      ensures !Rooted(nodes, i)
    {
      CycleNeverLeaves(nodes, i);
    }
    if i: nat :| i < |nodes| && !Rooted(nodes, i) {
      var x := UnrootedIsCycle(nodes, i);
      assert StartedByItself(nodes, x);
    }
  }

  // ------------------------------------------------------------------ the tree under a card

  /** Ranks falling along every link: no card in `rank` is under itself. */
  ghost predicate Ranked(children: seq<seq<nat>>, rank: map<nat, nat>) {
    forall p :: p in rank ==> p < |children| && forall c :: c in children[p] ==> c in rank && rank[c] < rank[p]
  }

  ghost predicate AllIn(cs: seq<nat>, rank: map<nat, nat>, top: nat) {
    forall c :: c in cs ==> c in rank && rank[c] < top
  }

  /** The cards of the tree under `p`, `p` first, each as often as it is drawn. */
  ghost function Drawn(children: seq<seq<nat>>, rank: map<nat, nat>, p: nat): seq<nat>
    requires Ranked(children, rank) && p in rank
    decreases rank[p], 0
  {
    [p] + DrawnAll(children, rank, children[p], rank[p])
  }

  ghost function DrawnAll(children: seq<seq<nat>>, rank: map<nat, nat>, cs: seq<nat>, top: nat): seq<nat>
    requires Ranked(children, rank) && AllIn(cs, rank, top)
    decreases top, 0, |cs|
  {
    if cs == [] then []
    else
      assert cs[0] in cs;
      Drawn(children, rank, cs[0]) + DrawnAll(children, rank, cs[1..], top)
  }

  function Times(s: seq<nat>, i: nat): nat {
    multiset(s)[i]
  }

  lemma CountConcat(a: seq<nat>, b: seq<nat>, i: nat)
    ensures Times(a + b, i) == Times(a, i) + Times(b, i)
  {
    assert multiset(a + b) == multiset(a) + multiset(b);
  }

  /** The ranks linking gives: those that lead to the session, the nearer the higher. */
  ghost function RankOf(nodes: seq<Node>): map<nat, nat>
  {
    map i: nat | i < |nodes| && Rooted(nodes, i) :: (if Depth(nodes, i) < |nodes| then |nodes| - Depth(nodes, i) else 0)
  }

  lemma RankIs(nodes: seq<Node>, i: nat)
    requires i < |nodes| && Rooted(nodes, i)
    ensures i in RankOf(nodes) && RankOf(nodes)[i] == |nodes| - Depth(nodes, i)
  {
    DepthIsBounded(nodes, i);
  }

  lemma ArrangedIsRanked(nodes: seq<Node>, children: seq<seq<nat>>)
    requires Arranged(nodes, children) && |nodes| > 0
    ensures Ranked(children, RankOf(nodes)) && 0 in RankOf(nodes)
  {
    var rank := RankOf(nodes);
    hide Rooted, Parent;
    TopIsRooted(nodes);
    forall p, c | p in rank && c in children[p]
      ensures c in rank && rank[c] < rank[p]
    {
      assert AreChildren(nodes, p, children[p]);
      ParentIsNearer(nodes, c);
      RankIs(nodes, c);
      RankIs(nodes, p);
    }
  }

  /** `p` is on the way from `i` up to the session. */
  ghost predicate OnTheWay(nodes: seq<Node>, p: nat, i: nat)
    requires p < |nodes| && i < |nodes|
  {
    && Rooted(nodes, p) && Rooted(nodes, i) && Depth(nodes, p) <= Depth(nodes, i)
    && Climb(nodes, i, Depth(nodes, i) - Depth(nodes, p)) == p
  }

  /** The one card at a depth on the way up from `i`. */
  ghost predicate MeetsAt(nodes: seq<Node>, cs: seq<nat>, depth: nat, i: nat)
    requires i < |nodes|
  {
    Rooted(nodes, i) && depth <= Depth(nodes, i) && Climb(nodes, i, Depth(nodes, i) - depth) in cs
  }

  ghost predicate ChildList(nodes: seq<Node>, cs: seq<nat>, p: nat)
    requires p < |nodes|
  {
    Rooted(nodes, p) && AllApart(cs) && forall c :: c in cs ==> 0 < c < |nodes| && Parent(nodes, c) == p
  }

  lemma {:induction false} CountDrawn(nodes: seq<Node>, children: seq<seq<nat>>, p: nat, i: nat)
    requires Arranged(nodes, children) && |nodes| > 0 && p < |nodes| && i < |nodes| && Rooted(nodes, p)
    requires Ranked(children, RankOf(nodes)) && p in RankOf(nodes)
    ensures Times(Drawn(children, RankOf(nodes), p), i) == if OnTheWay(nodes, p, i) then 1 else 0
    decreases RankOf(nodes)[p], 0
  {
    var rank := RankOf(nodes);
    hide Rooted, Parent, RankOf, OnTheWay;
    assert AreChildren(nodes, p, children[p]);
    assert ChildList(nodes, children[p], p);
    CountAll(nodes, children, children[p], p, i, rank[p]);
    OnTheWayBelow(nodes, children[p], p, i);
    var all := DrawnAll(children, rank, children[p], rank[p]);
    CountConcat([p], all, i);
    assert Times([p], i) == if p == i then 1 else 0;
  }

  lemma {:induction false} CountAll(nodes: seq<Node>, children: seq<seq<nat>>, cs: seq<nat>, p: nat, i: nat, top: nat)
    requires Arranged(nodes, children) && |nodes| > 0 && p < |nodes| && i < |nodes|
    requires ChildList(nodes, cs, p) && Ranked(children, RankOf(nodes)) && AllIn(cs, RankOf(nodes), top)
    ensures Times(DrawnAll(children, RankOf(nodes), cs, top), i)
         == if MeetsAt(nodes, cs, Depth(nodes, p) + 1, i) then 1 else 0
    decreases top, 0, |cs|
  {
    if cs != [] {
      var rank := RankOf(nodes);
      hide Rooted, Parent, RankOf, Drawn, Climb, IsDepth;
      var c := cs[0];
      assert c in cs;
      ParentIsNearer(nodes, c);
      CountDrawn(nodes, children, c, i);
      RestOfChildren(nodes, cs, p);
      CountAll(nodes, children, cs[1..], p, i, top);
      var first, rest := Drawn(children, rank, c), DrawnAll(children, rank, cs[1..], top);
      CountConcat(first, rest, i);
      MeetsFirst(nodes, cs, p, i);
    }
  }

  lemma RestOfChildren(nodes: seq<Node>, cs: seq<nat>, p: nat)
    requires p < |nodes| && cs != [] && ChildList(nodes, cs, p)
    ensures ChildList(nodes, cs[1..], p) && cs[0] !in cs[1..]
  {
    hide Rooted, Parent;
    assert forall k :: 0 <= k < |cs[1..]| ==> cs[1..][k] == cs[k + 1];
    forall c | c in cs[1..]
      ensures c in cs
    {
      assert cs == [cs[0]] + cs[1..];
    }
  }

  /** Meeting one of a list is meeting its first or one of the rest, and not both. */
  lemma MeetsFirst(nodes: seq<Node>, cs: seq<nat>, p: nat, i: nat)
    requires p < |nodes| && i < |nodes| && cs != [] && ChildList(nodes, cs, p)
    requires cs[0] < |nodes| && Rooted(nodes, cs[0]) && Depth(nodes, cs[0]) == Depth(nodes, p) + 1
    ensures MeetsAt(nodes, cs, Depth(nodes, p) + 1, i)
        <==> OnTheWay(nodes, cs[0], i) || MeetsAt(nodes, cs[1..], Depth(nodes, p) + 1, i)
    ensures !(OnTheWay(nodes, cs[0], i) && MeetsAt(nodes, cs[1..], Depth(nodes, p) + 1, i))
  {
    hide Rooted, Parent, Climb, IsDepth;
    assert cs == [cs[0]] + cs[1..];
    assert cs[0] !in cs[1..];
  }

  /** On the way up from `i`: `i` itself, or whatever a child of it is on the way up from. */
  lemma OnTheWayBelow(nodes: seq<Node>, cs: seq<nat>, p: nat, i: nat)
    requires p < |nodes| && i < |nodes| && Rooted(nodes, p) && AreChildren(nodes, p, cs)
    ensures OnTheWay(nodes, p, i) <==> i == p || MeetsAt(nodes, cs, Depth(nodes, p) + 1, i)
    ensures !(i == p && MeetsAt(nodes, cs, Depth(nodes, p) + 1, i))
  {
    hide Rooted, Parent;
    if Rooted(nodes, i) && Depth(nodes, p) < Depth(nodes, i) {
      var k := Depth(nodes, i) - Depth(nodes, p);
      var x := Climb(nodes, i, k - 1);
      assert Climb(nodes, i, k) == Parent(nodes, x) && x != 0;
    } else if Rooted(nodes, i) && Depth(nodes, p) == Depth(nodes, i) {
      assert Climb(nodes, i, 0) == i;
    }
  }

  /**
    Under its session a subagent is drawn once if what started it leads there, and not at all
    if not; so each is drawn exactly once, for every reading in which none was started by a
    call of its own, and for no other.
    */
  lemma DrawnOnceIffRooted(nodes: seq<Node>, children: seq<seq<nat>>)
    requires Arranged(nodes, children) && |nodes| > 0
    ensures Ranked(children, RankOf(nodes)) && 0 in RankOf(nodes)
    ensures forall i: nat :: i < |nodes| ==>
              Times(Drawn(children, RankOf(nodes), 0), i) == if Rooted(nodes, i) then 1 else 0
    ensures (forall i: nat :: i < |nodes| ==> Times(Drawn(children, RankOf(nodes), 0), i) == 1)
        <==> (forall i: nat :: i < |nodes| ==> !StartedByItself(nodes, i))
  {
    hide Rooted, StartedByItself, RankOf, Drawn, Arranged, Ranked, Times, OnTheWay;
    ArrangedIsRanked(nodes, children);
    TopIsRooted(nodes);
    RootedIffNoCycle(nodes);
    forall i: nat | i < |nodes|
      ensures Times(Drawn(children, RankOf(nodes), 0), i) == if Rooted(nodes, i) then 1 else 0
    {
      CountDrawn(nodes, children, 0, i);
      AllUnderTop(nodes, i);
    }
  }

  lemma AllUnderTop(nodes: seq<Node>, i: nat)
    requires |nodes| > 0 && i < |nodes|
    ensures OnTheWay(nodes, 0, i) <==> Rooted(nodes, i)
  {
    TopIsRooted(nodes);
  }

  /** Two subagents each started by a call the other made are under each other and under no session. */
  lemma PairIsDetached(nodes: seq<Node>, a: Call, b: Call)
    requires |nodes| == 3 && a != b && nodes[0].calls == [] && nodes[1].calls == [b] && nodes[2].calls == [a]
    requires nodes[1].toolUseId == Some(a) && nodes[2].toolUseId == Some(b)
    ensures Parent(nodes, 1) == 2 && Parent(nodes, 2) == 1
    ensures !Rooted(nodes, 1) && !Rooted(nodes, 2)
  {
    assert CallerOf(nodes, a) == Some(2);
    assert CallerOf(nodes, b) == Some(1) by {
      var caller := CallerOf(nodes, b);
      assert b in nodes[1].calls;
    }
    hide CallerOf, Rooted;
    ClimbStep(nodes, 1, 0);
    ClimbStep(nodes, 1, 1);
    ClimbStep(nodes, 2, 0);
    ClimbStep(nodes, 2, 1);
    ComesRound(nodes, 1, 2);
    ComesRound(nodes, 2, 2);
    CycleNeverLeaves(nodes, 1);
    CycleNeverLeaves(nodes, 2);
  }

  // ------------------------------------------------------------------ states

  datatype State = Done | Waiting | Stopped | Running

  /** A reading's cards once linked, and who a waiting record names. */
  datatype Forest = Forest(nodes: seq<Node>, children: seq<seq<nat>>, waiting: seq<bool>)

  ghost predicate Sound(f: Forest, rank: map<nat, nat>) {
    |f.children| == |f.nodes| == |f.waiting| && Ranked(f.children, rank)
  }

  datatype Clock = Clock(now: int, idleMs: int)

  predicate IsLive(state: State) {
    state.Running? || state.Waiting?
  }

  /** A card's state, given whether anything under it is live. */
  function StateGiven(f: Forest, clock: Clock, i: nat, below: bool): State
    requires i < |f.nodes| == |f.waiting|
  {
    var node := f.nodes[i];
    if node.over && (!node.isSession || !below) then Done
    else if f.waiting[i] then Waiting
    else if clock.now - node.writtenMs > clock.idleMs && !below then Stopped
    else Running
  }

  /** What settling the tree under `i` says of it: that something in it is live. */
  ghost predicate Live(f: Forest, rank: map<nat, nat>, clock: Clock, i: nat)
    requires Sound(f, rank) && i in rank
    decreases rank[i], 0
  {
    var below := AnyLive(f, rank, clock, f.children[i], rank[i]);
    IsLive(StateGiven(f, clock, i, below)) || below
  }

  ghost predicate AnyLive(f: Forest, rank: map<nat, nat>, clock: Clock, cs: seq<nat>, top: nat)
    requires Sound(f, rank) && AllIn(cs, rank, top)
    decreases top, 0, |cs|
  {
    cs != []
    && (assert cs[0] in cs; Live(f, rank, clock, cs[0]) || AnyLive(f, rank, clock, cs[1..], top))
  }

  ghost function StateOf(f: Forest, rank: map<nat, nat>, clock: Clock, i: nat): State
    requires Sound(f, rank) && i in rank
  {
    StateGiven(f, clock, i, AnyLive(f, rank, clock, f.children[i], rank[i]))
  }

  /** The cards strictly under `i`. */
  ghost function Under(f: Forest, rank: map<nat, nat>, i: nat): set<nat>
    requires Sound(f, rank) && i in rank
    decreases rank[i], 0
  {
    UnderAll(f, rank, f.children[i], rank[i])
  }

  ghost function UnderAll(f: Forest, rank: map<nat, nat>, cs: seq<nat>, top: nat): set<nat>
    requires Sound(f, rank) && AllIn(cs, rank, top)
    decreases top, 0, |cs|
  {
    if cs == [] then {}
    else
      assert cs[0] in cs;
      {cs[0]} + Under(f, rank, cs[0]) + UnderAll(f, rank, cs[1..], top)
  }

  /** Everything under a card is ranked below it. */
  lemma {:induction false} UnderIsRanked(f: Forest, rank: map<nat, nat>, i: nat)
    requires Sound(f, rank) && i in rank
    ensures forall j :: j in Under(f, rank, i) ==> j in rank && rank[j] < rank[i]
    decreases rank[i], 0
  {
    AllRanked(f, rank, f.children[i], rank[i]);
  }

  lemma {:induction false} AllRanked(f: Forest, rank: map<nat, nat>, cs: seq<nat>, top: nat)
    requires Sound(f, rank) && AllIn(cs, rank, top)
    ensures forall j :: j in UnderAll(f, rank, cs, top) ==> j in rank && rank[j] < top
    decreases top, 0, |cs|
  {
    if cs != [] {
      hide Ranked, Under;
      assert cs[0] in cs;
      UnderIsRanked(f, rank, cs[0]);
      AllRanked(f, rank, cs[1..], top);
    }
  }

  /** Something among `cards` is Running or Waiting. */
  ghost predicate SomeLiveIn(f: Forest, rank: map<nat, nat>, clock: Clock, cards: set<nat>)
    requires Sound(f, rank)
  {
    exists j :: j in cards && j in rank && IsLive(StateOf(f, rank, clock, j))
  }

  lemma {:induction false} LiveIsSomeLive(f: Forest, rank: map<nat, nat>, clock: Clock, i: nat)
    requires Sound(f, rank) && i in rank
    ensures Live(f, rank, clock, i) <==> SomeLiveIn(f, rank, clock, {i} + Under(f, rank, i))
    decreases rank[i], 0
  {
    hide StateGiven;
    AnyLiveIsSomeLive(f, rank, clock, f.children[i], rank[i]);
    var under := Under(f, rank, i);
    assert Live(f, rank, clock, i)
       <==> IsLive(StateOf(f, rank, clock, i)) || AnyLive(f, rank, clock, f.children[i], rank[i]);
    OneMore(f, rank, clock, i, under);
  }

  lemma OneMore(f: Forest, rank: map<nat, nat>, clock: Clock, i: nat, cards: set<nat>)
    requires Sound(f, rank) && i in rank
    ensures SomeLiveIn(f, rank, clock, {i} + cards)
            <==> IsLive(StateOf(f, rank, clock, i)) || SomeLiveIn(f, rank, clock, cards)
  {
    hide StateOf, IsLive;
  }

  lemma BothOf(f: Forest, rank: map<nat, nat>, clock: Clock, a: set<nat>, b: set<nat>)
    requires Sound(f, rank)
    ensures SomeLiveIn(f, rank, clock, a + b) <==> SomeLiveIn(f, rank, clock, a) || SomeLiveIn(f, rank, clock, b)
  {
    hide StateOf, IsLive;
  }

  lemma {:induction false} AnyLiveIsSomeLive(f: Forest, rank: map<nat, nat>, clock: Clock, cs: seq<nat>, top: nat)
    requires Sound(f, rank) && AllIn(cs, rank, top)
    ensures AnyLive(f, rank, clock, cs, top) <==> SomeLiveIn(f, rank, clock, UnderAll(f, rank, cs, top))
    decreases top, 0, |cs|
  {
    if cs != [] {
      hide Live, Under, StateOf, Ranked;
      assert cs[0] in cs;
      LiveIsSomeLive(f, rank, clock, cs[0]);
      AnyLiveIsSomeLive(f, rank, clock, cs[1..], top);
      BothOf(f, rank, clock, {cs[0]} + Under(f, rank, cs[0]), UnderAll(f, rank, cs[1..], top));
    }
  }

  lemma {:induction false} DrawnIsUnder(f: Forest, rank: map<nat, nat>, i: nat)
    requires Sound(f, rank) && i in rank
    ensures forall j: nat :: j in Drawn(f.children, rank, i) <==> j in {i} + Under(f, rank, i)
    decreases rank[i], 0
  {
    AllDrawnAreUnder(f, rank, f.children[i], rank[i]);
  }

  lemma {:induction false} AllDrawnAreUnder(f: Forest, rank: map<nat, nat>, cs: seq<nat>, top: nat)
    requires Sound(f, rank) && AllIn(cs, rank, top)
    ensures forall j: nat :: j in DrawnAll(f.children, rank, cs, top) <==> j in UnderAll(f, rank, cs, top)
    decreases top, 0, |cs|
  {
    if cs != [] {
      hide Ranked, Under, Drawn;
      assert cs[0] in cs;
      DrawnIsUnder(f, rank, cs[0]);
      AllDrawnAreUnder(f, rank, cs[1..], top);
    }
  }

  /** In a linked reading the session's tree is every card that leads to it. */
  lemma TreeHoldsTheRooted(f: Forest, i: nat)
    requires |f.waiting| == |f.nodes| > 0 && Arranged(f.nodes, f.children) && i < |f.nodes|
    ensures Sound(f, RankOf(f.nodes)) && 0 in RankOf(f.nodes)
    ensures i in {0} + Under(f, RankOf(f.nodes), 0) <==> Rooted(f.nodes, i)
  {
    DrawnOnceIffRooted(f.nodes, f.children);
    DrawnIsUnder(f, RankOf(f.nodes), 0);
    hide Rooted, RankOf, Drawn, Under, Ranked;
    assert Times(Drawn(f.children, RankOf(f.nodes), 0), i) > 0 <==> i in Drawn(f.children, RankOf(f.nodes), 0);
  }

  /**
    States over the tree: a card is Done when its own record ends, a session only with nothing
    live under it; else Waiting when a record names it; else Stopped when it is quiet with
    nothing live under it; else Running. And `settle` answers whether anything of the tree,
    the card itself included, is live.
    */
  lemma StatesAreExact(f: Forest, rank: map<nat, nat>, clock: Clock, i: nat)
    requires Sound(f, rank) && i in rank
    ensures var node := f.nodes[i]; var state := StateOf(f, rank, clock, i);
      var quiet := clock.now - node.writtenMs > clock.idleMs;
      var under := SomeLiveIn(f, rank, clock, Under(f, rank, i));
      && (state.Done? <==> node.over && (!node.isSession || !under))
      && (state.Waiting? <==> !state.Done? && f.waiting[i])
      && (state.Stopped? <==> !state.Done? && !f.waiting[i] && quiet && !under)
      && (Live(f, rank, clock, i) <==> IsLive(state) || under)
  {
    LiveIsSomeLive(f, rank, clock, i);
    AnyLiveIsSomeLive(f, rank, clock, f.children[i], rank[i]);
    OneMore(f, rank, clock, i, Under(f, rank, i));
    hide SomeLiveIn, AnyLive, Ranked;
  }

  /** Nothing live is ever under a Stopped card, or under a Done session. */
  lemma NothingLiveUnderTheEnded(f: Forest, rank: map<nat, nat>, clock: Clock, i: nat, j: nat)
    requires Sound(f, rank) && i in rank && j in Under(f, rank, i)
    requires StateOf(f, rank, clock, i).Stopped? || (StateOf(f, rank, clock, i).Done? && f.nodes[i].isSession)
    ensures j in rank
    ensures StateOf(f, rank, clock, j).Stopped? || StateOf(f, rank, clock, j).Done?
  {
    StatesAreExact(f, rank, clock, i);
    UnderIsRanked(f, rank, i);
    hide StateOf, Ranked;
  }

  // ------------------------------------------------------------------ whom a waiting record marks

  datatype WaitingRecord = WaitingRecord(sessionId: string, agentId: Option<string>)

  /** The first card called `id` in the trees under `cs`, each card before what is under it. */
  ghost function FindIn(f: Forest, rank: map<nat, nat>, cs: seq<nat>, id: string, top: nat): (found: Option<nat>)
    requires Sound(f, rank) && AllIn(cs, rank, top)
    ensures found.Some? ==> found.value < |f.nodes|
    decreases top, |cs|
  {
    if cs == [] then None
    else
      assert cs[0] in cs;
      if f.nodes[cs[0]].id == id then Some(cs[0])
      else
        var below := FindIn(f, rank, f.children[cs[0]], id, rank[cs[0]]);
        if below.Some? then below else FindIn(f, rank, cs[1..], id, top)
  }

  lemma {:induction false} FoundIsUnder(f: Forest, rank: map<nat, nat>, cs: seq<nat>, id: string, top: nat)
    requires Sound(f, rank) && AllIn(cs, rank, top)
    ensures var found := FindIn(f, rank, cs, id, top);
      if found.Some? then found.value in UnderAll(f, rank, cs, top) && f.nodes[found.value].id == id
      else forall j :: j in UnderAll(f, rank, cs, top) ==> j < |f.nodes| && f.nodes[j].id != id
    decreases top, |cs|
  {
    if cs != [] {
      hide Ranked;
      assert cs[0] in cs;
      InForest(f, rank, cs[0]);
      if f.nodes[cs[0]].id != id {
        FoundIsUnder(f, rank, f.children[cs[0]], id, rank[cs[0]]);
        FoundIsUnder(f, rank, cs[1..], id, top);
        assert UnderAll(f, rank, cs, top)
            == {cs[0]} + UnderAll(f, rank, f.children[cs[0]], rank[cs[0]]) + UnderAll(f, rank, cs[1..], top);
        if FindIn(f, rank, cs, id, top).None? {
          forall j | j in UnderAll(f, rank, cs, top)
            ensures j < |f.nodes| && f.nodes[j].id != id
          {
          }
        }
      }
    }
  }

  lemma InForest(f: Forest, rank: map<nat, nat>, i: nat)
    requires Sound(f, rank) && i in rank
    ensures i < |f.nodes| && AllIn(f.children[i], rank, rank[i])
  {
  }

  function SessionCalled(f: Forest, roots: seq<nat>, id: string): (root: Option<nat>)
    requires forall k :: 0 <= k < |roots| ==> roots[k] < |f.nodes|
    ensures root.Some? ==> root.value in roots && f.nodes[root.value].id == id
    ensures root.None? ==> forall k :: 0 <= k < |roots| ==> f.nodes[roots[k]].id != id
  {
    if roots == [] then None
    else if f.nodes[roots[0]].id == id then Some(roots[0])
    else SessionCalled(f, roots[1..], id)
  }

  ghost predicate Roots(f: Forest, rank: map<nat, nat>, roots: seq<nat>) {
    forall k :: 0 <= k < |roots| ==> roots[k] in rank && roots[k] < |f.nodes|
  }

  /** The card a record marks: the one it names, or its session when it names none there is. */
  ghost function Target(f: Forest, rank: map<nat, nat>, roots: seq<nat>, record: WaitingRecord): Option<nat>
    requires Sound(f, rank) && Roots(f, rank, roots)
  {
    var root := SessionCalled(f, roots, record.sessionId);
    if root.None? || record.agentId.None? then root
    else
      var found := FindIn(f, rank, f.children[root.value], record.agentId.value, rank[root.value]);
      if found.Some? then found else root
  }

  /** A record of a session in the reading always marks a card of it: the subagent it names if there is one. */
  lemma RecordsMarkTheirSession(f: Forest, rank: map<nat, nat>, roots: seq<nat>, record: WaitingRecord)
    requires Sound(f, rank) && Roots(f, rank, roots)
    ensures var root := SessionCalled(f, roots, record.sessionId); var target := Target(f, rank, roots, record);
      && (target.Some? <==> root.Some?)
      && (root.Some? ==>
            (var under := Under(f, rank, root.value);
             target.value == root.value
             || (target.value in under && target.value < |f.nodes|
                 && record.agentId == Some(f.nodes[target.value].id))))
      && (root.Some? && record.agentId.Some? && target == root ==>
            (forall j :: j in Under(f, rank, root.value) ==> j < |f.nodes| && f.nodes[j].id != record.agentId.value))
  {
    var root := SessionCalled(f, roots, record.sessionId);
    if root.Some? && record.agentId.Some? {
      UnderIsRanked(f, rank, root.value);
      FoundIsUnder(f, rank, f.children[root.value], record.agentId.value, rank[root.value]);
    }
    hide Ranked, FindIn;
  }

  // ------------------------------------------------------------------ as the program runs it

  /** Those of `cards` are settled. */
  ghost predicate Agree(f: Forest, rank: map<nat, nat>, clock: Clock, states: seq<State>, cards: set<nat>)
    requires Sound(f, rank)
  {
    forall j :: j in cards ==> j in rank && SettledAt(f, rank, clock, states, j)
  }

  ghost predicate SettledAt(f: Forest, rank: map<nat, nat>, clock: Clock, states: seq<State>, j: nat)
    requires Sound(f, rank) && j in rank
  {
    j < |states| && states[j] == StateOf(f, rank, clock, j)
  }

  ghost predicate SameBut(states: seq<State>, was: seq<State>, cards: set<nat>) {
    |states| == |was| && forall j: nat :: j < |was| && j !in cards ==> states[j] == was[j]
  }

  lemma TreeIs(f: Forest, rank: map<nat, nat>, clock: Clock, i: nat)
    requires Sound(f, rank) && i in rank
    ensures |f.children| == |f.nodes| == |f.waiting| && i < |f.nodes| && AllIn(f.children[i], rank, rank[i])
    ensures Under(f, rank, i) == UnderAll(f, rank, f.children[i], rank[i])
    ensures var below := AnyLive(f, rank, clock, f.children[i], rank[i]);
      && StateOf(f, rank, clock, i) == StateGiven(f, clock, i, below)
      && Live(f, rank, clock, i) == (IsLive(StateGiven(f, clock, i, below)) || below)
  {
    InForest(f, rank, i);
    hide Ranked, StateGiven;
  }

  lemma TailIn(cs: seq<nat>, rank: map<nat, nat>, top: nat, k: nat)
    requires AllIn(cs, rank, top) && k < |cs|
    ensures AllIn(cs[k..], rank, top) && AllIn(cs[k + 1..], rank, top) && cs[k] in rank && rank[cs[k]] < top
  {
    assert cs[k] in cs;
  }

  lemma NothingUnderNone(f: Forest, rank: map<nat, nat>, clock: Clock, top: nat)
    requires Sound(f, rank)
    ensures UnderAll(f, rank, [], top) == {} && !AnyLive(f, rank, clock, [], top)
  {
  }

  lemma LiveParts(f: Forest, rank: map<nat, nat>, clock: Clock, cs: seq<nat>, top: nat, k: nat)
    requires Sound(f, rank) && k < |cs| && AllIn(cs[k..], rank, top) && AllIn(cs[k + 1..], rank, top) && cs[k] in rank
    ensures AnyLive(f, rank, clock, cs[k..], top)
            == (Live(f, rank, clock, cs[k]) || AnyLive(f, rank, clock, cs[k + 1..], top))
  {
    hide Ranked, Live;
    assert cs[k..][1..] == cs[k + 1..] && cs[k..][0] == cs[k];
  }

  lemma NoneSettled(f: Forest, rank: map<nat, nat>, clock: Clock, states: seq<State>, cs: seq<nat>, top: nat)
    requires Sound(f, rank) && AllIn(cs, rank, top)
    ensures AllIn(cs[0..], rank, top)
    ensures Agree(f, rank, clock, states, UnderAll(f, rank, cs, top) - UnderAll(f, rank, cs[0..], top))
    ensures SameBut(states, states, UnderAll(f, rank, cs, top))
  {
    assert cs[0..] == cs;
    hide UnderAll, Ranked, StateOf;
  }

  /** One child's tree further. */
  lemma MoreSettled(f: Forest, rank: map<nat, nat>, clock: Clock, first: seq<State>, was: seq<State>,
                    states: seq<State>, cs: seq<nat>, top: nat, k: nat)
    requires Sound(f, rank) && k < |cs| && AllIn(cs, rank, top) && AllIn(cs[k..], rank, top)
             && AllIn(cs[k + 1..], rank, top)
    requires cs[k] in rank
    requires SameBut(was, first, UnderAll(f, rank, cs, top))
    requires Agree(f, rank, clock, was, UnderAll(f, rank, cs, top) - UnderAll(f, rank, cs[k..], top))
    requires SameBut(states, was, {cs[k]} + Under(f, rank, cs[k]))
    requires Agree(f, rank, clock, states, {cs[k]} + Under(f, rank, cs[k]))
    ensures SameBut(states, first, UnderAll(f, rank, cs, top))
    ensures Agree(f, rank, clock, states, UnderAll(f, rank, cs, top) - UnderAll(f, rank, cs[k + 1..], top))
  {
    UnderParts(f, rank, cs, top, k);
    hide StateOf, UnderAll, Under, Ranked;
    AgreeOnMore(f, rank, clock, first, was, states, UnderAll(f, rank, cs, top), UnderAll(f, rank, cs[k..], top),
                {cs[k]} + Under(f, rank, cs[k]), UnderAll(f, rank, cs[k + 1..], top));
  }

  lemma AgreeOnMore(f: Forest, rank: map<nat, nat>, clock: Clock, first: seq<State>, was: seq<State>,
                    states: seq<State>,
                    all: set<nat>, left: set<nat>, sub: set<nat>, next: set<nat>)
    requires Sound(f, rank) && left == sub + next && left <= all
    requires SameBut(was, first, all) && Agree(f, rank, clock, was, all - left)
    requires SameBut(states, was, sub) && Agree(f, rank, clock, states, sub)
    ensures SameBut(states, first, all) && Agree(f, rank, clock, states, all - next)
  {
    hide StateOf, Sound;
    forall j | j in all - next
      ensures j in rank && SettledAt(f, rank, clock, states, j)
    {
      if j in sub {
        assert j in rank && SettledAt(f, rank, clock, states, j);
      } else {
        assert j in all - left;
        assert j in rank && SettledAt(f, rank, clock, was, j);
      }
    }
  }

  lemma LastSettled(f: Forest, rank: map<nat, nat>, clock: Clock, first: seq<State>, was: seq<State>,
                    states: seq<State>, i: nat)
    requires Sound(f, rank) && i in rank && i < |was| && states == was[i := StateOf(f, rank, clock, i)]
    requires i < |f.children| && AllIn(f.children[i], rank, rank[i]) && AllIn([], rank, rank[i])
    requires SameBut(was, first, UnderAll(f, rank, f.children[i], rank[i]))
    requires Agree(f, rank, clock, was,
                   UnderAll(f, rank, f.children[i], rank[i]) - UnderAll(f, rank, [], rank[i]))
    ensures SameBut(states, first, {i} + Under(f, rank, i)) && Agree(f, rank, clock, states, {i} + Under(f, rank, i))
  {
    NothingUnderNone(f, rank, clock, rank[i]);
    TreeIs(f, rank, clock, i);
    hide StateOf, UnderAll, Under, Sound;
    var under := Under(f, rank, i);
    assert under - {} == under;
    forall j | j in {i} + under
      ensures j in rank && SettledAt(f, rank, clock, states, j)
    {
      if j != i {
        assert j in rank && SettledAt(f, rank, clock, was, j);
      }
    }
  }

  class Reading {
    const nodes: seq<Node>
    const children: seq<seq<nat>>
    var waiting: seq<bool>
    var states: seq<State>

    constructor (cards: seq<Node>, under: seq<seq<nat>>)
      requires |cards| == |under|
      ensures nodes == cards && children == under
      ensures |waiting| == |states| == |cards| && forall i :: 0 <= i < |cards| ==> !waiting[i]
    {
      nodes, children := cards, under;
      waiting := seq(|cards|, (_: nat) => false);
      states := seq(|cards|, (_: nat) => Running);
    }

    ghost function View(): Forest
      reads this
    {
      Forest(nodes, children, waiting)
    }

    /** Settles a card and all under it, children first; answers whether any of them is live. */
    method Settle(i: nat, clock: Clock, ghost rank: map<nat, nat>) returns (live: bool)
      requires Sound(View(), rank) && i in rank && |states| == |nodes|
      modifies `states
      ensures |states| == |nodes| && live == Live(View(), rank, clock, i)
      ensures Agree(View(), rank, clock, states, {i} + Under(View(), rank, i))
      ensures SameBut(states, old(states), {i} + Under(View(), rank, i))
      decreases rank[i]
    {
      TreeIs(View(), rank, clock, i);
      hide Sound, Ranked, Agree, SameBut, Under, UnderAll, Live, AnyLive, StateOf, AllIn, StateGiven;
      ghost var f := View();
      var cs := children[i];
      var below := false;
      var k := 0;
      NoneSettled(f, rank, clock, states, cs, rank[i]);
      assert cs[0..] == cs;
      while k < |cs|
        invariant 0 <= k <= |cs| && |states| == |nodes| && AllIn(cs[k..], rank, rank[i])
        invariant AnyLive(f, rank, clock, cs, rank[i]) == (below || AnyLive(f, rank, clock, cs[k..], rank[i]))
        invariant Agree(f, rank, clock, states, UnderAll(f, rank, cs, rank[i]) - UnderAll(f, rank, cs[k..], rank[i]))
        invariant SameBut(states, old(states), UnderAll(f, rank, cs, rank[i]))
      {
        TailIn(cs, rank, rank[i], k);
        LiveParts(f, rank, clock, cs, rank[i], k);
        ghost var was := states;
        var alive := Settle(cs[k], clock, rank);
        MoreSettled(f, rank, clock, old(states), was, states, cs, rank[i], k);
        below := below || alive;
        k := k + 1;
      }
      assert cs[k..] == [];
      NothingUnderNone(f, rank, clock, rank[i]);
      ghost var was := states;
      states := states[i := StateGiven(Forest(nodes, children, waiting), clock, i, below)];
      LastSettled(f, rank, clock, old(states), was, states, i);
      live := IsLive(states[i]) || below;
    }

    /** Marks each card a record names, its session when it names none. */
    method MarkWaiting(roots: seq<nat>, records: seq<WaitingRecord>, ghost rank: map<nat, nat>)
      requires Sound(View(), rank) && Roots(View(), rank, roots)
      modifies `waiting
      ensures |waiting| == |nodes|
      ensures forall j: nat :: j < |nodes| ==>
                (waiting[j] <==>
                  old(waiting[j]) || exists r :: r in records && Target(old(View()), rank, roots, r) == Some(j))
    {
      ghost var f := View();
      for n := 0 to |records|
        invariant |waiting| == |nodes|
        invariant forall j: nat :: j < |nodes| ==>
                    (waiting[j] <==>
                      old(waiting[j]) || exists r :: r in records[..n] && Target(f, rank, roots, r) == Some(j))
      {
        assert records[..n + 1] == records[..n] + [records[n]];
        var marked := Marked(roots, records[n], f, rank);
        if marked.Some? {
          waiting := waiting[marked.value := true];
        }
      }
      assert records[..|records|] == records;
    }

    method Marked(roots: seq<nat>, record: WaitingRecord, ghost f: Forest, ghost rank: map<nat, nat>)
      returns (marked: Option<nat>)
      requires f.nodes == nodes && f.children == children && Sound(f, rank) && Roots(f, rank, roots)
      ensures marked == Target(f, rank, roots, record)
      ensures marked.Some? ==> marked.value < |nodes|
    {
      var root := SessionCalled(Forest(nodes, children, waiting), roots, record.sessionId);
      SameSession(f, Forest(nodes, children, waiting), roots, record.sessionId);
      if root.None? || record.agentId.None? {
        return root;
      }
      InForest(f, rank, root.value);
      var found := Find(children[root.value], record.agentId.value, f, rank, rank[root.value]);
      marked := if found.Some? then found else root;
    }

    method Find(cs: seq<nat>, id: string, ghost f: Forest, ghost rank: map<nat, nat>, ghost top: nat)
      returns (found: Option<nat>)
      requires f.nodes == nodes && f.children == children && Sound(f, rank) && AllIn(cs, rank, top)
      ensures found == FindIn(f, rank, cs, id, top)
      decreases top
    {
      hide Ranked;
      found := None;
      assert cs[0..] == cs;
      for k := 0 to |cs|
        invariant AllIn(cs[k..], rank, top)
        invariant FindIn(f, rank, cs, id, top) == FindIn(f, rank, cs[k..], id, top)
      {
        var c := cs[k];
        assert cs[k..][0] == c && cs[k..][1..] == cs[k + 1..] && c in cs[k..];
        InForest(f, rank, c);
        if nodes[c].id == id {
          return Some(c);
        }
        found := Find(children[c], id, f, rank, rank[c]);
        if found.Some? {
          return;
        }
      }
      return None;
    }
  }

  lemma {:induction false} SameSession(f: Forest, g: Forest, roots: seq<nat>, id: string)
    requires f.nodes == g.nodes && forall k :: 0 <= k < |roots| ==> roots[k] < |f.nodes|
    ensures SessionCalled(f, roots, id) == SessionCalled(g, roots, id)
  {
    if roots != [] {
      SameSession(f, g, roots[1..], id);
    }
  }

  /** What is under a list's tail is under the list, and no more is added than its first tree. */
  lemma {:induction false} UnderParts(f: Forest, rank: map<nat, nat>, cs: seq<nat>, top: nat, k: nat)
    requires Sound(f, rank) && AllIn(cs, rank, top) && k < |cs| && AllIn(cs[k..], rank, top)
             && AllIn(cs[k + 1..], rank, top)
    requires cs[k] in rank
    ensures UnderAll(f, rank, cs[k..], top) == {cs[k]} + Under(f, rank, cs[k]) + UnderAll(f, rank, cs[k + 1..], top)
    ensures UnderAll(f, rank, cs[k..], top) <= UnderAll(f, rank, cs, top)
  {
    hide Ranked;
    assert cs[k..][1..] == cs[k + 1..] && cs[k..][0] == cs[k];
    if k == 0 {
      assert cs[0..] == cs;
    } else {
      assert cs[0] in cs;
      assert cs[1..][k - 1..] == cs[k..] && cs[1..][k..] == cs[k + 1..];
      UnderParts(f, rank, cs[1..], top, k - 1);
    }
  }
}
