/**
  The project map's import cycles, found by a colour-marking depth-first search.
  */
module ImportCycles {
  type Node = string

  /** `Map<string, string[]>`: the keys in the order they were added, and what each imports. */
  datatype Graph = Graph(keys: seq<Node>, edges: map<Node, seq<Node>>)

  /** A node with no colour yet is white. */
  datatype Colour = Grey | Black

  function Succ(g: Graph, id: Node): seq<Node> {
    if id in g.edges then g.edges[id] else []
  }

  predicate Edge(g: Graph, a: Node, b: Node) {
    b in Succ(g, a)
  }

  ghost function Nodes(g: Graph): set<Node> {
    (set n | n in g.keys) + (set n | n in g.edges) + (set n, m | n in g.edges && m in g.edges[n] :: m)
  }

  // ------------------------------------------------------------------ canonical rings

  /** The order on names: by character, a prefix first. */
  predicate Before(a: Node, b: Node) {
    if b == [] then false
    else if a == [] then true
    else a[0] < b[0] || (a[0] == b[0] && Before(a[1..], b[1..]))
  }

  lemma {:induction false} BeforeIsTotal(a: Node, b: Node)
    ensures Before(a, b) || a == b || Before(b, a)
    ensures !(Before(a, b) && Before(b, a)) && !Before(a, a)
  {
    if a != [] && b != [] {
      BeforeIsTotal(a[1..], b[1..]);
      assert a == [a[0]] + a[1..] && b == [b[0]] + b[1..];
    }
    if a != [] {
      BeforeIsTotal(a[1..], a[1..]);
    }
  }

  lemma {:induction false} BeforeIsTransitive(a: Node, b: Node, c: Node)
    requires Before(a, b) && Before(b, c)
    ensures Before(a, c)
  {
    if a != [] && a[0] == b[0] == c[0] {
      BeforeIsTransitive(a[1..], b[1..], c[1..]);
    }
  }

  /** Where the least node of `ring` is: the first of them `indexOf` finds. */
  function Pivot(ring: seq<Node>): (at: nat)
    requires ring != []
    ensures at < |ring|
    ensures forall k :: 0 <= k < |ring| ==> !Before(ring[k], ring[at])
  {
    if |ring| == 1 then
      BeforeIsTotal(ring[0], ring[0]);
      0
    else
      var rest := Pivot(ring[1..]);
      if Before(ring[1..][rest], ring[0]) then
        PivotMoves(ring, rest);
        rest + 1
      else
        PivotStays(ring, rest);
        0
  }

  lemma PivotMoves(ring: seq<Node>, rest: nat)
    requires |ring| > 1 && rest < |ring| - 1 && Before(ring[1..][rest], ring[0])
    requires forall k :: 0 <= k < |ring[1..]| ==> !Before(ring[1..][k], ring[1..][rest])
    ensures forall k :: 0 <= k < |ring| ==> !Before(ring[k], ring[rest + 1])
  {
    BeforeIsTotal(ring[0], ring[rest + 1]);
    forall k | 0 < k < |ring|
      ensures !Before(ring[k], ring[rest + 1])
    {
      assert ring[k] == ring[1..][k - 1];
    }
  }

  lemma PivotStays(ring: seq<Node>, rest: nat)
    requires |ring| > 1 && rest < |ring| - 1 && !Before(ring[1..][rest], ring[0])
    requires forall k :: 0 <= k < |ring[1..]| ==> !Before(ring[1..][k], ring[1..][rest])
    ensures forall k :: 0 <= k < |ring| ==> !Before(ring[k], ring[0])
  {
    BeforeIsTotal(ring[0], ring[0]);
    forall k | 0 < k < |ring|
      ensures !Before(ring[k], ring[0])
    {
      assert ring[k] == ring[1..][k - 1];
      if Before(ring[k], ring[0]) {
        BeforeIsTotal(ring[0], ring[rest + 1]);
        if ring[0] != ring[rest + 1] {
          BeforeIsTransitive(ring[k], ring[0], ring[rest + 1]);
        }
      }
    }
  }

  function Rotated(ring: seq<Node>, at: nat): seq<Node>
    requires at <= |ring|
  {
    ring[at..] + ring[..at]
  }

  /** The ring started at its least node, so that it reads the same from wherever it was entered. */
  function Canonical(ring: seq<Node>): seq<Node>
    requires ring != []
  {
    Rotated(ring, Pivot(ring))
  }

  /** `canonical.join(">")`. */
  function Key(ring: seq<Node>): string {
    if ring == [] then ""
    else if |ring| == 1 then ring[0]
    else ring[0] + ">" + Key(ring[1..])
  }

  ghost predicate Distinct(nodes: seq<Node>) {
    forall j, k :: 0 <= j < k < |nodes| ==> nodes[j] != nodes[k]
  }

  ghost predicate IsPath(g: Graph, path: seq<Node>) {
    forall k :: 0 <= k < |path| - 1 ==> Edge(g, path[k], path[k + 1])
  }

  /** A real simple cycle: every step an import, the last node importing the first, none twice. */
  ghost predicate IsRing(g: Graph, ring: seq<Node>) {
    ring != [] && Distinct(ring) && IsPath(g, ring) && Edge(g, ring[|ring| - 1], ring[0])
  }

  lemma RotatedIsRing(g: Graph, ring: seq<Node>, at: nat)
    requires IsRing(g, ring) && at <= |ring|
    ensures IsRing(g, Rotated(ring, at))
  {
    var turned := Rotated(ring, at);
    var n := |ring|;
    forall k | 0 <= k < n
      ensures turned[k] == ring[if k + at < n then k + at else k + at - n]
    {
    }
    forall k | 0 <= k < n - 1
      ensures Edge(g, turned[k], turned[k + 1])
    {
      if k + at < n - 1 {
        assert Edge(g, ring[k + at], ring[k + at + 1]);
      } else if k + at >= n {
        assert Edge(g, ring[k + at - n], ring[k + at - n + 1]);
      }
    }
    if 0 < at < n {
      assert Edge(g, ring[at - 1], ring[at]);
    }
  }

  /** Rotations of one ring have one canonical form. */
  lemma CanonicalOfRotation(ring: seq<Node>, at: nat)
    requires ring != [] && Distinct(ring) && at <= |ring|
    ensures Canonical(Rotated(ring, at)) == Canonical(ring)
  {
    var turned := Rotated(ring, at);
    var p, q := Pivot(ring), Pivot(turned);
    var n := |ring|;
    var back := if q + at < n then q + at else q + at - n;
    assert turned[q] == ring[back];
    var there := if p >= at then p - at else p - at + n;
    assert turned[there] == ring[p];
    BeforeIsTotal(ring[p], ring[back]);
    assert ring[p] == ring[back];
    assert p == back;
    RotatedTwice(ring, at, q);
  }

  lemma RotatedTwice(ring: seq<Node>, at: nat, q: nat)
    requires ring != [] && at <= |ring| && q < |ring|
    ensures Rotated(Rotated(ring, at), q)
         == Rotated(ring, if q + at < |ring| then q + at else q + at - |ring|)
  {
    var n := |ring|;
    var a, b := Rotated(Rotated(ring, at), q), Rotated(ring, if q + at < n then q + at else q + at - n);
    forall k | 0 <= k < n
      ensures a[k] == b[k]
    {
    }
  }

  // ------------------------------------------------------------------ the search

  /**
    What the search holds: colours, the stack, the keys reported and the rings. `taken` is
    not the program's: it records each edge followed to a node not yet finished, so that
    what the search passed over can be told from what it followed.
    */
  datatype Dfs = Dfs(
    colour: map<Node, Colour>, stack: seq<Node>, seen: set<string>, cycles: seq<seq<Node>>, taken: set<(Node, Node)>)

  const START := Dfs(map[], [], {}, [], {})

  predicate IsGrey(s: Dfs, n: Node) {
    n in s.colour && s.colour[n].Grey?
  }

  predicate IsBlack(s: Dfs, n: Node) {
    n in s.colour && s.colour[n].Black?
  }

  /** The grey nodes are the stack, each on it once. */
  ghost predicate StackIsGrey(s: Dfs) {
    && Distinct(s.stack)
    && forall n :: n in s.stack <==> IsGrey(s, n)
  }

  function IndexOf(stack: seq<Node>, n: Node): (at: nat)
    requires n in stack
    ensures at < |stack| && stack[at] == n
    ensures forall k :: 0 <= k < at ==> stack[k] != n
  {
    if stack[0] == n then 0 else 1 + IndexOf(stack[1..], n)
  }

  /** The ring the stack closes at `next`, reported unless its key has been. */
  function Report(s: Dfs, next: Node): Dfs
    requires next in s.stack
  {
    var canonical := Canonical(s.stack[IndexOf(s.stack, next)..]);
    if Key(canonical) in s.seen then s
    else s.(seen := s.seen + {Key(canonical)}, cycles := s.cycles + [canonical])
  }

  /** What a visit does to everything but its own subtree's findings: nothing. */
  ghost predicate Advances(s: Dfs, t: Dfs) {
    && t.stack == s.stack
    && s.colour.Keys <= t.colour.Keys
    && (forall n :: IsBlack(s, n) ==> IsBlack(t, n))
    && s.seen <= t.seen && s.cycles <= t.cycles && s.taken <= t.taken
  }

  ghost function Left(g: Graph, s: Dfs): nat {
    |Nodes(g) - s.colour.Keys|
  }

  lemma LeftShrinks(g: Graph, s: Dfs, t: Dfs)
    requires s.colour.Keys <= t.colour.Keys
    ensures Left(g, t) <= Left(g, s)
  {
    hide Nodes;
    var a, b := Nodes(g) - t.colour.Keys, Nodes(g) - s.colour.Keys;
    assert b == a + (b - a);
  }

  lemma LeftDrops(g: Graph, s: Dfs, t: Dfs, n: Node)
    requires s.colour.Keys <= t.colour.Keys && n in Nodes(g) && n in t.colour && n !in s.colour
    ensures Left(g, t) < Left(g, s)
  {
    hide Nodes;
    var a, b := Nodes(g) - t.colour.Keys, Nodes(g) - s.colour.Keys;
    assert b == a + (b - a);
    assert n in b - a;
  }

  lemma SuccIsNode(g: Graph, id: Node, n: Node)
    requires Edge(g, id, n)
    ensures n in Nodes(g)
  {
  }

  function Entered(s: Dfs, id: Node): Dfs {
    s.(colour := s.colour[id := Grey], stack := s.stack + [id])
  }

  function Exited(s: Dfs, id: Node): Dfs
    requires s.stack != []
  {
    s.(colour := s.colour[id := Black], stack := s.stack[..|s.stack| - 1])
  }

  function Took(s: Dfs, id: Node, next: Node): Dfs {
    s.(taken := s.taken + {(id, next)})
  }

  lemma EnteredIsGrey(s: Dfs, id: Node)
    requires StackIsGrey(s) && id !in s.colour
    ensures StackIsGrey(Entered(s, id))
    ensures forall n :: IsBlack(s, n) ==> IsBlack(Entered(s, id), n)
  {
    var t := Entered(s, id);
    assert id !in s.stack;
    forall n
      ensures n in t.stack <==> IsGrey(t, n)
    {
      assert n in t.stack <==> n in s.stack || n == id;
      assert n in s.stack <==> IsGrey(s, n);
    }
  }

  lemma ExitedIsGrey(s: Dfs, id: Node)
    requires StackIsGrey(s) && s.stack != [] && s.stack[|s.stack| - 1] == id
    ensures StackIsGrey(Exited(s, id))
    ensures forall n :: IsBlack(s, n) ==> IsBlack(Exited(s, id), n)
  {
    var t := Exited(s, id);
    forall n
      ensures n in t.stack <==> IsGrey(t, n)
    {
      assert s.stack == t.stack + [id];
      assert n in s.stack <==> n in t.stack || n == id;
      assert n in s.stack <==> IsGrey(s, n);
    }
  }

  function Visit(g: Graph, id: Node, s: Dfs): (t: Dfs)
    requires StackIsGrey(s) && id in Nodes(g) && id !in s.colour
    ensures StackIsGrey(t) && Advances(s, t) && IsBlack(t, id)
    decreases Left(g, s), 0
  {
    EnteredIsGrey(s, id);
    LeftDrops(g, s, Entered(s, id), id);
    var inside := Walk(g, id, Succ(g, id), Entered(s, id));
    ExitedIsGrey(inside, id);
    assert inside.stack == s.stack + [id];
    Exited(inside, id)
  }

  /** The loop over what `id` imports. */
  function Walk(g: Graph, id: Node, nexts: seq<Node>, s: Dfs): (t: Dfs)
    requires StackIsGrey(s) && forall n :: n in nexts ==> Edge(g, id, n)
    ensures StackIsGrey(t) && Advances(s, t)
    decreases Left(g, s), 1 + |nexts|
  {
    if nexts == [] then s
    else
      SuccIsNode(g, id, nexts[0]);
      var after := Follow(g, id, nexts[0], s);
      LeftShrinks(g, s, after);
      Walk(g, id, nexts[1..], after)
  }

  /** One import: visited when new, a ring reported when it closes one, passed over when finished. */
  function Follow(g: Graph, id: Node, next: Node, s: Dfs): (t: Dfs)
    requires StackIsGrey(s) && next in Nodes(g)
    ensures StackIsGrey(t) && Advances(s, t) && next in t.colour
    decreases Left(g, s), 1
  {
    if next !in s.colour then Visit(g, next, Took(s, id, next))
    else if s.colour[next].Grey? then
      assert next in s.stack;
      Report(Took(s, id, next), next)
    else s
  }

  /** Every key not yet met starts a search of its own. */
  function Search(g: Graph, keys: seq<Node>, s: Dfs): (t: Dfs)
    requires StackIsGrey(s) && forall k :: k in keys ==> k in Nodes(g)
    ensures StackIsGrey(t) && Advances(s, t)
  {
    if keys == [] then s
    else
      assert keys[0] in keys;
      var after := if keys[0] in s.colour then s else Visit(g, keys[0], s);
      Search(g, keys[1..], after)
  }

  function Found(g: Graph): Dfs {
    Search(g, g.keys, START)
  }

  // ------------------------------------------------------------------ sound, and none twice

  ghost predicate KeysDistinct(cycles: seq<seq<Node>>) {
    forall j, k :: 0 <= j < k < |cycles| ==> Key(cycles[j]) != Key(cycles[k])
  }

  /** What has been reported are real rings, each from its least node, and no key is there twice. */
  ghost predicate Sound(g: Graph, s: Dfs) {
    && IsPath(g, s.stack)
    && (forall c :: c in s.cycles ==> IsRing(g, c) && Pivot(c) == 0)
    && s.seen == (set c | c in s.cycles :: Key(c))
    && KeysDistinct(s.cycles)
  }

  lemma CanonicalStartsLeast(ring: seq<Node>)
    requires ring != [] && Distinct(ring)
    ensures Pivot(Canonical(ring)) == 0
  {
    var c := Canonical(ring);
    RotatedIsDistinct(ring, Pivot(ring));
    assert c[0] == ring[Pivot(ring)];
    assert c[Pivot(c)] in ring;
    BeforeIsTotal(c[Pivot(c)], c[0]);
  }

  lemma RotatedIsDistinct(ring: seq<Node>, at: nat)
    requires Distinct(ring) && at <= |ring|
    ensures Distinct(Rotated(ring, at))
  {
  }

  lemma StackTailIsRing(g: Graph, stack: seq<Node>, at: nat)
    requires Distinct(stack) && IsPath(g, stack) && at < |stack| && Edge(g, stack[|stack| - 1], stack[at])
    ensures IsRing(g, stack[at..])
  {
    var ring := stack[at..];
    forall k | 0 <= k < |ring| - 1
      ensures Edge(g, ring[k], ring[k + 1])
    {
      assert Edge(g, stack[at + k], stack[at + k + 1]);
    }
  }

  lemma OneMoreKey(cycles: seq<seq<Node>>, c: seq<Node>)
    requires KeysDistinct(cycles) && Key(c) !in (set x | x in cycles :: Key(x))
    ensures KeysDistinct(cycles + [c])
    ensures (set x | x in cycles + [c] :: Key(x)) == (set x | x in cycles :: Key(x)) + {Key(c)}
  {
    hide Key;
    var all := cycles + [c];
    forall j, k | 0 <= j < k < |all|
      ensures Key(all[j]) != Key(all[k])
    {
      assert cycles[j] in cycles;
    }
  }

  lemma OneMoreRing(g: Graph, s: Dfs, c: seq<Node>)
    requires Sound(g, s) && IsRing(g, c) && Pivot(c) == 0 && Key(c) !in s.seen
    ensures Sound(g, s.(seen := s.seen + {Key(c)}, cycles := s.cycles + [c]))
  {
    hide IsRing, Key, IsPath, KeysDistinct;
    OneMoreKey(s.cycles, c);
  }

  lemma ReportIsSound(g: Graph, s: Dfs, next: Node)
    requires StackIsGrey(s) && Sound(g, s) && next in s.stack && Edge(g, s.stack[|s.stack| - 1], next)
    ensures Sound(g, Report(s, next))
    ensures Report(s, next).cycles != []
  {
    var at := IndexOf(s.stack, next);
    var ring := s.stack[at..];
    StackTailIsRing(g, s.stack, at);
    var c := Canonical(ring);
    RotatedIsRing(g, ring, Pivot(ring));
    CanonicalStartsLeast(ring);
    hide IsRing, Distinct, IsPath, Key, Canonical;
    if Key(c) !in s.seen {
      OneMoreRing(g, s, c);
    }
  }

  lemma VisitUnfold(g: Graph, id: Node, s: Dfs)
    requires StackIsGrey(s) && id in Nodes(g) && id !in s.colour
    ensures forall n :: n in Succ(g, id) ==> Edge(g, id, n)
    ensures var inside := Entered(s, id);
      && StackIsGrey(inside) && inside.stack == s.stack + [id] && Left(g, inside) < Left(g, s)
      && var last := Walk(g, id, Succ(g, id), inside);
         last.stack == inside.stack && Visit(g, id, s) == Exited(last, id)
  {
    hide Nodes, Left, Walk, StackIsGrey;
    EnteredIsGrey(s, id);
    LeftDrops(g, s, Entered(s, id), id);
  }

  lemma EnteredIsSound(g: Graph, s: Dfs, id: Node)
    requires Sound(g, s) && (s.stack != [] ==> Edge(g, s.stack[|s.stack| - 1], id))
    ensures Sound(g, Entered(s, id))
  {
  }

  lemma ExitedIsSound(g: Graph, s: Dfs, id: Node)
    requires Sound(g, s) && s.stack != []
    ensures Sound(g, Exited(s, id))
  {
    hide IsRing, Key, KeysDistinct;
  }

  lemma {:induction false} VisitIsSound(g: Graph, id: Node, s: Dfs)
    requires StackIsGrey(s) && id in Nodes(g) && id !in s.colour
    requires Sound(g, s) && (s.stack != [] ==> Edge(g, s.stack[|s.stack| - 1], id))
    ensures Sound(g, Visit(g, id, s))
    decreases Left(g, s), 0
  {
    hide *;
    VisitUnfold(g, id, s);
    EnteredIsSound(g, s, id);
    WalkIsSound(g, id, Succ(g, id), Entered(s, id));
    ExitedIsSound(g, Walk(g, id, Succ(g, id), Entered(s, id)), id);
  }

  lemma {:induction false} FollowIsSound(g: Graph, id: Node, next: Node, s: Dfs)
    requires StackIsGrey(s) && next in Nodes(g) && Edge(g, id, next)
    requires Sound(g, s) && s.stack != [] && s.stack[|s.stack| - 1] == id
    ensures Sound(g, Follow(g, id, next, s))
    ensures IsGrey(s, next) ==> Follow(g, id, next, s).cycles != []
    decreases Left(g, s), 1
  {
    hide Nodes, Succ, Sound, StackIsGrey;
    TookIsSound(g, s, id, next);
    if next !in s.colour {
      VisitIsSound(g, next, Took(s, id, next));
    } else if s.colour[next].Grey? {
      GreyIsOnStack(s, next);
      ReportIsSound(g, Took(s, id, next), next);
    }
  }

  lemma {:induction false} WalkIsSound(g: Graph, id: Node, nexts: seq<Node>, s: Dfs)
    requires StackIsGrey(s) && forall n :: n in nexts ==> Edge(g, id, n)
    requires Sound(g, s) && s.stack != [] && s.stack[|s.stack| - 1] == id
    ensures Sound(g, Walk(g, id, nexts, s))
    decreases Left(g, s), 1 + |nexts|
  {
    hide *;
    if nexts == [] {
      WalkNothing(g, id, s);
    } else {
      WalkUnfold(g, id, nexts, s);
      FollowIsSound(g, id, nexts[0], s);
      WalkIsSound(g, id, nexts[1..], Follow(g, id, nexts[0], s));
    }
  }

  lemma TookIsSound(g: Graph, s: Dfs, id: Node, next: Node)
    requires Sound(g, s) && StackIsGrey(s)
    ensures Sound(g, Took(s, id, next)) && StackIsGrey(Took(s, id, next))
  {
    assert forall n :: IsGrey(Took(s, id, next), n) <==> IsGrey(s, n);
  }

  lemma GreyIsOnStack(s: Dfs, n: Node)
    requires StackIsGrey(s)
    ensures n in s.stack <==> IsGrey(s, n)
  {
  }

  lemma {:induction false} SearchIsSound(g: Graph, keys: seq<Node>, s: Dfs)
    requires StackIsGrey(s) && forall k :: k in keys ==> k in Nodes(g)
    requires Sound(g, s) && s.stack == []
    ensures Sound(g, Search(g, keys, s))
  {
    hide Nodes, Sound, StackIsGrey;
    if keys != [] {
      if keys[0] !in s.colour {
        VisitIsSound(g, keys[0], s);
      }
      SearchIsSound(g, keys[1..], if keys[0] in s.colour then s else Visit(g, keys[0], s));
    }
  }

  lemma FoundIsSound(g: Graph)
    ensures Sound(g, Found(g))
  {
    SearchIsSound(g, g.keys, START);
  }

  /** Every ring reported is a real simple cycle, and no ring is reported twice, from any entry point. */
  lemma ReportedRingsAreReal(g: Graph)
    ensures forall c :: c in Found(g).cycles ==> IsRing(g, c)
    ensures forall j, k, at :: 0 <= j < k < |Found(g).cycles| && 0 <= at <= |Found(g).cycles[k]| ==>
              Found(g).cycles[j] != Rotated(Found(g).cycles[k], at)
  {
    hide IsRing, Found;
    FoundIsSound(g);
    var cycles := Found(g).cycles;
    forall j, k, at | 0 <= j < k < |cycles| && 0 <= at <= |cycles[k]|
      ensures cycles[j] != Rotated(cycles[k], at)
    {
      assert cycles[j] in cycles && cycles[k] in cycles;
      if cycles[j] == Rotated(cycles[k], at) {
        RingIsDistinct(g, cycles[k]);
        CanonicalOfRotation(cycles[k], at);
        CanonicalIsItself(cycles[k]);
        CanonicalIsItself(cycles[j]);
      }
    }
  }

  lemma RingIsDistinct(g: Graph, ring: seq<Node>)
    requires IsRing(g, ring)
    ensures ring != [] && Distinct(ring)
  {
  }

  lemma CanonicalIsItself(ring: seq<Node>)
    requires ring != [] && Pivot(ring) == 0
    ensures Canonical(ring) == ring
  {
  }

  // ------------------------------------------------------------------ empty exactly when acyclic

  /** A walk over imports that comes back to where it was. */
  ghost predicate IsClosedWalk(g: Graph, walk: seq<Node>) {
    |walk| > 1 && IsPath(g, walk) && walk[0] == walk[|walk| - 1]
  }

  ghost predicate HasCycle(g: Graph) {
    exists walk :: IsClosedWalk(g, walk)
  }

  /** No walk from `n` meets any node twice. */
  ghost predicate Straight(g: Graph, n: Node) {
    forall walk :: walk != [] && walk[0] == n && IsPath(g, walk) ==> Distinct(walk)
  }

  ghost predicate BlacksStraight(g: Graph, s: Dfs) {
    forall n :: IsBlack(s, n) ==> Straight(g, n)
  }

  /** A node whose imports all lead nowhere back leads nowhere back itself. */
  lemma StraightFromImports(g: Graph, id: Node)
    requires AllStraight(g, Succ(g, id))
    ensures Straight(g, id)
  {
    forall walk | walk != [] && walk[0] == id && IsPath(g, walk)
      ensures Distinct(walk)
    {
      if |walk| > 1 {
        var tail := walk[1..];
        assert Edge(g, walk[0], walk[1]);
        TailIsPath(g, walk);
        assert Distinct(tail);
        forall k | 0 < k < |walk|
          ensures walk[0] != walk[k]
        {
          if walk[k] == id {
            RoundIsPath(g, walk, k);
          }
        }
        forall j, k | 0 < j < k < |walk|
          ensures walk[j] != walk[k]
        {
          assert tail[j - 1] != tail[k - 1];
        }
      }
    }
  }

  lemma TailIsPath(g: Graph, walk: seq<Node>)
    requires |walk| > 1 && IsPath(g, walk)
    ensures IsPath(g, walk[1..])
  {
    forall k | 0 <= k < |walk[1..]| - 1
      ensures Edge(g, walk[1..][k], walk[1..][k + 1])
    {
      assert Edge(g, walk[k + 1], walk[k + 2]);
    }
  }

  lemma RoundIsPath(g: Graph, walk: seq<Node>, k: nat)
    requires 0 < k < |walk| && IsPath(g, walk) && walk[k] == walk[0]
    ensures var round := walk[1..k + 1] + [walk[1]];
      IsPath(g, round) && round[0] == walk[1] == round[k] && !Distinct(round)
  {
    var round := walk[1..k + 1] + [walk[1]];
    forall j | 0 <= j < |round| - 1
      ensures Edge(g, round[j], round[j + 1])
    {
      if j + 1 < k {
        assert Edge(g, walk[j + 1], walk[j + 2]);
      } else {
        assert Edge(g, walk[0], walk[1]);
      }
    }
  }

  lemma {:induction false} VisitIsStraight(g: Graph, id: Node, s: Dfs)
    requires StackIsGrey(s) && id in Nodes(g) && id !in s.colour
    requires Sound(g, s) && (s.stack != [] ==> Edge(g, s.stack[|s.stack| - 1], id))
    requires Visit(g, id, s).cycles == [] ==> BlacksStraight(g, s)
    ensures Visit(g, id, s).cycles == [] ==> BlacksStraight(g, Visit(g, id, s))
    decreases Left(g, s), 0
  {
    hide Nodes, Succ, Straight, Sound, StackIsGrey;
    EnteredIsGrey(s, id);
    LeftDrops(g, s, Entered(s, id), id);
    EnteredIsSound(g, s, id);
    var inside := Walk(g, id, Succ(g, id), Entered(s, id));
    if Visit(g, id, s).cycles == [] {
      WalkIsStraight(g, id, Succ(g, id), Entered(s, id));
      StraightFromImports(g, id);
    }
  }

  lemma {:induction false} FollowIsStraight(g: Graph, id: Node, next: Node, s: Dfs)
    requires StackIsGrey(s) && next in Nodes(g) && Edge(g, id, next)
    requires Sound(g, s) && s.stack != [] && s.stack[|s.stack| - 1] == id
    requires Follow(g, id, next, s).cycles == [] && BlacksStraight(g, s)
    ensures BlacksStraight(g, Follow(g, id, next, s)) && Straight(g, next)
    decreases Left(g, s), 1
  {
    hide Nodes, Succ, Straight, Sound, StackIsGrey;
    FollowIsSound(g, id, next, s);
    if next !in s.colour {
      TookIsSound(g, s, id, next);
      VisitIsStraight(g, next, Took(s, id, next));
    } else {
      assert IsBlack(s, next);
    }
  }

  lemma WalkUnfold(g: Graph, id: Node, nexts: seq<Node>, s: Dfs)
    requires StackIsGrey(s) && nexts != [] && forall n :: n in nexts ==> Edge(g, id, n)
    ensures nexts[0] in Nodes(g) && forall n :: n in nexts[1..] ==> Edge(g, id, n)
    ensures var after := Follow(g, id, nexts[0], s);
      && StackIsGrey(after) && Advances(s, after)
      && Walk(g, id, nexts, s) == Walk(g, id, nexts[1..], after)
      && Advances(after, Walk(g, id, nexts, s))
      && (Walk(g, id, nexts, s).cycles == [] ==> after.cycles == [])
      && after.stack == s.stack
      && Left(g, after) <= Left(g, s)
  {
    hide Follow, StackIsGrey, Nodes;
    SuccIsNode(g, id, nexts[0]);
    LeftShrinks(g, s, Follow(g, id, nexts[0], s));
  }

  lemma {:induction false} WalkIsStraight(g: Graph, id: Node, nexts: seq<Node>, s: Dfs)
    requires StackIsGrey(s) && forall n :: n in nexts ==> Edge(g, id, n)
    requires Sound(g, s) && s.stack != [] && s.stack[|s.stack| - 1] == id
    requires Walk(g, id, nexts, s).cycles == [] && BlacksStraight(g, s)
    ensures BlacksStraight(g, Walk(g, id, nexts, s))
    ensures AllStraight(g, nexts)
    decreases Left(g, s), 1 + |nexts|
  {
    hide *;
    if nexts == [] {
      WalkNothing(g, id, s);
    } else {
      WalkUnfold(g, id, nexts, s);
      var after := Follow(g, id, nexts[0], s);
      FollowIsSound(g, id, nexts[0], s);
      FollowIsStraight(g, id, nexts[0], s);
      WalkIsStraight(g, id, nexts[1..], after);
      ImportsCons(g, nexts);
    }
  }

  lemma WalkNothing(g: Graph, id: Node, s: Dfs)
    requires StackIsGrey(s)
    ensures Walk(g, id, [], s) == s && AllStraight(g, [])
  {
  }

  /** No walk from any of `nodes` meets a node twice. */
  ghost predicate AllStraight(g: Graph, nodes: seq<Node>) {
    forall n :: n in nodes ==> Straight(g, n)
  }

  lemma ImportsCons(g: Graph, nexts: seq<Node>)
    requires nexts != [] && Straight(g, nexts[0]) && AllStraight(g, nexts[1..])
    ensures AllStraight(g, nexts)
  {
    hide Straight;
    assert nexts == [nexts[0]] + nexts[1..];
  }

  lemma {:induction false} SearchIsStraight(g: Graph, keys: seq<Node>, s: Dfs)
    requires StackIsGrey(s) && forall k :: k in keys ==> k in Nodes(g)
    requires Sound(g, s) && s.stack == [] && BlacksStraight(g, s)
    requires Search(g, keys, s).cycles == []
    ensures BlacksStraight(g, Search(g, keys, s))
    ensures forall k :: k in keys ==> k in Search(g, keys, s).colour
  {
    hide Nodes, Straight, Sound, StackIsGrey;
    if keys != [] {
      if keys[0] !in s.colour {
        VisitIsSound(g, keys[0], s);
        VisitIsStraight(g, keys[0], s);
      }
      SearchIsStraight(g, keys[1..], if keys[0] in s.colour then s else Visit(g, keys[0], s));
      assert keys == [keys[0]] + keys[1..];
    }
  }

  /** The map's keys are exactly the nodes with a list of imports. */
  predicate WellFormed(g: Graph) {
    forall n :: n in g.edges ==> n in g.keys
  }

  /** Nothing is reported exactly when nothing imports its way back to itself. */
  lemma EmptyIffAcyclic(g: Graph)
    requires WellFormed(g)
    ensures Found(g).cycles == [] <==> !HasCycle(g)
  {
    hide Sound;
    var t := Found(g);
    FoundIsSound(g);
    if t.cycles != [] {
      RingIsClosedWalk(g, t);
    } else {
      StartIsSound(g);
      SearchIsStraight(g, g.keys, START);
      forall walk
        ensures !IsClosedWalk(g, walk)
      {
        if IsClosedWalk(g, walk) {
          assert Edge(g, walk[0], walk[1]);
          NoGreyLeft(t, walk[0]);
        }
      }
    }
  }

  lemma StartIsSound(g: Graph)
    ensures Sound(g, START) && StackIsGrey(START)
  {
  }

  lemma NoGreyLeft(t: Dfs, n: Node)
    requires StackIsGrey(t) && t.stack == [] && n in t.colour
    ensures IsBlack(t, n)
  {
    GreyIsOnStack(t, n);
  }

  lemma RingIsClosedWalk(g: Graph, t: Dfs)
    requires Sound(g, t) && t.cycles != []
    ensures HasCycle(g)
  {
    var ring := t.cycles[0];
    assert ring in t.cycles;
    var walk := ring + [ring[0]];
    forall k | 0 <= k < |walk| - 1
      ensures Edge(g, walk[k], walk[k + 1])
    {
      if k < |ring| - 1 {
        assert Edge(g, ring[k], ring[k + 1]);
      }
    }
    assert IsClosedWalk(g, walk);
  }

  // ------------------------------------------------------------------ which rings are reported

  /** Both ends of every edge followed have been met. */
  ghost predicate Met(s: Dfs) {
    forall e :: e in s.taken ==> e.0 in s.colour && e.1 in s.colour
  }

  /** What is followed between `s` and `t` starts at `id` or at a node not yet met. */
  ghost predicate TakesFrom(s: Dfs, t: Dfs, id: Node) {
    forall e :: e in t.taken ==> e in s.taken || e.0 == id || e.0 !in s.colour
  }

  lemma {:induction false} VisitTakes(g: Graph, id: Node, s: Dfs)
    requires StackIsGrey(s) && id in Nodes(g) && id !in s.colour
    requires forall e :: e in s.taken ==> e.0 in s.colour && (e.1 in s.colour || e.1 == id)
    ensures Met(Visit(g, id, s)) && TakesFrom(s, Visit(g, id, s), id)
    decreases Left(g, s), 0
  {
    hide Nodes, Succ, StackIsGrey;
    EnteredIsGrey(s, id);
    LeftDrops(g, s, Entered(s, id), id);
    WalkTakes(g, id, Succ(g, id), Entered(s, id));
  }

  lemma {:induction false} FollowTakes(g: Graph, id: Node, next: Node, s: Dfs)
    requires StackIsGrey(s) && next in Nodes(g) && Met(s) && id in s.colour
    ensures Met(Follow(g, id, next, s)) && TakesFrom(s, Follow(g, id, next, s), id)
    ensures forall e :: e in Follow(g, id, next, s).taken ==> e in s.taken || e == (id, next) || e.0 !in s.colour
    decreases Left(g, s), 1
  {
    hide Nodes, Succ, StackIsGrey;
    if next !in s.colour {
      TookIsGrey(s, id, next);
      VisitTakes(g, next, Took(s, id, next));
    }
  }

  lemma TookIsGrey(s: Dfs, id: Node, next: Node)
    requires StackIsGrey(s)
    ensures StackIsGrey(Took(s, id, next))
  {
    assert forall n :: IsGrey(Took(s, id, next), n) <==> IsGrey(s, n);
  }

  lemma {:induction false} WalkTakes(g: Graph, id: Node, nexts: seq<Node>, s: Dfs)
    requires StackIsGrey(s) && forall n :: n in nexts ==> Edge(g, id, n)
    requires Met(s) && id in s.colour
    ensures Met(Walk(g, id, nexts, s)) && TakesFrom(s, Walk(g, id, nexts, s), id)
    decreases Left(g, s), 1 + |nexts|
  {
    if nexts != [] {
      hide Nodes, Succ, StackIsGrey, Follow, Visit, Walk, Left, Met;
      WalkUnfold(g, id, nexts, s);
      FollowTakes(g, id, nexts[0], s);
      WalkTakes(g, id, nexts[1..], Follow(g, id, nexts[0], s));
    }
  }

  /** Where the ring goes after its `j`th node. */
  function After(ring: seq<Node>, j: nat): Node
    requires j < |ring|
  {
    if j + 1 < |ring| then ring[j + 1] else ring[0]
  }

  /** The search followed every step of the ring from its `k`th node on. */
  ghost predicate TakenFrom(ring: seq<Node>, s: Dfs, k: nat) {
    forall j :: k <= j < |ring| ==> (ring[j], After(ring, j)) in s.taken
  }

  /** Nothing is followed from a finished node any more, so what it leads to is finished or on the stack. */
  lemma FrozenStep(after: Dfs, last: Dfs, id: Node, n: Node, x: Node)
    requires StackIsGrey(after) && Met(after) && TakesFrom(after, last, id)
    requires IsBlack(after, n) && n != id && (n, x) in last.taken
    ensures (n, x) in after.taken
    ensures x !in after.stack ==> IsBlack(after, x)
  {
    var e := (n, x);
    assert e in after.taken;
    assert e.1 in after.colour;
    GreyIsOnStack(after, x);
  }

  /**
    Once a ring's `k`th node is finished, so is everything after it on the ring, if the
    search is ever to follow the rest of it.
    */
  lemma {:induction false} FrozenOnceFinished(ring: seq<Node>, k: nat, j: nat, id: Node, after: Dfs, last: Dfs)
    requires k <= j < |ring|
    requires StackIsGrey(after) && Met(after) && TakesFrom(after, last, id)
    requires IsBlack(after, ring[k]) && TakenFrom(ring, last, k)
    requires forall m :: k <= m < |ring| ==> ring[m] !in after.stack && ring[m] != id
    ensures IsBlack(after, ring[j]) && (ring[j], After(ring, j)) in after.taken
  {
    hide StackIsGrey, Met, TakesFrom, IsBlack;
    if j > k {
      FrozenOnceFinished(ring, k, j - 1, id, after, last);
      assert (ring[j - 1], After(ring, j - 1)) in last.taken;
      FrozenStep(after, last, id, ring[j - 1], ring[j]);
    }
    assert (ring[j], After(ring, j)) in last.taken;
    FrozenStep(after, last, id, ring[j], After(ring, j));
  }

  /** The stack is `base` with the ring's first `k` nodes on top, and no other node of the ring. */
  ghost predicate OnTop(s: Dfs, base: seq<Node>, ring: seq<Node>, k: nat) {
    && k <= |ring|
    && s.stack == base + ring[..k]
    && forall n :: n in base ==> n !in ring
  }

  lemma NotOnStack(s: Dfs, base: seq<Node>, ring: seq<Node>, k: nat, m: nat)
    requires OnTop(s, base, ring, k) && Distinct(ring) && k <= m < |ring|
    ensures ring[m] !in s.stack
  {
    assert forall j :: 0 <= j < k ==> ring[..k][j] == ring[j];
    assert ring[m] in ring;
  }

  /** The whole ring is on the stack when its last node meets its first: it is reported. */
  lemma ClosingReports(s: Dfs, base: seq<Node>, ring: seq<Node>)
    requires StackIsGrey(s) && ring != [] && OnTop(s, base, ring, |ring|)
    ensures ring[0] in s.stack && Key(Canonical(ring)) in Report(s, ring[0]).seen
  {
    assert ring[..|ring|] == ring;
    assert s.stack[|base|] == ring[0];
    assert s.stack[|base|..] == ring;
    assert IndexOf(s.stack, ring[0]) == |base|;
  }

  /** A search that enters a ring with the rest of it unmet, and follows it all, reports it. */
  lemma {:induction false} RingFollowed(g: Graph, ring: seq<Node>, k: nat, base: seq<Node>, s: Dfs)
    requires IsRing(g, ring) && k < |ring| && OnTop(s, base, ring, k)
    requires StackIsGrey(s) && ring[k] in Nodes(g) && ring[k] !in s.colour
    requires forall e :: e in s.taken ==> e.0 in s.colour && (e.1 in s.colour || e.1 == ring[k])
    requires TakenFrom(ring, Visit(g, ring[k], s), k)
    ensures Key(Canonical(ring)) in Visit(g, ring[k], s).seen
    decreases Left(g, s), 0
  {
    hide Nodes, Succ, StackIsGrey, Key, Canonical, IsRing, Left, Walk;
    var inside := Entered(s, ring[k]);
    EnteredIsGrey(s, ring[k]);
    LeftDrops(g, s, inside, ring[k]);
    assert inside.stack == base + ring[..k + 1];
    RingWalked(g, ring, k, base, Succ(g, ring[k]), inside);
  }

  lemma {:induction false} RingWalked(g: Graph, ring: seq<Node>, k: nat, base: seq<Node>, nexts: seq<Node>, s: Dfs)
    requires IsRing(g, ring) && k < |ring| && OnTop(s, base, ring, k + 1)
    requires StackIsGrey(s) && Met(s) && forall n :: n in nexts ==> Edge(g, ring[k], n)
    requires (ring[k], After(ring, k)) !in s.taken && ring[k] in s.colour
    requires TakenFrom(ring, Walk(g, ring[k], nexts, s), k)
    ensures Key(Canonical(ring)) in Walk(g, ring[k], nexts, s).seen
    decreases Left(g, s), 1 + |nexts|
  {
    var id, target := ring[k], After(ring, k);
    assert (id, target) in Walk(g, id, nexts, s).taken;
    if nexts != [] {
      hide Nodes, Succ, StackIsGrey, Key, Canonical, Walk, Visit, Left, Met, OnTop, IsRing, TakesFrom;
      var next := nexts[0];
      WalkUnfold(g, id, nexts, s);
      var after := Follow(g, id, next, s);
      FollowTakes(g, id, next, s);
      WalkTakes(g, id, nexts[1..], after);
      if next == target && !IsBlack(s, next) {
        RingStepped(g, ring, k, base, nexts[1..], s);
      } else {
        assert (id, target) !in after.taken;
        OnTopAgain(s, after, base, ring, k + 1);
        RingWalked(g, ring, k, base, nexts[1..], after);
      }
    }
  }

  lemma OnTopAgain(s: Dfs, t: Dfs, base: seq<Node>, ring: seq<Node>, k: nat)
    requires OnTop(s, base, ring, k) && t.stack == s.stack
    ensures OnTop(t, base, ring, k)
  {
  }

  /** The step of the ring itself: on to its next node, or back to its first. */
  lemma {:induction false} RingStepped(g: Graph, ring: seq<Node>, k: nat, base: seq<Node>, rest: seq<Node>, s: Dfs)
    requires IsRing(g, ring) && k < |ring| && OnTop(s, base, ring, k + 1)
    requires StackIsGrey(s) && Met(s) && ring[k] in s.colour && !IsBlack(s, After(ring, k))
    requires After(ring, k) in Nodes(g) && forall n :: n in rest ==> Edge(g, ring[k], n)
    requires TakesFrom(Follow(g, ring[k], After(ring, k), s),
                       Walk(g, ring[k], rest, Follow(g, ring[k], After(ring, k), s)), ring[k])
    requires Met(Follow(g, ring[k], After(ring, k), s))
    requires TakenFrom(ring, Walk(g, ring[k], rest, Follow(g, ring[k], After(ring, k), s)), k)
    ensures Key(Canonical(ring)) in Walk(g, ring[k], rest, Follow(g, ring[k], After(ring, k), s)).seen
    decreases Left(g, s), 1
  {
    hide Nodes, Succ, Key, Canonical, Walk, Visit;
    var id, target := ring[k], After(ring, k);
    var after := Follow(g, id, target, s);
    var inside := Took(s, id, target);
    var last := Walk(g, id, rest, after);
    TookIsGrey(s, id, target);
    if k + 1 == |ring| {
      ClosingReports(inside, base, ring);
      GreyIsOnStack(s, target);
      assert Key(Canonical(ring)) in after.seen;
    } else {
      NotOnStack(s, base, ring, k + 1, k + 1);
      GreyIsOnStack(s, target);
      forall m | k + 1 <= m < |ring|
        ensures ring[m] !in after.stack && ring[m] != id
      {
        NotOnStack(s, base, ring, k + 1, m);
      }
      forall j | k + 1 <= j < |ring|
        ensures (ring[j], After(ring, j)) in after.taken
      {
        FrozenOnceFinished(ring, k + 1, j, id, after, last);
      }
      RingFollowed(g, ring, k + 1, base, inside);
    }
  }

  // ------------------------------------------------------------------ the first of a ring to be met

  ghost predicate AllUnmet(ring: seq<Node>, s: Dfs) {
    forall n :: n in ring ==> n !in s.colour
  }

  lemma TakenRotated(ring: seq<Node>, at: nat, s: Dfs)
    requires at < |ring| && TakenFrom(ring, s, 0)
    ensures TakenFrom(Rotated(ring, at), s, 0)
  {
    var turned := Rotated(ring, at);
    forall j | 0 <= j < |turned|
      ensures (turned[j], After(turned, j)) in s.taken
    {
      var k := if j + at < |ring| then j + at else j + at - |ring|;
      assert (ring[k], After(ring, k)) in s.taken;
    }
  }

  lemma TakenSourceMet(ring: seq<Node>, s: Dfs)
    requires ring != [] && TakenFrom(ring, s, 0) && Met(s)
    ensures !AllUnmet(ring, s)
  {
    assert (ring[0], After(ring, 0)) in s.taken;
    assert ring[0] in ring;
  }

  /** Some node of the ring has been met and finished with: the whole ring has been followed already. */
  lemma FollowedAlready(ring: seq<Node>, at: nat, id: Node, after: Dfs, last: Dfs)
    requires at < |ring| && Distinct(ring) && TakenFrom(ring, last, 0)
    requires StackIsGrey(after) && Met(after) && TakesFrom(after, last, id)
    requires IsBlack(after, ring[at])
    requires forall n :: n in ring ==> n !in after.stack && n != id
    ensures TakenFrom(ring, after, 0)
  {
    hide StackIsGrey, Met, TakesFrom, IsBlack;
    var turned := Rotated(ring, at);
    TakenRotated(ring, at, last);
    TurnedClear(ring, at, id, after);
    TurnedFollowed(turned, id, after, last);
    var back := if at == 0 then 0 else |ring| - at;
    TakenRotated(turned, back, after);
    RotatedBack(ring, at);
  }

  lemma RotatedBack(ring: seq<Node>, at: nat)
    requires at < |ring|
    ensures Rotated(Rotated(ring, at), if at == 0 then 0 else |ring| - at) == ring
  {
  }

  lemma TurnedClear(ring: seq<Node>, at: nat, id: Node, after: Dfs)
    requires at < |ring| && forall n :: n in ring ==> n !in after.stack && n != id
    ensures Clear(Rotated(ring, at), after.stack, id)
  {
    var turned := Rotated(ring, at);
    forall m | 0 <= m < |turned|
      ensures turned[m] in ring
    {
    }
  }

  /** No node of the ring is on the stack, or is `id`. */
  ghost predicate Clear(ring: seq<Node>, stack: seq<Node>, id: Node) {
    forall m :: 0 <= m < |ring| ==> ring[m] !in stack && ring[m] != id
  }

  lemma TurnedFollowed(ring: seq<Node>, id: Node, after: Dfs, last: Dfs)
    requires ring != [] && TakenFrom(ring, last, 0)
    requires StackIsGrey(after) && Met(after) && TakesFrom(after, last, id)
    requires IsBlack(after, ring[0]) && Clear(ring, after.stack, id)
    ensures TakenFrom(ring, after, 0)
  {
    hide StackIsGrey, Met, TakesFrom, IsBlack;
    forall j | 0 <= j < |ring|
      ensures (ring[j], After(ring, j)) in after.taken
    {
      FrozenOnceFinished(ring, 0, j, id, after, last);
    }
  }

  lemma {:induction false} VisitDiscovers(g: Graph, ring: seq<Node>, id: Node, s: Dfs)
    requires IsRing(g, ring) && AllUnmet(ring, s)
    requires StackIsGrey(s) && id in Nodes(g) && id !in s.colour
    requires forall e :: e in s.taken ==> e.0 in s.colour && (e.1 in s.colour || e.1 == id)
    requires TakenFrom(ring, Visit(g, id, s), 0)
    ensures Key(Canonical(ring)) in Visit(g, id, s).seen
    decreases Left(g, s), 0
  {
    if id in ring {
      hide Nodes, Succ, Key, Canonical, Visit;
      var at := IndexOf(ring, id);
      var turned := Rotated(ring, at);
      RotatedIsRing(g, ring, at);
      CanonicalOfRotation(ring, at);
      TakenRotated(ring, at, Visit(g, id, s));
      assert forall n :: n in turned <==> n in ring;
      assert turned[..0] == [] && s.stack + [] == s.stack;
      forall n | n in s.stack
        ensures n !in turned
      {
        GreyIsOnStack(s, n);
      }
      RingFollowed(g, turned, 0, s.stack, s);
    } else {
      hide Nodes, Succ, Key, Canonical, StackIsGrey, IsRing;
      EnteredIsGrey(s, id);
      LeftDrops(g, s, Entered(s, id), id);
      WalkDiscovers(g, ring, id, Succ(g, id), Entered(s, id));
    }
  }

  lemma {:induction false} WalkDiscovers(g: Graph, ring: seq<Node>, id: Node, nexts: seq<Node>, s: Dfs)
    requires IsRing(g, ring) && AllUnmet(ring, s) && id !in ring
    requires StackIsGrey(s) && Met(s) && id in s.colour && forall n :: n in nexts ==> Edge(g, id, n)
    requires TakenFrom(ring, Walk(g, id, nexts, s), 0)
    ensures Key(Canonical(ring)) in Walk(g, id, nexts, s).seen
    decreases Left(g, s), 1 + |nexts|
  {
    if nexts == [] {
      TakenSourceMet(ring, s);
    } else {
      hide Nodes, Succ, StackIsGrey, Key, Canonical, Walk, Visit, Left, Met, IsRing, TakesFrom, TakenFrom, AllUnmet,
           Follow;
      WalkUnfold(g, id, nexts, s);
      var after := Follow(g, id, nexts[0], s);
      FollowTakes(g, id, nexts[0], s);
      WalkTakes(g, id, nexts[1..], after);
      if AllUnmet(ring, after) {
        WalkDiscovers(g, ring, id, nexts[1..], after);
      } else {
        FollowDiscovers(g, ring, id, nexts[0], s, Walk(g, id, nexts, s));
      }
    }
  }

  /** Following one import met the ring: by then it has been followed whole, and reported. */
  lemma {:induction false} FollowDiscovers(g: Graph, ring: seq<Node>, id: Node, next: Node, s: Dfs, last: Dfs)
    requires IsRing(g, ring) && AllUnmet(ring, s) && id !in ring
    requires StackIsGrey(s) && Met(s) && next in Nodes(g)
    requires Met(Follow(g, id, next, s)) && id in s.colour && TakesFrom(Follow(g, id, next, s), last, id)
    requires Advances(Follow(g, id, next, s), last)
    requires !AllUnmet(ring, Follow(g, id, next, s)) && TakenFrom(ring, last, 0)
    ensures Key(Canonical(ring)) in last.seen
    decreases Left(g, s), 1
  {
    hide Nodes, Succ, Key, Canonical, Visit;
    var after := Follow(g, id, next, s);
    var n :| n in ring && n in after.colour;
    assert next !in s.colour;
    forall x | x in ring
      ensures x !in after.stack && x != id
    {
      GreyIsOnStack(s, x);
    }
    GreyIsOnStack(after, n);
    FollowedAlready(ring, IndexOf(ring, n), id, after, last);
    TookIsGrey(s, id, next);
    VisitDiscovers(g, ring, next, Took(s, id, next));
  }

  /** Nothing finished is followed from again. */
  ghost predicate TakesNew(s: Dfs, t: Dfs) {
    forall e :: e in t.taken ==> e in s.taken || e.0 !in s.colour
  }

  lemma {:induction false} SearchTakes(g: Graph, keys: seq<Node>, s: Dfs)
    requires StackIsGrey(s) && Met(s) && forall k :: k in keys ==> k in Nodes(g)
    ensures TakesNew(s, Search(g, keys, s))
  {
    hide Nodes, Visit, StackIsGrey;
    if keys != [] {
      var after := if keys[0] in s.colour then s else Visit(g, keys[0], s);
      if keys[0] !in s.colour {
        VisitTakes(g, keys[0], s);
      }
      SearchTakes(g, keys[1..], after);
    }
  }

  /** A name longer than any on the ring. */
  function Longer(ring: seq<Node>): (name: Node)
    ensures forall n :: n in ring ==> |n| < |name|
  {
    if ring == [] then ['.']
    else
      var rest := Longer(ring[1..]);
      if |ring[0]| < |rest| then rest else ring[0] + ['.']
  }

  /** One key's search met the ring, and nothing of it is left to follow. */
  lemma KeyDiscovers(g: Graph, ring: seq<Node>, id: Node, s: Dfs, last: Dfs)
    requires IsRing(g, ring) && AllUnmet(ring, s) && StackIsGrey(s) && s.stack == [] && Met(s)
    requires id in Nodes(g) && id !in s.colour
    requires Met(Visit(g, id, s)) && TakesNew(Visit(g, id, s), last) && TakenFrom(ring, last, 0)
    requires !AllUnmet(ring, Visit(g, id, s))
    ensures Key(Canonical(ring)) in Visit(g, id, s).seen
  {
    hide Nodes, Visit, StackIsGrey, Key, Canonical;
    var after := Visit(g, id, s);
    var n :| n in ring && n in after.colour;
    NoGreyLeft(after, n);
    FollowedAlready(ring, IndexOf(ring, n), Longer(ring), after, last);
    VisitDiscovers(g, ring, id, s);
  }

  lemma {:induction false} SearchDiscovers(g: Graph, ring: seq<Node>, keys: seq<Node>, s: Dfs)
    requires IsRing(g, ring) && AllUnmet(ring, s) && StackIsGrey(s) && s.stack == [] && Met(s)
    requires forall k :: k in keys ==> k in Nodes(g)
    requires TakenFrom(ring, Search(g, keys, s), 0)
    ensures Key(Canonical(ring)) in Search(g, keys, s).seen
  {
    hide Nodes, Visit, StackIsGrey, Key, Canonical, Met, AllUnmet, IsRing, TakenFrom, TakesFrom, TakesNew;
    if keys == [] {
      RingIsDistinct(g, ring);
      TakenSourceMet(ring, s);
    } else if keys[0] in s.colour {
      SearchDiscovers(g, ring, keys[1..], s);
    } else {
      var after := Visit(g, keys[0], s);
      MetAllows(s, keys[0]);
      VisitTakes(g, keys[0], s);
      if AllUnmet(ring, after) {
        SearchDiscovers(g, ring, keys[1..], after);
      } else {
        SearchTakes(g, keys[1..], after);
        KeyDiscovers(g, ring, keys[0], s, Search(g, keys, s));
      }
    }
  }

  lemma MetAllows(s: Dfs, id: Node)
    requires Met(s)
    ensures forall e :: e in s.taken ==> e.0 in s.colour && (e.1 in s.colour || e.1 == id)
  {
  }

  // ------------------------------------------------------------------ what is reported was followed

  /** Every step down the stack, and every step of a reported ring, was followed. */
  ghost predicate Followed(s: Dfs) {
    && (forall k :: 0 <= k < |s.stack| - 1 ==> (s.stack[k], s.stack[k + 1]) in s.taken)
    && forall c :: c in s.cycles ==> TakenFrom(c, s, 0)
  }

  lemma ReportIsFollowed(s: Dfs, next: Node)
    requires StackIsGrey(s) && Followed(s) && next in s.stack && (s.stack[|s.stack| - 1], next) in s.taken
    ensures Followed(Report(s, next))
  {
    var at := IndexOf(s.stack, next);
    var ring := s.stack[at..];
    forall j | 0 <= j < |ring|
      ensures (ring[j], After(ring, j)) in s.taken
    {
      if j + 1 < |ring| {
        assert (s.stack[at + j], s.stack[at + j + 1]) in s.taken;
      }
    }
    TakenRotated(ring, Pivot(ring), s);
    var t := Report(s, next);
    hide StackIsGrey, Key;
    forall c | c in t.cycles
      ensures TakenFrom(c, t, 0)
    {
      assert c in s.cycles || c == Canonical(ring);
    }
  }

  lemma TookIsFollowed(s: Dfs, id: Node, next: Node)
    requires Followed(s)
    ensures Followed(Took(s, id, next))
  {
  }

  lemma {:induction false} VisitIsFollowed(g: Graph, id: Node, s: Dfs)
    requires StackIsGrey(s) && id in Nodes(g) && id !in s.colour
    requires Followed(s) && (s.stack != [] ==> (s.stack[|s.stack| - 1], id) in s.taken)
    ensures Followed(Visit(g, id, s))
    decreases Left(g, s), 0
  {
    hide *;
    VisitUnfold(g, id, s);
    EnteredIsFollowed(s, id);
    WalkIsFollowed(g, id, Succ(g, id), Entered(s, id));
    ExitedIsFollowed(Walk(g, id, Succ(g, id), Entered(s, id)), id);
  }

  lemma EnteredIsFollowed(s: Dfs, id: Node)
    requires Followed(s) && (s.stack != [] ==> (s.stack[|s.stack| - 1], id) in s.taken)
    ensures Followed(Entered(s, id))
  {
  }

  lemma ExitedIsFollowed(s: Dfs, id: Node)
    requires Followed(s) && s.stack != []
    ensures Followed(Exited(s, id))
  {
  }

  lemma {:induction false} FollowIsFollowed(g: Graph, id: Node, next: Node, s: Dfs)
    requires StackIsGrey(s) && next in Nodes(g)
    requires Followed(s) && s.stack != [] && s.stack[|s.stack| - 1] == id
    ensures Followed(Follow(g, id, next, s))
    decreases Left(g, s), 1
  {
    hide Nodes, Succ, Followed, StackIsGrey, Visit, Report;
    TookIsFollowed(s, id, next);
    TookIsGrey(s, id, next);
    if next !in s.colour {
      VisitIsFollowed(g, next, Took(s, id, next));
    } else if s.colour[next].Grey? {
      GreyIsOnStack(s, next);
      ReportIsFollowed(Took(s, id, next), next);
    }
  }

  lemma {:induction false} WalkIsFollowed(g: Graph, id: Node, nexts: seq<Node>, s: Dfs)
    requires StackIsGrey(s) && forall n :: n in nexts ==> Edge(g, id, n)
    requires Followed(s) && s.stack != [] && s.stack[|s.stack| - 1] == id
    ensures Followed(Walk(g, id, nexts, s))
    decreases Left(g, s), 1 + |nexts|
  {
    hide *;
    if nexts == [] {
      WalkNothing(g, id, s);
    } else {
      WalkUnfold(g, id, nexts, s);
      FollowIsFollowed(g, id, nexts[0], s);
      WalkIsFollowed(g, id, nexts[1..], Follow(g, id, nexts[0], s));
    }
  }

  lemma {:induction false} SearchIsFollowed(g: Graph, keys: seq<Node>, s: Dfs)
    requires StackIsGrey(s) && forall k :: k in keys ==> k in Nodes(g)
    requires Followed(s) && s.stack == []
    ensures Followed(Search(g, keys, s))
  {
    hide Nodes, Followed, StackIsGrey, Visit;
    if keys != [] {
      if keys[0] !in s.colour {
        VisitIsFollowed(g, keys[0], s);
      }
      SearchIsFollowed(g, keys[1..], if keys[0] in s.colour then s else Visit(g, keys[0], s));
    }
  }

  // ------------------------------------------------------------------ keys tell rings apart

  /** No name holds the character the keys are joined with. */
  ghost predicate Plain(nodes: seq<Node>) {
    forall n :: n in nodes ==> '>' !in n
  }

  lemma HeadOfJoin(a: string, x: string, b: string, y: string)
    requires '>' !in a && '>' !in b && a + ">" + x == b + ">" + y
    ensures a == b && x == y
  {
    assert (a + ">" + x)[|a|] == '>' && (b + ">" + y)[|b|] == '>';
    assert forall k :: 0 <= k < |b| ==> (a + ">" + x)[k] == b[k];
    assert forall k :: 0 <= k < |a| ==> (b + ">" + y)[k] == a[k];
    assert |a| == |b|;
    assert a == (a + ">" + x)[..|a|] && b == (b + ">" + y)[..|b|];
    assert x == (a + ">" + x)[|a| + 1..] && y == (b + ">" + y)[|b| + 1..];
  }

  lemma KeyOfOne(a: seq<Node>)
    requires a != [] && Plain(a) && '>' !in Key(a)
    ensures |a| == 1
  {
    if |a| > 1 {
      KeyHasMark(a);
    }
  }

  lemma KeyHasMark(a: seq<Node>)
    requires |a| > 1
    ensures '>' in Key(a)
  {
    assert Key(a)[|a[0]|] == '>';
  }

  lemma {:induction false} KeyIsInjective(a: seq<Node>, b: seq<Node>)
    requires a != [] && b != [] && Plain(a) && Plain(b) && Key(a) == Key(b)
    ensures a == b
  {
    assert a == [a[0]] + a[1..] && b == [b[0]] + b[1..];
    if |a| > 1 && |b| > 1 {
      HeadOfJoin(a[0], Key(a[1..]), b[0], Key(b[1..]));
      KeyIsInjective(a[1..], b[1..]);
    } else if |a| == 1 {
      KeyOfOne(b);
    } else {
      KeyOfOne(a);
    }
  }

  ghost predicate PlainNames(g: Graph) {
    forall n :: n in Nodes(g) ==> '>' !in n
  }

  lemma RingIsPlain(g: Graph, ring: seq<Node>)
    requires PlainNames(g) && IsRing(g, ring)
    ensures Plain(ring)
  {
    forall n | n in ring
      ensures '>' !in n
    {
      var k := IndexOf(ring, n);
      assert n in Nodes(g) by {
        if k < |ring| - 1 {
          assert Edge(g, ring[k], ring[k + 1]);
        }
      }
    }
  }

  lemma RotatedIsCanonical(ring: seq<Node>)
    requires ring != []
    ensures Canonical(ring) == Rotated(ring, Pivot(ring))
  {
  }

  lemma ReportedWasFollowed(g: Graph, ring: seq<Node>)
    requires IsRing(g, ring) && Canonical(ring) in Found(g).cycles
    ensures TakenFrom(ring, Found(g), 0)
  {
    SearchIsFollowed(g, g.keys, START);
    hide Search, IsRing;
    RotatedBack(ring, Pivot(ring));
    TakenRotated(Canonical(ring), if Pivot(ring) == 0 then 0 else |ring| - Pivot(ring), Found(g));
  }

  lemma FollowedIsReported(g: Graph, ring: seq<Node>)
    requires PlainNames(g) && IsRing(g, ring) && TakenFrom(ring, Found(g), 0)
    ensures Canonical(ring) in Found(g).cycles
  {
    RingIsDistinct(g, ring);
    FoundIsSound(g);
    SearchDiscovers(g, ring, g.keys, START);
    hide Search, Found, IsRing, Key, PlainNames, Canonical;
    var c :| c in Found(g).cycles && Key(c) == Key(Canonical(ring));
    RotatedIsRing(g, ring, Pivot(ring));
    RotatedIsCanonical(ring);
    RingIsPlain(g, c);
    RingIsPlain(g, Canonical(ring));
    RingIsDistinct(g, c);
    RingIsDistinct(g, Canonical(ring));
    KeyIsInjective(c, Canonical(ring));
  }

  /**
    A ring is reported exactly when the search followed each of its imports, that is when
    none of them led, as the search looked at it, to a module it had finished with.
    */
  lemma RingReportedIffFollowed(g: Graph, ring: seq<Node>)
    requires PlainNames(g) && IsRing(g, ring)
    ensures Canonical(ring) in Found(g).cycles <==> TakenFrom(ring, Found(g), 0)
  {
    hide Found, Canonical, TakenFrom, PlainNames;
    if Canonical(ring) in Found(g).cycles {
      ReportedWasFollowed(g, ring);
    }
    if TakenFrom(ring, Found(g), 0) {
      FollowedIsReported(g, ring);
    }
  }

  // ------------------------------------------------------------------ every ring meets a reported one

  /** The ring goes from `a` straight on to `b`. */
  ghost predicate Goes(ring: seq<Node>, a: Node, b: Node) {
    exists j :: 0 <= j < |ring| && ring[j] == a && After(ring, j) == b
  }

  ghost predicate ShareImport(one: seq<Node>, other: seq<Node>) {
    exists a, b :: Goes(one, a, b) && Goes(other, a, b)
  }

  /** Some ring reported goes from `a` to `b`. */
  ghost predicate ReportedStep(s: Dfs, a: Node, b: Node) {
    exists c :: c in s.cycles && Goes(c, a, b)
  }

  /** Some ring reported has an import in common with `ring`. */
  ghost predicate Shown(s: Dfs, ring: seq<Node>) {
    exists c :: c in s.cycles && ShareImport(c, ring)
  }

  /** The import was followed, or every ring through it has an import in common with one reported. */
  ghost predicate Accounted(g: Graph, s: Dfs, a: Node, b: Node) {
    (a, b) in s.taken || forall ring :: IsRing(g, ring) && Goes(ring, a, b) ==> Shown(s, ring)
  }

  /** An import looked at: what it leads to has been met, and if it is on the stack a ring was reported. */
  ghost predicate Dealt(g: Graph, s: Dfs, a: Node, b: Node) {
    && b in s.colour
    && (IsGrey(s, b) ==> ReportedStep(s, a, b))
    && Accounted(g, s, a, b)
  }

  /** Every import of a finished module has been looked at. */
  ghost predicate Settled(g: Graph, s: Dfs) {
    forall a, b :: IsBlack(s, a) && Edge(g, a, b) ==> Dealt(g, s, a, b)
  }

  lemma GoesRotated(ring: seq<Node>, at: nat, a: Node, b: Node)
    requires at < |ring| && Goes(ring, a, b)
    ensures Goes(Rotated(ring, at), a, b)
  {
    var turned := Rotated(ring, at);
    var j :| 0 <= j < |ring| && ring[j] == a && After(ring, j) == b;
    var k := if j >= at then j - at else j - at + |ring|;
    assert turned[k] == a && After(turned, k) == b;
  }

  lemma GoesRotatedBack(ring: seq<Node>, at: nat, a: Node, b: Node)
    requires at < |ring| && Goes(Rotated(ring, at), a, b)
    ensures Goes(ring, a, b)
  {
    var back := if at == 0 then 0 else |ring| - at;
    GoesRotated(Rotated(ring, at), back, a, b);
    RotatedBack(ring, at);
  }

  /** What has been said of an import goes on holding while the stack is as it was. */
  lemma DealtLater(g: Graph, s: Dfs, t: Dfs, a: Node, b: Node)
    requires Dealt(g, s, a, b) && StackIsGrey(s) && StackIsGrey(t) && Advances(s, t)
    ensures Dealt(g, t, a, b)
  {
    hide IsRing, Goes, ShareImport, Edge, Distinct;
    assert forall c :: c in s.cycles ==> c in t.cycles;
    assert IsGrey(t, b) ==> IsGrey(s, b) by {
      GreyIsOnStack(s, b);
      GreyIsOnStack(t, b);
    }
    assert forall ring :: Shown(s, ring) ==> Shown(t, ring);
  }

  lemma ReportSettles(g: Graph, s: Dfs, id: Node, next: Node)
    requires PlainNames(g) && Sound(g, s) && StackIsGrey(s) && next in s.stack
    requires s.stack[|s.stack| - 1] == id && Edge(g, id, next)
    ensures ReportedStep(Report(s, next), id, next)
  {
    var at := IndexOf(s.stack, next);
    var ring := s.stack[at..];
    var c := Canonical(ring);
    StackTailIsRing(g, s.stack, at);
    assert Goes(ring, id, next) by {
      assert ring[|ring| - 1] == id && After(ring, |ring| - 1) == next;
    }
    GoesRotated(ring, Pivot(ring), id, next);
    RotatedIsRing(g, ring, Pivot(ring));
    hide IsRing, Key, Canonical, Goes, StackIsGrey, PlainNames;
    if Key(c) in s.seen {
      ReportedUnderKey(g, s, c);
    } else {
      assert Report(s, next).cycles == s.cycles + [c];
    }
  }

  /** With plain names a key seen is the key of this very ring. */
  lemma ReportedUnderKey(g: Graph, s: Dfs, c: seq<Node>)
    requires PlainNames(g) && Sound(g, s) && IsRing(g, c) && Key(c) in s.seen
    ensures c in s.cycles
  {
    hide IsRing, Key, PlainNames;
    var d :| d in s.cycles && Key(d) == Key(c);
    RingIsPlain(g, c);
    RingIsPlain(g, d);
    RingIsDistinct(g, c);
    RingIsDistinct(g, d);
    KeyIsInjective(c, d);
  }

  /** From a finished module of a ring whose last module is not, one comes to an import already reported. */
  lemma {:induction false} ComesToReported(g: Graph, s: Dfs, ring: seq<Node>, k: nat)
    requires Settled(g, s) && IsRing(g, ring) && k < |ring|
    requires IsBlack(s, ring[k]) && !IsBlack(s, ring[|ring| - 1])
    ensures Shown(s, ring)
    decreases |ring| - k
  {
    hide Edge, Accounted;
    var a, b := ring[k], ring[k + 1];
    assert Edge(g, a, b);
    assert Dealt(g, s, a, b);
    if IsBlack(s, b) {
      ComesToReported(g, s, ring, k + 1);
    } else {
      var c :| c in s.cycles && Goes(c, a, b);
      assert Goes(ring, a, b) by {
        assert After(ring, k) == b;
      }
      assert ShareImport(c, ring);
    }
  }

  /** An import passed over, from the module being visited to a finished one. */
  lemma PassedOverIsShown(g: Graph, s: Dfs, ring: seq<Node>, id: Node, next: Node)
    requires Settled(g, s) && IsRing(g, ring) && Goes(ring, id, next)
    requires IsBlack(s, next) && !IsBlack(s, id)
    ensures Shown(s, ring)
  {
    hide Settled, IsBlack;
    var j :| 0 <= j < |ring| && ring[j] == id && After(ring, j) == next;
    var at := if j + 1 < |ring| then j + 1 else 0;
    var turned := Rotated(ring, at);
    RotatedIsRing(g, ring, at);
    assert turned[0] == next && turned[|ring| - 1] == id;
    ComesToReported(g, s, turned, 0);
    hide IsRing, Goes;
    var c :| c in s.cycles && ShareImport(c, turned);
    var a, b :| Goes(c, a, b) && Goes(turned, a, b);
    GoesRotatedBack(ring, at, a, b);
    assert ShareImport(c, ring);
  }

  lemma TookSettles(g: Graph, s: Dfs, id: Node, next: Node)
    requires Settled(g, s)
    ensures Settled(g, Took(s, id, next))
  {
    hide IsRing, Goes, ShareImport, Edge;
    var t := Took(s, id, next);
    forall a, b | IsBlack(t, a) && Edge(g, a, b)
      ensures Dealt(g, t, a, b)
    {
      assert IsBlack(s, a);
      assert Dealt(g, s, a, b);
      assert forall ring :: Shown(s, ring) ==> Shown(t, ring);
    }
  }

  lemma EnteredSettles(g: Graph, s: Dfs, id: Node)
    requires Settled(g, s) && id !in s.colour
    ensures Settled(g, Entered(s, id))
  {
    hide IsRing, Goes, ShareImport, Edge;
    var t := Entered(s, id);
    forall a, b | IsBlack(t, a) && Edge(g, a, b)
      ensures Dealt(g, t, a, b)
    {
      assert IsBlack(s, a);
      assert Dealt(g, s, a, b);
      assert forall ring :: Shown(s, ring) ==> Shown(t, ring);
    }
  }

  /** All of a module's imports have been looked at: it may be finished with. */
  ghost predicate AllDealt(g: Graph, s: Dfs, id: Node, nexts: seq<Node>) {
    forall n :: n in nexts ==> Dealt(g, s, id, n)
  }

  lemma ExitedSettles(g: Graph, s: Dfs, id: Node)
    requires Settled(g, s) && s.stack != [] && AllDealt(g, s, id, Succ(g, id))
    ensures Settled(g, Exited(s, id))
  {
    hide IsRing, Goes, ShareImport, Succ;
    var t := Exited(s, id);
    forall a, b | IsBlack(t, a) && Edge(g, a, b)
      ensures Dealt(g, t, a, b)
    {
      assert IsBlack(s, a) || a == id;
      assert Dealt(g, s, a, b);
      assert forall ring :: Shown(s, ring) ==> Shown(t, ring);
    }
  }

  lemma AdvancedSettles(g: Graph, s: Dfs, t: Dfs)
    requires Settled(g, s) && StackIsGrey(s) && StackIsGrey(t) && Advances(s, t)
    requires forall n :: IsBlack(t, n) ==> IsBlack(s, n)
    ensures Settled(g, t)
  {
    hide Dealt, Edge, StackIsGrey, Advances;
    forall a, b | IsBlack(t, a) && Edge(g, a, b)
      ensures Dealt(g, t, a, b)
    {
      DealtLater(g, s, t, a, b);
    }
  }

  lemma NothingDealt(g: Graph, s: Dfs, id: Node)
    ensures AllDealt(g, s, id, [])
  {
  }

  lemma OneMoreDealt(g: Graph, s: Dfs, t: Dfs, id: Node, nexts: seq<Node>)
    requires nexts != [] && Dealt(g, s, id, nexts[0]) && AllDealt(g, t, id, nexts[1..])
    requires StackIsGrey(s) && StackIsGrey(t) && Advances(s, t)
    ensures AllDealt(g, t, id, nexts)
  {
    DealtLater(g, s, t, id, nexts[0]);
    hide Dealt, StackIsGrey, Advances;
    assert nexts == [nexts[0]] + nexts[1..];
  }

  lemma {:induction false} VisitSettles(g: Graph, id: Node, s: Dfs)
    requires PlainNames(g) && StackIsGrey(s) && id in Nodes(g) && id !in s.colour
    requires Sound(g, s) && (s.stack != [] ==> Edge(g, s.stack[|s.stack| - 1], id))
    requires Settled(g, s)
    ensures Settled(g, Visit(g, id, s))
    decreases Left(g, s), 0
  {
    hide *;
    VisitUnfold(g, id, s);
    EnteredIsSound(g, s, id);
    EnteredSettles(g, s, id);
    WalkSettles(g, id, Succ(g, id), Entered(s, id));
    ExitedSettles(g, Walk(g, id, Succ(g, id), Entered(s, id)), id);
  }

  lemma {:induction false} FollowSettles(g: Graph, id: Node, next: Node, s: Dfs)
    requires PlainNames(g) && StackIsGrey(s) && next in Nodes(g) && Edge(g, id, next)
    requires Sound(g, s) && s.stack != [] && s.stack[|s.stack| - 1] == id
    requires Settled(g, s)
    ensures Settled(g, Follow(g, id, next, s)) && Dealt(g, Follow(g, id, next, s), id, next)
    decreases Left(g, s), 1
  {
    hide Nodes, Succ, Sound, StackIsGrey, Settled, PlainNames, Edge;
    var took := Took(s, id, next);
    TookIsSound(g, s, id, next);
    TookSettles(g, s, id, next);
    GreyIsOnStack(s, id);
    if next !in s.colour {
      VisitSettles(g, next, took);
    } else if s.colour[next].Grey? {
      GreyIsOnStack(s, next);
      var after := Report(took, next);
      ReportKeepsStack(took, next);
      AdvancedSettles(g, took, after);
      ReportSettles(g, took, id, next);
    } else {
      forall ring | IsRing(g, ring) && Goes(ring, id, next)
        ensures Shown(s, ring)
      {
        PassedOverIsShown(g, s, ring, id, next);
      }
    }
  }

  lemma ReportKeepsStack(s: Dfs, next: Node)
    requires StackIsGrey(s) && next in s.stack
    ensures StackIsGrey(Report(s, next)) && Advances(s, Report(s, next)) && Report(s, next).colour == s.colour
  {
  }

  lemma {:induction false} WalkSettles(g: Graph, id: Node, nexts: seq<Node>, s: Dfs)
    requires PlainNames(g) && StackIsGrey(s) && forall n :: n in nexts ==> Edge(g, id, n)
    requires Sound(g, s) && s.stack != [] && s.stack[|s.stack| - 1] == id
    requires Settled(g, s)
    ensures Settled(g, Walk(g, id, nexts, s)) && AllDealt(g, Walk(g, id, nexts, s), id, nexts)
    decreases Left(g, s), 1 + |nexts|
  {
    hide *;
    if nexts == [] {
      WalkNothing(g, id, s);
      NothingDealt(g, s, id);
    } else {
      WalkUnfold(g, id, nexts, s);
      var after := Follow(g, id, nexts[0], s);
      FollowIsSound(g, id, nexts[0], s);
      FollowSettles(g, id, nexts[0], s);
      WalkSettles(g, id, nexts[1..], after);
      OneMoreDealt(g, after, Walk(g, id, nexts, s), id, nexts);
    }
  }

  lemma {:induction false} SearchSettles(g: Graph, keys: seq<Node>, s: Dfs)
    requires PlainNames(g) && StackIsGrey(s) && forall k :: k in keys ==> k in Nodes(g)
    requires Sound(g, s) && s.stack == [] && Settled(g, s)
    ensures Settled(g, Search(g, keys, s))
    ensures forall k :: k in keys ==> IsBlack(Search(g, keys, s), k)
  {
    hide Nodes, Sound, StackIsGrey, Settled, PlainNames, Visit;
    if keys != [] {
      if keys[0] !in s.colour {
        VisitIsSound(g, keys[0], s);
        VisitSettles(g, keys[0], s);
      } else {
        NoGreyLeft(s, keys[0]);
      }
      SearchSettles(g, keys[1..], if keys[0] in s.colour then s else Visit(g, keys[0], s));
      assert keys == [keys[0]] + keys[1..];
    }
  }

  lemma StartIsSettled(g: Graph)
    ensures Settled(g, START)
  {
  }

  lemma {:induction false} RingHasUntaken(ring: seq<Node>, s: Dfs, k: nat) returns (j: nat)
    requires k <= |ring| && !TakenFrom(ring, s, k)
    ensures k <= j < |ring| && (ring[j], After(ring, j)) !in s.taken
  {
    j :| k <= j < |ring| && (ring[j], After(ring, j)) !in s.taken;
  }

  lemma RingStep(g: Graph, ring: seq<Node>, j: nat)
    requires IsRing(g, ring) && j < |ring|
    ensures Edge(g, ring[j], After(ring, j)) && Goes(ring, ring[j], After(ring, j))
  {
  }

  /** No ring goes wholly unreported: each has an import in common with one that is. */
  lemma EveryRingIsShown(g: Graph, ring: seq<Node>)
    requires WellFormed(g) && PlainNames(g) && IsRing(g, ring)
    ensures exists c :: c in Found(g).cycles && IsRing(g, c) && ShareImport(c, ring)
  {
    hide IsRing, Goes, PlainNames, Search, Settled, Key, Canonical, Pivot, ShareImport;
    var t := Found(g);
    StartIsSound(g);
    FoundIsSound(g);
    StartIsSettled(g);
    SearchSettles(g, g.keys, START);
    RingIsDistinct(g, ring);
    if TakenFrom(ring, t, 0) {
      RingReportedIffFollowed(g, ring);
      SharesWithCanonical(g, ring);
    } else {
      var j := RingHasUntaken(ring, t, 0);
      RingStep(g, ring, j);
      UntakenIsShown(g, t, ring, j);
    }
  }

  lemma SharesWithCanonical(g: Graph, ring: seq<Node>)
    requires IsRing(g, ring)
    ensures IsRing(g, Canonical(ring)) && ShareImport(Canonical(ring), ring)
  {
    RotatedIsRing(g, ring, Pivot(ring));
    RingStep(g, ring, 0);
    GoesRotated(ring, Pivot(ring), ring[0], After(ring, 0));
  }

  lemma UntakenIsShown(g: Graph, t: Dfs, ring: seq<Node>, j: nat)
    requires WellFormed(g) && Settled(g, t) && IsRing(g, ring) && j < |ring|
    requires (ring[j], After(ring, j)) !in t.taken && forall k :: k in g.keys ==> IsBlack(t, k)
    ensures Shown(t, ring)
  {
    RingStep(g, ring, j);
    hide IsRing, Goes, Shown;
    assert ring[j] in g.edges;
    assert Dealt(g, t, ring[j], After(ring, j));
  }

  // ------------------------------------------------------------------ every ring in every order

  /** No import lies on two rings. */
  ghost predicate NoImportShared(g: Graph) {
    forall one, other :: IsRing(g, one) && IsRing(g, other) && ShareImport(one, other) ==>
      Canonical(one) == Canonical(other)
  }

  ghost predicate ReportsEveryRing(g: Graph) {
    forall ring :: IsRing(g, ring) ==> Canonical(ring) in Found(g).cycles
  }

  /** The same modules and imports, the map's keys and each list of imports in any order. */
  ghost predicate Reordered(g: Graph, h: Graph) {
    && multiset(h.keys) == multiset(g.keys)
    && h.edges.Keys == g.edges.Keys
    && forall n :: n in g.edges ==> multiset(h.edges[n]) == multiset(g.edges[n])
  }

  lemma ReorderedEdges(g: Graph, h: Graph)
    requires Reordered(g, h)
    ensures forall a, b :: Edge(h, a, b) <==> Edge(g, a, b)
    ensures forall k :: k in h.keys <==> k in g.keys
  {
    forall a, b
      ensures Edge(h, a, b) <==> Edge(g, a, b)
    {
      if a in g.edges {
        assert b in multiset(h.edges[a]) <==> b in multiset(g.edges[a]);
      }
    }
    forall k
      ensures k in h.keys <==> k in g.keys
    {
      assert k in multiset(h.keys) <==> k in multiset(g.keys);
    }
  }

  lemma ReorderedRings(g: Graph, h: Graph, ring: seq<Node>)
    requires Reordered(g, h)
    ensures IsRing(h, ring) <==> IsRing(g, ring)
  {
    hide Reordered, Edge;
    ReorderedEdges(g, h);
  }

  lemma ReorderedIsPlain(g: Graph, h: Graph)
    requires Reordered(g, h) && PlainNames(g) && WellFormed(g)
    ensures PlainNames(h) && WellFormed(h)
  {
    ReorderedEdges(g, h);
    forall n | n in Nodes(h)
      ensures n in Nodes(g)
    {
      if n !in h.keys && n !in h.edges {
        var a :| a in h.edges && n in h.edges[a];
        assert Edge(h, a, n);
        assert Edge(g, a, n);
      }
    }
  }

  /** When no import lies on two rings every one of them is reported. */
  lemma ApartIsReported(g: Graph, ring: seq<Node>)
    requires WellFormed(g) && PlainNames(g) && NoImportShared(g) && IsRing(g, ring)
    ensures Canonical(ring) in Found(g).cycles
  {
    hide IsRing, PlainNames, Found, ShareImport, Canonical, Pivot, Sound;
    EveryRingIsShown(g, ring);
    var c :| c in Found(g).cycles && IsRing(g, c) && ShareImport(c, ring);
    FoundIsSound(g);
    ReportedIsCanonical(g, c);
  }

  lemma ReportedIsCanonical(g: Graph, c: seq<Node>)
    requires c in Found(g).cycles && Sound(g, Found(g))
    ensures Canonical(c) == c
  {
    hide Found;
    RingIsDistinct(g, c);
    CanonicalIsItself(c);
  }

  // What is hidden: `w` entered first and its import `x` followed first, the module `p` on the
  // way from `x` back to `w` is finished with before `w` gets to its next import.

  /** An import is followed only into what is not finished yet. */
  ghost predicate TakesUnfinished(s: Dfs, t: Dfs) {
    forall e :: e in t.taken ==> e in s.taken || !IsBlack(s, e.1)
  }

  lemma UnfinishedThrough(s: Dfs, t: Dfs, u: Dfs)
    requires TakesUnfinished(s, t) && TakesUnfinished(t, u) && forall n :: IsBlack(s, n) ==> IsBlack(t, n)
    ensures TakesUnfinished(s, u)
  {
  }

  lemma {:induction false} VisitTakesUnfinished(g: Graph, id: Node, s: Dfs)
    requires StackIsGrey(s) && id in Nodes(g) && id !in s.colour
    ensures TakesUnfinished(s, Visit(g, id, s))
    decreases Left(g, s), 0
  {
    hide Nodes, Succ, StackIsGrey, Walk, Visit, Left;
    VisitUnfold(g, id, s);
    EnteredIsGrey(s, id);
    WalkTakesUnfinished(g, id, Succ(g, id), Entered(s, id));
  }

  lemma {:induction false} FollowTakesUnfinished(g: Graph, id: Node, next: Node, s: Dfs)
    requires StackIsGrey(s) && next in Nodes(g)
    ensures TakesUnfinished(s, Follow(g, id, next, s))
    decreases Left(g, s), 1
  {
    hide Nodes, Succ, StackIsGrey, Visit;
    if next !in s.colour {
      TookIsGrey(s, id, next);
      VisitTakesUnfinished(g, next, Took(s, id, next));
    }
  }

  lemma {:induction false} WalkTakesUnfinished(g: Graph, id: Node, nexts: seq<Node>, s: Dfs)
    requires StackIsGrey(s) && forall n :: n in nexts ==> Edge(g, id, n)
    ensures TakesUnfinished(s, Walk(g, id, nexts, s))
    decreases Left(g, s), 1 + |nexts|
  {
    if nexts != [] {
      hide Nodes, Succ, StackIsGrey, Follow, Visit, Walk, Left;
      WalkUnfold(g, id, nexts, s);
      var after := Follow(g, id, nexts[0], s);
      FollowTakesUnfinished(g, id, nexts[0], s);
      WalkTakesUnfinished(g, id, nexts[1..], after);
      UnfinishedThrough(s, after, Walk(g, id, nexts, s));
    }
  }

  lemma {:induction false} SearchTakesUnfinished(g: Graph, keys: seq<Node>, s: Dfs)
    requires StackIsGrey(s) && forall k :: k in keys ==> k in Nodes(g)
    ensures TakesUnfinished(s, Search(g, keys, s))
  {
    hide Nodes, Visit, StackIsGrey;
    if keys != [] {
      var after := if keys[0] in s.colour then s else Visit(g, keys[0], s);
      if keys[0] !in s.colour {
        VisitTakesUnfinished(g, keys[0], s);
      }
      SearchTakesUnfinished(g, keys[1..], after);
      UnfinishedThrough(s, after, Search(g, keys, s));
    }
  }

  /** What the search holds once it has entered `w` and followed its first import `x`. */
  ghost function FirstFollowed(g: Graph, w: Node, x: Node): Dfs
    requires w in Nodes(g) && x in Nodes(g)
  {
    EnteredIsGrey(START, w);
    Follow(g, w, x, Entered(START, w))
  }

  lemma AfterFirst(g: Graph, w: Node, x: Node)
    requires PlainNames(g) && g.keys != [] && g.keys[0] == w && w != x
    requires w in Nodes(g) && x in Nodes(g) && Succ(g, w) != [] && Succ(g, w)[0] == x
    ensures var s := FirstFollowed(g, w, x);
      && StackIsGrey(s) && s.stack == [w] && Met(s) && Settled(g, s) && IsBlack(s, x)
      && (forall e :: e in s.taken && e.0 == w ==> e.1 == x)
      && TakesUnfinished(s, Found(g))
  {
    hide Nodes, Succ, StackIsGrey, Walk, Visit, Left, Settled, Sound, PlainNames, Follow;
    StartIsSound(g);
    StartIsSettled(g);
    VisitUnfold(g, w, START);
    var inside := Entered(START, w);
    EnteredIsSound(g, START, w);
    EnteredSettles(g, START, w);
    var s := FirstFollowed(g, w, x);
    var nexts := Succ(g, w);
    assert inside.stack == [w];
    assert Edge(g, w, x);
    FollowSettles(g, w, x, inside);
    FollowTakes(g, w, x, inside);
    FollowedIsFinished(g, w, x, inside);
    WalkUnfold(g, w, nexts, inside);
    WalkTakesUnfinished(g, w, nexts[1..], s);
    var whole := Visit(g, w, START);
    assert TakesUnfinished(s, whole);
    KeysAreNodes(g);
    assert forall k :: k in g.keys[1..] ==> k in g.keys;
    SearchTakesUnfinished(g, g.keys[1..], whole);
    assert forall n :: IsBlack(s, n) ==> IsBlack(whole, n);
    UnfinishedThrough(s, whole, Found(g));
  }

  lemma FollowedIsFinished(g: Graph, id: Node, next: Node, s: Dfs)
    requires StackIsGrey(s) && next in Nodes(g) && next !in s.colour
    ensures IsBlack(Follow(g, id, next, s), next)
  {
    hide Nodes, Visit, StackIsGrey;
    TookIsGrey(s, id, next);
  }

  /** What the first import leads to is finished with, as far as the ring goes before it comes back to `w`. */
  lemma {:induction false} FinishedAlong(g: Graph, s: Dfs, ring: seq<Node>, k: nat)
    requires Settled(g, s) && StackIsGrey(s) && IsRing(g, ring) && 1 <= k < |ring|
    requires s.stack == [ring[0]] && IsBlack(s, ring[1])
    ensures IsBlack(s, ring[k])
  {
    if k > 1 {
      FinishedAlong(g, s, ring, k - 1);
      hide Accounted, ReportedStep, StackIsGrey;
      assert Edge(g, ring[k - 1], ring[k]);
      assert Dealt(g, s, ring[k - 1], ring[k]);
      GreyIsOnStack(s, ring[k]);
    }
  }

  /** A ring that leaves `w` by another import meets a finished module, and is not followed into it. */
  lemma {:induction false} CutBefore(s: Dfs, t: Dfs, ring: seq<Node>, x: Node, k: nat)
    requires Distinct(ring) && 1 <= k < |ring| && ring[1] != x
    requires StackIsGrey(s) && s.stack == [ring[0]] && Met(s) && TakesUnfinished(s, t)
    requires forall e :: e in s.taken && e.0 == ring[0] ==> e.1 == x
    requires IsBlack(s, ring[k])
    ensures !TakenFrom(ring, t, 0)
  {
    if k > 1 && IsBlack(s, ring[k - 1]) {
      CutBefore(s, t, ring, x, k - 1);
    } else {
      var e := (ring[k - 1], ring[k]);
      assert After(ring, k - 1) == ring[k];
      GreyIsOnStack(s, ring[k - 1]);
      assert e !in s.taken;
      assert e !in t.taken;
    }
  }

  /** Of two rings that part at the first module entered, the one followed second is not reported. */
  lemma SecondIsHidden(g: Graph, first: seq<Node>, second: seq<Node>)
    requires PlainNames(g) && IsRing(g, first) && IsRing(g, second) && |first| > 1 && |second| > 1
    requires first[0] == second[0] && first[1] != second[1] && first[|first| - 1] == second[|second| - 1]
    requires g.keys != [] && g.keys[0] == first[0] && Succ(g, first[0]) != [] && Succ(g, first[0])[0] == first[1]
    ensures Canonical(second) !in Found(g).cycles
  {
    var w, x := first[0], first[1];
    RingIsDistinct(g, first);
    RingIsDistinct(g, second);
    hide Found, Settled, PlainNames, StackIsGrey, Met, Canonical;
    assert Edge(g, w, x);
    SuccIsNode(g, w, x);
    KeysAreNodes(g);
    AfterFirst(g, w, x);
    var s := FirstFollowed(g, w, x);
    FinishedAlong(g, s, first, |first| - 1);
    CutBefore(s, Found(g), second, x, |second| - 1);
    RingReportedIffFollowed(g, second);
  }

  /** A ring turned to start where an import of it leads. */
  lemma TurnedTo(g: Graph, ring: seq<Node>, a: Node, b: Node) returns (turned: seq<Node>)
    requires IsRing(g, ring) && Goes(ring, a, b)
    ensures IsRing(g, turned) && turned[0] == b && turned[|turned| - 1] == a
    ensures Canonical(turned) == Canonical(ring)
  {
    var j :| 0 <= j < |ring| && ring[j] == a && After(ring, j) == b;
    var at := if j + 1 < |ring| then j + 1 else 0;
    turned := Rotated(ring, at);
    RotatedIsRing(g, ring, at);
    CanonicalOfRotation(ring, at);
  }

  /** Where two sequences that start alike first differ. */
  lemma {:induction false} FirstDifference(a: seq<Node>, b: seq<Node>) returns (d: nat)
    requires a != [] && b != [] && a[0] == b[0] && !(a <= b) && !(b <= a)
    ensures 0 < d < |a| && d < |b| && a[d] != b[d] && a[d - 1] == b[d - 1] && a[..d] == b[..d]
  {
    d := 1;
    while d < |a| && d < |b| && a[d] == b[d]
      invariant 1 <= d <= |a| && d <= |b| && a[..d] == b[..d]
    {
      d := d + 1;
    }
  }

  /** Rings that start alike and end alike are no prefixes of each other unless they are one. */
  lemma PrefixIsWhole(a: seq<Node>, b: seq<Node>)
    requires Distinct(b) && a != [] && b != [] && a <= b && a[|a| - 1] == b[|b| - 1]
    ensures a == b
  {
    assert a[|a| - 1] == b[|a| - 1];
  }

  /** Two rings through one import part somewhere, having come there the same way. */
  lemma RingsPart(g: Graph, one: seq<Node>, other: seq<Node>) returns (first: seq<Node>, second: seq<Node>)
    requires IsRing(g, one) && IsRing(g, other) && ShareImport(one, other) && Canonical(one) != Canonical(other)
    ensures IsRing(g, first) && IsRing(g, second) && |first| > 1 && |second| > 1
    ensures first[0] == second[0] && first[1] != second[1] && first[|first| - 1] == second[|second| - 1]
  {
    hide IsRing, Goes, Canonical;
    var a, b :| Goes(one, a, b) && Goes(other, a, b);
    var p := TurnedTo(g, one, a, b);
    var q := TurnedTo(g, other, a, b);
    RingIsDistinct(g, p);
    RingIsDistinct(g, q);
    if p <= q {
      PrefixIsWhole(p, q);
    }
    if q <= p {
      PrefixIsWhole(q, p);
    }
    var d := FirstDifference(p, q);
    first, second := Rotated(p, d - 1), Rotated(q, d - 1);
    RotatedIsRing(g, p, d - 1);
    RotatedIsRing(g, q, d - 1);
    if d > 1 {
      assert p[..d][d - 2] == q[..d][d - 2];
    }
  }

  function ToFront(s: seq<Node>, at: nat): seq<Node>
    requires at < |s|
  {
    [s[at]] + s[..at] + s[at + 1..]
  }

  lemma ToFrontPermutes(s: seq<Node>, at: nat)
    requires at < |s|
    ensures multiset(ToFront(s, at)) == multiset(s)
  {
    assert s == s[..at] + [s[at]] + s[at + 1..];
  }

  /** An order in which the search enters `w` first and follows its import `x` first. */
  lemma EnteredBy(g: Graph, w: Node, x: Node) returns (h: Graph)
    requires WellFormed(g) && Edge(g, w, x)
    ensures Reordered(g, h) && h.keys != [] && h.keys[0] == w && Succ(h, w) != [] && Succ(h, w)[0] == x
  {
    assert w in g.edges && w in g.keys;
    var i, j := IndexOf(g.keys, w), IndexOf(g.edges[w], x);
    ToFrontPermutes(g.keys, i);
    ToFrontPermutes(g.edges[w], j);
    h := Graph(ToFront(g.keys, i), g.edges[w := ToFront(g.edges[w], j)]);
  }

  /** Two rings through one import: in some order one of them is not reported. */
  lemma SharedIsHidden(g: Graph, one: seq<Node>, other: seq<Node>) returns (h: Graph, ring: seq<Node>)
    requires WellFormed(g) && PlainNames(g)
    requires IsRing(g, one) && IsRing(g, other) && ShareImport(one, other) && Canonical(one) != Canonical(other)
    ensures Reordered(g, h) && IsRing(h, ring) && Canonical(ring) !in Found(h).cycles
  {
    var first, second := RingsPart(g, one, other);
    RingStep(g, first, 0);
    h := EnteredBy(g, first[0], first[1]);
    ring := second;
    hide IsRing, Found, Canonical, PlainNames, Reordered, ShareImport, WellFormed;
    ReorderedRings(g, h, first);
    ReorderedRings(g, h, second);
    ReorderedIsPlain(g, h);
    SecondIsHidden(h, first, second);
  }

  /**
    "Every distinct cycle" holds, whatever order the modules and their imports are listed
    in, exactly when no import lies on two rings.
    */
  lemma EveryRingReportedIffApart(g: Graph)
    requires WellFormed(g) && PlainNames(g)
    ensures (forall h :: Reordered(g, h) ==> ReportsEveryRing(h)) <==> NoImportShared(g)
  {
    hide Distinct, IsPath, Found, Canonical, PlainNames, Reordered, ShareImport, WellFormed;
    if NoImportShared(g) {
      forall h, ring | Reordered(g, h) && IsRing(h, ring)
        ensures Canonical(ring) in Found(h).cycles
      {
        ApartAgain(g, h);
        ReorderedIsPlain(g, h);
        ApartIsReported(h, ring);
      }
    } else {
      var one, other :| IsRing(g, one) && IsRing(g, other) && ShareImport(one, other)
                     && Canonical(one) != Canonical(other);
      var h, ring := SharedIsHidden(g, one, other);
      assert !ReportsEveryRing(h);
    }
  }

  lemma ApartAgain(g: Graph, h: Graph)
    requires Reordered(g, h) && NoImportShared(g)
    ensures NoImportShared(h)
  {
    hide Distinct, IsPath, Canonical, Reordered, ShareImport;
    forall one, other | IsRing(h, one) && IsRing(h, other) && ShareImport(one, other)
      ensures Canonical(one) == Canonical(other)
    {
      ReorderedRings(g, h, one);
      ReorderedRings(g, h, other);
    }
  }

  // ------------------------------------------------------------------ not every ring

  /** Entered from `a`, a module importing `a` alone closes the ring of the two. */
  lemma ClosesRing(g: Graph, a: Node, b: Node, s: Dfs)
    requires StackIsGrey(s) && s.stack == [a] && b !in s.colour && a != b && b in Nodes(g)
    requires Succ(g, b) == [a] && Before(a, b) && s.seen == {} && s.cycles == []
    ensures var t := Follow(g, a, b, s);
      t.stack == [a] && IsBlack(t, b) && t.colour.Keys == s.colour.Keys + {b} && t.cycles == [[a, b]]
  {
    SuccIsNode(g, b, a);
    hide Nodes, Left, Key;
    TookIsGrey(s, a, b);
    EnteredIsGrey(Took(s, a, b), b);
    var inside := Entered(Took(s, a, b), b);
    assert inside.stack == [a, b];
    GreyIsOnStack(inside, a);
    TookIsGrey(inside, b, a);
    BeforeIsTotal(a, b);
    assert Pivot([a, b]) == 0;
    assert [a, b][0..] == [a, b] && [a, b][..0] == [];
    assert Canonical([a, b]) == [a, b];
    assert Walk(g, b, [a], inside) == Follow(g, b, a, inside) by {
      assert [a][1..] == [];
    }
    assert inside.cycles + [[a, b]] == [[a, b]];
  }

  /** A module that imports only a finished one adds nothing. */
  lemma PassesOver(g: Graph, a: Node, b: Node, c: Node, s: Dfs)
    requires StackIsGrey(s) && c !in s.colour && IsBlack(s, b) && b != c && c in Nodes(g)
    requires Succ(g, c) == [b]
    ensures var t := Follow(g, a, c, s); t.cycles == s.cycles && t.colour.Keys == s.colour.Keys + {c}
  {
    hide Nodes, Left, Key;
    TookIsGrey(s, a, c);
    EnteredIsGrey(Took(s, a, c), c);
    var inside := Entered(Took(s, a, c), c);
    assert Walk(g, c, [b], inside) == inside by {
      assert [b][1..] == [];
    }
  }

  lemma TwoRingsAreRings(g: Graph, a: Node, b: Node, c: Node)
    requires a != b && b != c && a != c
    requires Succ(g, a) == [b, c] && Succ(g, b) == [a] && Succ(g, c) == [b]
    ensures IsRing(g, [a, b]) && IsRing(g, [a, c, b])
  {
  }

  /**
    "Every distinct cycle" is not what comes back: of two rings sharing a module, one is
    lost when that module is finished with before the other ring gets to it.
    */
  lemma OneRingHidden(g: Graph, a: Node, b: Node, c: Node)
    requires Before(a, b) && b != c && a != c && g.keys == [a, b, c]
    requires Succ(g, a) == [b, c] && Succ(g, b) == [a] && Succ(g, c) == [b]
    ensures IsRing(g, [a, b]) && IsRing(g, [a, c, b])
    ensures Found(g).cycles == [[a, b]]
  {
    BeforeIsTotal(a, b);
    TwoRingsAreRings(g, a, b, c);
    NamesAreNodes(g, a, b, c);
    StartIsSound(g);
    hide Nodes, Left, Key, IsRing, Before, Succ, Follow, Visit, StackIsGrey;
    VisitOfA(g, a, b, c);
    SearchOver(g, [b, c], Visit(g, a, START));
    assert g.keys[1..] == [b, c];
  }

  lemma VisitOfA(g: Graph, a: Node, b: Node, c: Node)
    requires Before(a, b) && a != b && b != c && a != c && StackIsGrey(START)
    requires a in Nodes(g) && b in Nodes(g) && c in Nodes(g)
    requires Succ(g, a) == [b, c] && Succ(g, b) == [a] && Succ(g, c) == [b]
    ensures Visit(g, a, START).cycles == [[a, b]]
    ensures forall n :: n in [b, c] ==> n in Visit(g, a, START).colour
  {
    hide Nodes, Left, Key, Before, Succ, Follow, StackIsGrey, Walk;
    var inside := Entered(START, a);
    EnteredIsGrey(START, a);
    assert inside.stack == [a];
    ClosesRing(g, a, b, inside);
    var next := Follow(g, a, b, inside);
    PassesOver(g, a, b, c, next);
    WalkTwo(g, a, b, c, inside);
  }

  lemma NamesAreNodes(g: Graph, a: Node, b: Node, c: Node)
    requires g.keys == [a, b, c]
    ensures a in Nodes(g) && b in Nodes(g) && c in Nodes(g)
  {
  }

  lemma WalkTwo(g: Graph, id: Node, b: Node, c: Node, s: Dfs)
    requires StackIsGrey(s) && Edge(g, id, b) && Edge(g, id, c) && b in Nodes(g) && c in Nodes(g)
    ensures Walk(g, id, [b, c], s) == Follow(g, id, c, Follow(g, id, b, s))
  {
    hide *;
    assert [b, c][1..] == [c] && [c][1..] == [];
    WalkUnfold(g, id, [b, c], s);
    var next := Follow(g, id, b, s);
    WalkUnfold(g, id, [c], next);
    WalkNothing(g, id, Follow(g, id, c, next));
  }

  lemma {:induction false} SearchOver(g: Graph, keys: seq<Node>, s: Dfs)
    requires StackIsGrey(s) && forall k :: k in keys ==> k in Nodes(g) && k in s.colour
    ensures Search(g, keys, s) == s
  {
    hide Nodes, StackIsGrey;
    if keys != [] {
      SearchOver(g, keys[1..], s);
    }
  }

  lemma TwoRingsExist()
    ensures var g := Graph(["a", "b", "c"], map["a" := ["b", "c"], "b" := ["a"], "c" := ["b"]]);
      && IsRing(g, ["a", "b"]) && IsRing(g, ["a", "c", "b"])
      && Found(g).cycles == [["a", "b"]]
  {
    hide IsRing, Found;
    var g := Graph(["a", "b", "c"], map["a" := ["b", "c"], "b" := ["a"], "c" := ["b"]]);
    assert "a"[0] != "b"[0] && "b"[0] != "c"[0] && "a"[0] != "c"[0];
    OneRingHidden(g, "a", "b", "c");
  }

  // ------------------------------------------------------------------ as the program runs it

  class CycleFinder {
    const adjacency: Graph
    var colour: map<Node, Colour>
    var stack: seq<Node>
    var seen: set<string>
    var cycles: seq<seq<Node>>
    ghost var taken: set<(Node, Node)>

    constructor (g: Graph)
      ensures adjacency == g && View() == START
    {
      adjacency := g;
      colour, stack, seen, cycles, taken := map[], [], {}, [], {};
    }

    ghost function View(): Dfs
      reads this
    {
      Dfs(colour, stack, seen, cycles, taken)
    }

    method Enter(id: Node)
      requires StackIsGrey(View()) && id in Nodes(adjacency) && id !in colour
      modifies this
      ensures View() == Visit(adjacency, id, old(View()))
      decreases Left(adjacency, View())
    {
      hide Nodes, Left, Report, Advances;
      ghost var was := View();
      EnteredIsGrey(was, id);
      LeftDrops(adjacency, was, Entered(was, id), id);
      colour := colour[id := Grey];
      stack := stack + [id];
      ghost var inside := View();
      var nexts := Succ(adjacency, id);
      var i := 0;
      while i < |nexts|
        invariant 0 <= i <= |nexts| && StackIsGrey(View()) && stack == inside.stack
        invariant Left(adjacency, View()) <= Left(adjacency, inside)
        invariant Walk(adjacency, id, nexts[i..], View()) == Walk(adjacency, id, nexts, inside)
      {
        ghost var before := View();
        WalkUnfold(adjacency, id, nexts[i..], before);
        var next := nexts[i];
        if next !in colour {
          taken := taken + {(id, next)};
          TookIsGrey(before, id, next);
          LeftShrinks(adjacency, before, View());
          Enter(next);
        } else if colour[next] == Grey {
          taken := taken + {(id, next)};
          GreyIsOnStack(before, next);
          Close(next);
        }
        assert View() == Follow(adjacency, id, next, before);
        assert nexts[i..][1..] == nexts[i + 1..];
        i := i + 1;
      }
      stack := stack[..|stack| - 1];
      colour := colour[id := Black];
    }

    /** A ring closes at `next`. */
    method Close(next: Node)
      requires next in stack
      modifies `seen, `cycles
      ensures View() == Report(old(View()), next)
    {
      hide Canonical, Key, Before;
      var ring := stack[IndexOf(stack, next)..];
      var canonical := Canonical(ring);
      var key := Key(canonical);
      if key !in seen {
        seen := seen + {key};
        cycles := cycles + [canonical];
      }
    }
  }

  method FindCycles(adjacency: Graph) returns (cycles: seq<seq<Node>>)
    ensures cycles == Found(adjacency).cycles
  {
    hide Nodes, Visit, StackIsGrey;
    var finder := new CycleFinder(adjacency);
    StartIsSound(adjacency);
    KeysAreNodes(adjacency);
    var i := 0;
    while i < |adjacency.keys|
      invariant 0 <= i <= |adjacency.keys| && finder.adjacency == adjacency && StackIsGrey(finder.View())
      invariant forall k :: k in adjacency.keys[i..] ==> k in Nodes(adjacency)
      invariant Search(adjacency, adjacency.keys[i..], finder.View()) == Found(adjacency)
    {
      var id := adjacency.keys[i];
      assert adjacency.keys[i..][0] == id && adjacency.keys[i..][1..] == adjacency.keys[i + 1..];
      if id !in finder.colour {
        finder.Enter(id);
      }
      i := i + 1;
    }
    cycles := finder.cycles;
  }

  lemma KeysAreNodes(g: Graph)
    ensures g.keys[0..] == g.keys && forall k :: k in g.keys ==> k in Nodes(g)
  {
  }
}
