/**
  From a directory's transcripts to the Sessions page's cards: whose responses each card
  holds, and which cards the page draws.
  */
module CardForest {
  import opened Options
  import opened Responses
  import opened Transcripts
  import opened SessionGroups
  import opened SessionTree
  import History = UsageHistory
  import Reader = SessionsReader

  const END_TURN := "end_turn"

  /** A subagent's usable meta file, and the transcript beside it, which may not be there yet. */
  datatype Meta = Meta(
    agentId: string, toolUseId: Option<Call>, transcript: string, finished: bool, writtenMs: int)

  /**
    A session whose transcript is there: its subagents in the order of their meta files, and
    the subagent transcripts that have no usable meta file.
    */
  datatype Session = Session(id: string, file: string, writtenMs: int, metas: seq<Meta>, loose: seq<string>)

  /** What the reader holds of one transcript, read in however many goes; of a missing one, nothing. */
  function FactsIn(parse: Reader.EntryParser, final: History.Files, name: string): Reader.Facts {
    if name in final then Reader.WholeFacts(parse, name, final[name]) else Reader.StartFacts(name)
  }

  function CallsIn(parse: Reader.EntryParser, final: History.Files, names: seq<string>): seq<Call> {
    if names == [] then [] else FactsIn(parse, final, names[0]).calls + CallsIn(parse, final, names[1..])
  }

  function RootNode(parse: Reader.EntryParser, final: History.Files, s: Session): Node {
    var facts := FactsIn(parse, final, s.file);
    Node(s.id, facts.calls + CallsIn(parse, final, s.loose), None, s.writtenMs, facts.lastStop == Some(END_TURN), true)
  }

  function AgentNode(parse: Reader.EntryParser, final: History.Files, m: Meta): Node {
    Node(m.agentId, FactsIn(parse, final, m.transcript).calls, m.toolUseId, m.writtenMs, m.finished, false)
  }

  /** The session's cards before they are linked, its own first. */
  function NodesOf(parse: Reader.EntryParser, final: History.Files, s: Session): (nodes: seq<Node>)
    ensures |nodes| == 1 + |s.metas|
  {
    [RootNode(parse, final, s)]
    + seq(|s.metas|, k requires 0 <= k < |s.metas| => AgentNode(parse, final, s.metas[k]))
  }

  /** The transcripts whose responses a card holds: the session's card has the loose ones too. */
  function FilesOf(s: Session, i: nat): seq<string>
    requires i <= |s.metas|
  {
    if i == 0 then [s.file] + s.loose else [s.metas[i - 1].transcript]
  }

  /** What the Sessions reader keeps of one file. */
  function FileRows(parse: Reader.EntryParser, final: History.Files, name: string): Rows
    requires name in final
  {
    Reader.WholeFacts(parse, name, final[name]).responses
  }

  /** `r` is kept of one of the files `names`. */
  ghost predicate KeptIn(parse: Reader.EntryParser, final: History.Files, names: seq<string>, r: Response) {
    exists name :: name in names && name in final && r in FileRows(parse, final, name).Values
  }

  /** A session's cards with what they hold, and which are under which, in any order. */
  datatype Tree = Tree(leaves: seq<Card>, children: seq<seq<nat>>)

  ghost predicate IsLeaf(parse: Reader.EntryParser, final: History.Files, s: Session, i: nat, leaf: Card)
    requires i <= |s.metas|
  {
    && leaf.id == NodesOf(parse, final, s)[i].id
    && leaf.branch == FactsIn(parse, final, FilesOf(s, i)[0]).branch
    && (forall r :: r in leaf.responses <==> KeptIn(parse, final, FilesOf(s, i), r))
  }

  ghost predicate IsTree(parse: Reader.EntryParser, final: History.Files, s: Session, t: Tree) {
    && |t.leaves| == 1 + |s.metas|
    && Arranged(NodesOf(parse, final, s), t.children)
    && (forall i: nat :: i <= |s.metas| ==> IsLeaf(parse, final, s, i, t.leaves[i]))
  }

  /** What linking leaves, each card's list sorted somehow, is a tree the page may draw. */
  lemma LinkedMakesTree(parse: Reader.EntryParser, final: History.Files, s: Session, leaves: seq<Card>,
                        linked: seq<seq<nat>>, sorted: seq<seq<nat>>)
    requires |leaves| == 1 + |s.metas| && forall i: nat :: i <= |s.metas| ==> IsLeaf(parse, final, s, i, leaves[i])
    requires Linked(NodesOf(parse, final, s), linked) && |sorted| == |linked|
    requires forall p :: 0 <= p < |linked| ==> multiset(sorted[p]) == multiset(linked[p])
    ensures IsTree(parse, final, s, Tree(leaves, sorted))
  {
    hide NodesOf, IsLeaf, Linked;
    LinkedIsArranged(NodesOf(parse, final, s), linked);
    SortedIsArranged(NodesOf(parse, final, s), linked, sorted);
  }

  // ------------------------------------------------------------------ as the page draws it

  /** The card `i` with all that is linked under it. */
  ghost function Drawing(t: Tree, rank: map<nat, nat>, i: nat): Card
    requires |t.leaves| == |t.children| && Ranked(t.children, rank) && i in rank
    decreases rank[i], 0
  {
    t.leaves[i].(children := Drawings(t, rank, t.children[i], rank[i]))
  }

  ghost function Drawings(t: Tree, rank: map<nat, nat>, cs: seq<nat>, top: nat): seq<Card>
    requires |t.leaves| == |t.children| && Ranked(t.children, rank) && AllIn(cs, rank, top)
    decreases top, 0, |cs|
  {
    if cs == [] then []
    else
      assert cs[0] in cs;
      [Drawing(t, rank, cs[0])] + Drawings(t, rank, cs[1..], top)
  }

  /** Some card of `drawn` holds `r`. */
  ghost predicate Holds(t: Tree, drawn: seq<nat>, r: Response) {
    exists j :: j in drawn && j < |t.leaves| && r in t.leaves[j].responses
  }

  lemma HoldsConcat(t: Tree, a: seq<nat>, b: seq<nat>, r: Response)
    ensures Holds(t, a + b, r) <==> Holds(t, a, r) || Holds(t, b, r)
  {
  }

  lemma DrawingIs(t: Tree, rank: map<nat, nat>, i: nat)
    requires |t.leaves| == |t.children| && Ranked(t.children, rank) && i in rank
    ensures i < |t.leaves| && AllIn(t.children[i], rank, rank[i])
    ensures Drawing(t, rank, i).responses == t.leaves[i].responses && Drawing(t, rank, i).ref == t.leaves[i].ref
    ensures Drawing(t, rank, i).children == Drawings(t, rank, t.children[i], rank[i])
    ensures Drawn(t.children, rank, i) == [i] + DrawnAll(t.children, rank, t.children[i], rank[i])
  {
  }

  /** What is drawn under a card holds what the cards of its tree do. */
  lemma {:induction false} DrawingsHold(t: Tree, rank: map<nat, nat>, cs: seq<nat>, top: nat, r: Response)
    requires |t.leaves| == |t.children| && Ranked(t.children, rank) && AllIn(cs, rank, top)
    ensures r in ResponsesOf(Drawings(t, rank, cs, top)) <==> Holds(t, DrawnAll(t.children, rank, cs, top), r)
    decreases top, |cs|
  {
    if cs != [] {
      hide Ranked, Drawn, Drawing, Holds;
      assert cs[0] in cs;
      var i := cs[0];
      DrawingIs(t, rank, i);
      DrawingsHold(t, rank, t.children[i], rank[i], r);
      DrawingsHold(t, rank, cs[1..], top, r);
      HoldsConcat(t, Drawn(t.children, rank, i), DrawnAll(t.children, rank, cs[1..], top), r);
      HoldsConcat(t, [i], DrawnAll(t.children, rank, t.children[i], rank[i]), r);
      HoldsOne(t, i, r);
      var cards := Drawings(t, rank, cs, top);
      assert cards[1..] == Drawings(t, rank, cs[1..], top);
    }
  }

  lemma HoldsOne(t: Tree, i: nat, r: Response)
    requires i < |t.leaves|
    ensures Holds(t, [i], r) <==> r in t.leaves[i].responses
  {
    assert i in [i];
  }

  lemma DrawingHolds(t: Tree, rank: map<nat, nat>, i: nat, r: Response)
    requires |t.leaves| == |t.children| && Ranked(t.children, rank) && i in rank
    ensures r in ResponsesOf([Drawing(t, rank, i)]) <==> Holds(t, Drawn(t.children, rank, i), r)
  {
    hide Ranked, Drawn, Drawing, Drawings, Holds;
    DrawingIs(t, rank, i);
    DrawingsHold(t, rank, t.children[i], rank[i], r);
    HoldsConcat(t, [i], DrawnAll(t.children, rank, t.children[i], rank[i]), r);
    HoldsOne(t, i, r);
    assert [Drawing(t, rank, i)][1..] == [];
  }

  // ------------------------------------------------------------------ a directory's sessions

  /** The card a session is drawn as. */
  ghost function RootOf(parse: Reader.EntryParser, final: History.Files, s: Session, t: Tree): Card
    requires IsTree(parse, final, s, t)
  {
    ArrangedIsRanked(NodesOf(parse, final, s), t.children);
    Drawing(t, RankOf(NodesOf(parse, final, s)), 0)
  }

  /** The page's cards: each session's tree, the sessions in any order. */
  ghost predicate IsForest(parse: Reader.EntryParser, final: History.Files, sessions: seq<Session>,
                           trees: seq<Tree>, roots: seq<Card>) {
    && |sessions| == |trees| == |roots|
    && (forall k :: 0 <= k < |sessions| ==>
          IsTree(parse, final, sessions[k], trees[k]) && roots[k] == RootOf(parse, final, sessions[k], trees[k]))
  }

  /** Card `i` of a session leads to it, so that the page draws it. */
  ghost predicate DrawnIn(parse: Reader.EntryParser, final: History.Files, s: Session, i: nat) {
    i <= |s.metas| && Rooted(NodesOf(parse, final, s), i)
  }

  /** The file `name` is one a drawn card of some session holds. */
  ghost predicate OnDrawnCard(parse: Reader.EntryParser, final: History.Files, sessions: seq<Session>, name: string) {
    exists k, i: nat :: 0 <= k < |sessions| && DrawnIn(parse, final, sessions[k], i) && name in FilesOf(sessions[k], i)
  }

  lemma TimesIn(s: seq<nat>, i: nat)
    ensures i in s <==> Times(s, i) > 0
  {
  }

  /** A session's card holds, with what is under it, the files of the cards that lead to it. */
  lemma RootHolds(parse: Reader.EntryParser, final: History.Files, s: Session, t: Tree, r: Response)
    requires IsTree(parse, final, s, t)
    ensures r in ResponsesOf([RootOf(parse, final, s, t)])
       <==> exists i: nat :: DrawnIn(parse, final, s, i) && KeptIn(parse, final, FilesOf(s, i), r)
  {
    hide NodesOf, Ranked, RankOf, Drawn, Drawing, KeptIn, FilesOf, Rooted, StartedByItself, Times, Arranged;
    var nodes := NodesOf(parse, final, s);
    var rank := RankOf(nodes);
    DrawnOnceIffRooted(nodes, t.children);
    var drawn := Drawn(t.children, rank, 0);
    LeavesMatch(parse, final, s, t);
    DrawingHolds(t, rank, 0, r);
    if Holds(t, drawn, r) {
      var j :| j in drawn && j < |t.leaves| && r in t.leaves[j].responses;
      TimesIn(drawn, j);
      assert IsLeaf(parse, final, s, j, t.leaves[j]);
      assert DrawnIn(parse, final, s, j);
    }
    if i: nat :| DrawnIn(parse, final, s, i) && KeptIn(parse, final, FilesOf(s, i), r) {
      TimesIn(drawn, i);
      assert IsLeaf(parse, final, s, i, t.leaves[i]);
      assert i in drawn && r in t.leaves[i].responses;
    }
  }

  lemma LeavesMatch(parse: Reader.EntryParser, final: History.Files, s: Session, t: Tree)
    requires IsTree(parse, final, s, t)
    ensures |t.leaves| == |t.children| == |NodesOf(parse, final, s)| == 1 + |s.metas|
    ensures Arranged(NodesOf(parse, final, s), t.children)
  {
  }

  lemma {:induction false} ResponsesConcat(a: seq<Card>, b: seq<Card>)
    ensures ResponsesOf(a + b) == ResponsesOf(a) + ResponsesOf(b)
  {
    if a == [] {
      assert a + b == b;
    } else {
      assert (a + b)[1..] == a[1..] + b;
      ResponsesConcat(a[1..], b);
    }
  }

  lemma {:induction false} ResponsesOfSome(cards: seq<Card>, r: Response)
    ensures r in ResponsesOf(cards) <==> exists k :: 0 <= k < |cards| && r in ResponsesOf([cards[k]])
  {
    if cards != [] {
      ResponsesOfSome(cards[1..], r);
      ResponsesConcat([cards[0]], cards[1..]);
      assert cards == [cards[0]] + cards[1..];
      hide ResponsesOf;
      if r in ResponsesOf(cards[1..]) {
        var k :| 0 <= k < |cards[1..]| && r in ResponsesOf([cards[1..][k]]);
        assert cards[k + 1] == cards[1..][k];
      }
      if k :| 0 < k < |cards| && r in ResponsesOf([cards[k]]) {
        assert cards[1..][k - 1] == cards[k];
      }
    }
  }

  /** The page's cards hold what is kept of the files on drawn cards, and nothing else. */
  lemma ForestHolds(parse: Reader.EntryParser, final: History.Files, sessions: seq<Session>,
                    trees: seq<Tree>, roots: seq<Card>, r: Response)
    requires IsForest(parse, final, sessions, trees, roots)
    ensures r in ResponsesOf(roots)
       <==> exists name :: name in final && OnDrawnCard(parse, final, sessions, name)
                        && r in FileRows(parse, final, name).Values
  {
    hide NodesOf, ResponsesOf, FilesOf, Rooted, FileRows, IsTree, RootOf;
    ResponsesOfSome(roots, r);
    if r in ResponsesOf(roots) {
      var k :| 0 <= k < |roots| && r in ResponsesOf([roots[k]]);
      RootHolds(parse, final, sessions[k], trees[k], r);
      var i :| DrawnIn(parse, final, sessions[k], i) && KeptIn(parse, final, FilesOf(sessions[k], i), r);
      var name :| name in FilesOf(sessions[k], i) && name in final && r in FileRows(parse, final, name).Values;
      assert OnDrawnCard(parse, final, sessions, name);
    }
    if name :| name in final && OnDrawnCard(parse, final, sessions, name) && r in FileRows(parse, final, name).Values {
      var k, i: nat :| 0 <= k < |sessions| && DrawnIn(parse, final, sessions[k], i) && name in FilesOf(sessions[k], i);
      assert KeptIn(parse, final, FilesOf(sessions[k], i), r);
      RootHolds(parse, final, sessions[k], trees[k], r);
    }
  }

  // ------------------------------------------------------------------ no card drawn twice

  /** The cards are objects apart, within a session and between sessions. */
  ghost predicate ApartLeaves(trees: seq<Tree>) {
    forall k, l, i, j :: 0 <= k < |trees| && 0 <= l < |trees| ==>
      0 <= i < |trees[k].leaves| && 0 <= j < |trees[l].leaves| ==>
      trees[k].leaves[i].ref == trees[l].leaves[j].ref ==> k == l && i == j
  }

  /** What the cards `drawn` are called, in order. */
  function RefsAt(t: Tree, drawn: seq<nat>): seq<nat>
    requires forall k :: 0 <= k < |drawn| ==> drawn[k] < |t.leaves|
  {
    seq(|drawn|, k requires 0 <= k < |drawn| => t.leaves[drawn[k]].ref)
  }

  lemma RefsAtConcat(t: Tree, a: seq<nat>, b: seq<nat>)
    requires forall k :: 0 <= k < |a| ==> a[k] < |t.leaves|
    requires forall k :: 0 <= k < |b| ==> b[k] < |t.leaves|
    ensures forall k :: 0 <= k < |a + b| ==> (a + b)[k] < |t.leaves|
    ensures RefsAt(t, a + b) == RefsAt(t, a) + RefsAt(t, b)
  {
  }

  lemma DrawingsAre(t: Tree, rank: map<nat, nat>, cs: seq<nat>, top: nat)
    requires |t.leaves| == |t.children| && Ranked(t.children, rank) && AllIn(cs, rank, top) && cs != []
    ensures cs[0] in rank && cs[0] < |t.leaves| && AllIn(t.children[cs[0]], rank, rank[cs[0]])
    ensures rank[cs[0]] < top && AllIn(cs[1..], rank, top)
    ensures Drawings(t, rank, cs, top) == [Drawing(t, rank, cs[0])] + Drawings(t, rank, cs[1..], top)
    ensures DrawnAll(t.children, rank, cs, top)
         == [cs[0]] + DrawnAll(t.children, rank, t.children[cs[0]], rank[cs[0]])
            + DrawnAll(t.children, rank, cs[1..], top)
  {
    assert cs[0] in cs;
    DrawingIs(t, rank, cs[0]);
    hide Ranked, Drawn, Drawing;
  }

  lemma {:induction false} DrawingsNamed(t: Tree, rank: map<nat, nat>, cs: seq<nat>, top: nat)
    requires |t.leaves| == |t.children| && Ranked(t.children, rank) && AllIn(cs, rank, top)
    ensures var drawn := DrawnAll(t.children, rank, cs, top); forall k :: 0 <= k < |drawn| ==> drawn[k] < |t.leaves|
    ensures RefsOf(Preorder(Drawings(t, rank, cs, top))) == RefsAt(t, DrawnAll(t.children, rank, cs, top))
    decreases top, |cs|
  {
    if cs != [] {
      DrawingsAre(t, rank, cs, top);
      DrawingIs(t, rank, cs[0]);
      var i, first := cs[0], Drawing(t, rank, cs[0]);
      OneRef(t, i, first);
      hide *;
      DrawingsNamed(t, rank, t.children[i], rank[i]);
      DrawingsNamed(t, rank, cs[1..], top);
      var cards, rest := Drawings(t, rank, cs, top), Drawings(t, rank, cs[1..], top);
      assert cards[1..] == rest && cards[0] == first;
      PreorderUnfold(cards);
      var a, b := Preorder(first.children), Preorder(rest);
      var x, y := DrawnAll(t.children, rank, t.children[i], rank[i]), DrawnAll(t.children, rank, cs[1..], top);
      RefsOfConcat(a, b);
      RefsOfConcat([first], a + b);
      RefsAtConcat(t, x, y);
      RefsAtConcat(t, [i], x + y);
      assert [i] + x + y == [i] + (x + y);
    }
  }

  lemma OneRef(t: Tree, i: nat, c: Card)
    requires i < |t.leaves| && c.ref == t.leaves[i].ref
    ensures RefsOf([c]) == RefsAt(t, [i])
  {
  }

  lemma RootNamed(parse: Reader.EntryParser, final: History.Files, s: Session, t: Tree) returns (drawn: seq<nat>)
    requires IsTree(parse, final, s, t)
    ensures AllApart(drawn) && forall k :: 0 <= k < |drawn| ==> drawn[k] < |t.leaves|
    ensures RefsOf(Preorder([RootOf(parse, final, s, t)])) == RefsAt(t, drawn)
  {
    hide *;
    var nodes := NodesOf(parse, final, s);
    var rank := RankOf(nodes);
    LeavesMatch(parse, final, s, t);
    DrawnOnceIffRooted(nodes, t.children);
    RootIs(parse, final, s, t);
    AloneIn(rank, 0);
    drawn := DrawnAll(t.children, rank, [0], rank[0] + 1);
    DrawingsNamed(t, rank, [0], rank[0] + 1);
    DrawnAlone(t.children, rank, 0, rank[0] + 1);
    OneDrawing(t, rank, 0, rank[0] + 1);
    forall j | j in drawn
      ensures Times(drawn, j) <= 1
    {
    }
    OnceIsApart(drawn);
  }

  lemma RootIs(parse: Reader.EntryParser, final: History.Files, s: Session, t: Tree)
    requires IsTree(parse, final, s, t)
    ensures |t.leaves| == |t.children| && Ranked(t.children, RankOf(NodesOf(parse, final, s)))
    ensures 0 in RankOf(NodesOf(parse, final, s))
    ensures RootOf(parse, final, s, t) == Drawing(t, RankOf(NodesOf(parse, final, s)), 0)
  {
    LeavesMatch(parse, final, s, t);
    hide NodesOf, Ranked, RankOf, Arranged, Drawing;
    ArrangedIsRanked(NodesOf(parse, final, s), t.children);
  }

  lemma AloneIn(rank: map<nat, nat>, i: nat)
    requires i in rank
    ensures AllIn([i], rank, rank[i] + 1)
  {
  }

  lemma OneDrawing(t: Tree, rank: map<nat, nat>, i: nat, top: nat)
    requires |t.leaves| == |t.children| && Ranked(t.children, rank) && AllIn([i], rank, top)
    ensures i in rank && Drawings(t, rank, [i], top) == [Drawing(t, rank, i)]
  {
    hide Ranked, Drawing;
    assert i in [i] && [i][1..] == [];
  }

  lemma DrawnAlone(children: seq<seq<nat>>, rank: map<nat, nat>, i: nat, top: nat)
    requires Ranked(children, rank) && AllIn([i], rank, top)
    ensures i in rank && DrawnAll(children, rank, [i], top) == Drawn(children, rank, i)
  {
    assert i in [i] && [i][1..] == [];
  }

  lemma OnceIsApart(s: seq<nat>)
    requires forall j :: j in s ==> Times(s, j) <= 1
    ensures AllApart(s)
  {
    forall j, k | 0 <= j < k < |s|
      ensures s[j] != s[k]
    {
      if s[j] == s[k] {
        assert s[j] in s;
        Twice(s, j, k);
      }
    }
  }

  /** However the subagents started one another, no card is drawn twice. */
  lemma {:induction false} CardsAreApart(parse: Reader.EntryParser, final: History.Files, sessions: seq<Session>,
                                         trees: seq<Tree>, roots: seq<Card>)
    requires IsForest(parse, final, sessions, trees, roots) && ApartLeaves(trees)
    ensures DistinctRefs(Preorder(roots))
    ensures forall c :: c in Preorder(roots) ==> LeafOf(trees, c.ref)
  {
    if roots != [] {
      hide *;
      var first, rest := [roots[0]], roots[1..];
      FirstOfForest(parse, final, sessions, trees, roots);
      var drawn := RootNamed(parse, final, sessions[0], trees[0]);
      CardsAreApart(parse, final, sessions[1..], trees[1..], rest);
      assert roots == first + rest;
      PreorderConcat(first, rest);
      FirstApart(trees, Preorder(first), Preorder(rest), drawn);
    } else {
      hide IsForest, ApartLeaves, LeafOf;
    }
  }

  lemma FirstOfForest(parse: Reader.EntryParser, final: History.Files, sessions: seq<Session>,
                      trees: seq<Tree>, roots: seq<Card>)
    requires IsForest(parse, final, sessions, trees, roots) && ApartLeaves(trees) && roots != []
    ensures |sessions| == |trees| == |roots| && IsTree(parse, final, sessions[0], trees[0])
    ensures roots[0] == RootOf(parse, final, sessions[0], trees[0])
    ensures IsForest(parse, final, sessions[1..], trees[1..], roots[1..]) && ApartLeaves(trees[1..])
  {
    hide IsTree, RootOf;
  }

  ghost predicate LeafOf(trees: seq<Tree>, ref: nat) {
    exists k, i :: 0 <= k < |trees| && 0 <= i < |trees[k].leaves| && trees[k].leaves[i].ref == ref
  }

  lemma {:induction false} PreorderConcat(a: seq<Card>, b: seq<Card>)
    ensures Preorder(a + b) == Preorder(a) + Preorder(b)
  {
    if a == [] {
      assert a + b == b;
    } else {
      assert (a + b)[1..] == a[1..] + b;
      PreorderConcat(a[1..], b);
    }
  }

  lemma FirstApart(trees: seq<Tree>, first: seq<Card>, rest: seq<Card>, drawn: seq<nat>)
    requires trees != [] && ApartLeaves(trees) && AllApart(drawn)
    requires forall k :: 0 <= k < |drawn| ==> drawn[k] < |trees[0].leaves|
    requires RefsOf(first) == RefsAt(trees[0], drawn)
    requires DistinctRefs(rest) && forall c :: c in rest ==> LeafOf(trees[1..], c.ref)
    ensures DistinctRefs(first + rest)
    ensures forall c :: c in first + rest ==> LeafOf(trees, c.ref)
  {
    var all := first + rest;
    forall j | 0 <= j < |first|
      ensures drawn[j] < |trees[0].leaves| && first[j].ref == trees[0].leaves[drawn[j]].ref
    {
      assert RefsOf(first)[j] == RefsAt(trees[0], drawn)[j];
    }
    forall c | c in rest
      ensures exists k, i :: 0 < k < |trees| && 0 <= i < |trees[k].leaves| && trees[k].leaves[i].ref == c.ref
    {
      var k, i :| 0 <= k < |trees[1..]| && 0 <= i < |trees[1..][k].leaves| && trees[1..][k].leaves[i].ref == c.ref;
      assert trees[k + 1].leaves[i].ref == c.ref;
    }
    forall j, k | 0 <= j < k < |all|
      ensures all[j].ref != all[k].ref
    {
      if j < |first| <= k {
        assert all[k] in rest;
      }
    }
  }
}
