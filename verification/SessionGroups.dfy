/**
  Who spent what on which issue: each response credited to one card of the forest, and the
  forest drawn once for every group its responses ran in.
  */
module SessionGroups {
  import opened Options
  import opened Responses
  import opened Tally

  /** One card. `ref` is which object it is: two cards may look alike and still be two. */
  datatype Card = Card(
    ref: nat, id: string, branch: Option<string>, responses: seq<Response>, children: seq<Card>)

  datatype Group = Base | Other | Issue(issue: nat)

  datatype Slice = Slice(id: string, out: nat, subtreeOut: nat, children: seq<Slice>)

  datatype SessionGroup = SessionGroup(key: Group, out: nat, sessions: seq<Slice>)

  function GroupOf(branch: Option<string>): Group {
    if branch == Some("develop") || branch == Some("main") then Base
    else if branch.None? then Other
    else
      var issue := IssueOfBranch(branch.value);
      if issue.None? then Other else Issue(issue.value)
  }

  /** A base branch names no issue, so the two pages agree on what an issue's work is. */
  lemma GroupIsIssue(r: Response, n: nat)
    ensures GroupOf(r.branch) == Issue(n)
       <==> Attributed(r) && IssueOfBranch(r.branch.value) == Some(n)
  {
    NoSlashNoIssue("", 0);
    NoSlashNoIssue("main", 0);
    NoSlashNoIssue("develop", 0);
  }

  /** The cards of a forest, parents before what is under them. */
  function Preorder(cards: seq<Card>): seq<Card> {
    if cards == [] then []
    else [cards[0]] + Preorder(cards[0].children) + Preorder(cards[1..])
  }

  /** What a forest's cards hold, in that order. */
  function ResponsesOf(cards: seq<Card>): seq<Response> {
    if cards == [] then [] else cards[0].responses + ResponsesOf(cards[0].children) + ResponsesOf(cards[1..])
  }

  // ------------------------------------------------------------------ crediting

  /** The responses kept so far, oldest meeting first, each beside the card it is credited to. */
  datatype Credits = Credits(folded: seq<Response>, credited: seq<nat>, index: map<Id, nat>)

  predicate Consistent(c: Credits) {
    && |c.folded| == |c.credited|
    && (forall i :: i in c.index ==> c.index[i] < |c.folded| && c.folded[c.index[i]].id == i)
    && (forall k :: 0 <= k < |c.folded| ==> c.folded[k].id in c.index && c.index[c.folded[k].id] == k)
  }

  function Credit(c: Credits, ref: nat, r: Response): (after: Credits)
    requires Consistent(c)
    ensures Consistent(after)
  {
    if r.id !in c.index then
      Credits(c.folded + [r], c.credited + [ref], c.index[r.id := |c.folded|])
    else
      var before := c.folded[c.index[r.id]];
      if RaisesCounts(before.counts, r.counts)
      then c.(folded := c.folded[c.index[r.id] := before.(counts := LargerCounts(before.counts, r.counts))])
      else c
  }

  function CreditList(c: Credits, ref: nat, rs: seq<Response>): (after: Credits)
    requires Consistent(c)
    ensures Consistent(after)
  {
    if rs == [] then c else Credit(CreditList(c, ref, rs[..|rs| - 1]), ref, rs[|rs| - 1])
  }

  function CreditCards(c: Credits, cards: seq<Card>): (after: Credits)
    requires Consistent(c)
    ensures Consistent(after)
    decreases cards
  {
    if cards == [] then c
    else
      var own := CreditList(c, cards[0].ref, cards[0].responses);
      CreditCards(CreditCards(own, cards[0].children), cards[1..])
  }

  const NO_CREDITS := Credits([], [], map[])

  /** `creditAll`'s own maps, filled by a visit to every card. */
  class Crediting {
    var folded: seq<Response>
    var credited: seq<nat>
    var index: map<Id, nat>

    function View(): Credits
      reads this
    {
      Credits(folded, credited, index)
    }

    constructor ()
      ensures View() == NO_CREDITS
    {
      folded, credited, index := [], [], map[];
    }

    method Visit(c: Card)
      requires Consistent(View())
      modifies this
      ensures Consistent(View())
      ensures View() == CreditCards(old(View()), [c])
      decreases c
    {
      hide Consistent;
      ghost var before := View();
      for k := 0 to |c.responses|
        invariant Consistent(View())
        invariant View() == CreditList(before, c.ref, c.responses[..k])
      {
        assert c.responses[..k + 1][..k] == c.responses[..k];
        KeepResponse(c.ref, c.responses[k]);
      }
      assert c.responses[..|c.responses|] == c.responses;
      ghost var own := View();
      for k := 0 to |c.children|
        invariant Consistent(View())
        invariant View() == CreditCards(own, c.children[..k])
      {
        CreditCardsConcat(own, c.children[..k], [c.children[k]]);
        assert c.children[..k + 1] == c.children[..k] + [c.children[k]];
        Visit(c.children[k]);
      }
      assert c.children[..|c.children|] == c.children;
      assert [c][1..] == [];
    }

    method KeepResponse(ref: nat, r: Response)
      requires Consistent(View())
      modifies this
      ensures Consistent(View()) && View() == Credit(old(View()), ref, r)
    {
      if r.id !in index {
        index := index[r.id := |folded|];
        folded, credited := folded + [r], credited + [ref];
      } else if RaisesCounts(folded[index[r.id]].counts, r.counts) {
        var before := folded[index[r.id]];
        folded := folded[index[r.id] := before.(counts := LargerCounts(before.counts, r.counts))];
      }
    }
  }

  lemma {:induction false} CreditCardsConcat(c: Credits, a: seq<Card>, b: seq<Card>)
    requires Consistent(c)
    ensures CreditCards(c, a + b) == CreditCards(CreditCards(c, a), b)
    decreases a
  {
    hide Consistent;
    if a == [] {
      assert a + b == b;
    } else {
      assert (a + b)[1..] == a[1..] + b;
      var own := CreditList(c, a[0].ref, a[0].responses);
      CreditCardsConcat(CreditCards(own, a[0].children), a[1..], b);
    }
  }

  // ------------------------------------------------------------------ to the first card, at the largest counts

  ghost predicate HoldsId(rs: seq<Response>, i: Id) {
    exists r :: r in rs && r.id == i
  }

  /** The first of `cards` that holds response `i`. */
  ghost function FirstHolder(cards: seq<Card>, i: Id): Option<Card> {
    if cards == [] then None
    else if HoldsId(cards[0].responses, i) then Some(cards[0])
    else FirstHolder(cards[1..], i)
  }

  lemma {:induction false} FirstHolderSnoc(cards: seq<Card>, c: Card, i: Id)
    ensures FirstHolder(cards + [c], i)
         == if FirstHolder(cards, i).Some? then FirstHolder(cards, i)
            else if HoldsId(c.responses, i) then Some(c) else None
  {
    hide HoldsId;
    if cards == [] {
      assert [] + [c] == [c] && [c][1..] == [];
    } else {
      assert (cards + [c])[1..] == cards[1..] + [c];
      FirstHolderSnoc(cards[1..], c, i);
    }
  }

  /** Cards credited one after the other, none of them with what is under it. */
  function CreditRow(c: Credits, cards: seq<Card>): (after: Credits)
    requires Consistent(c)
    ensures Consistent(after)
  {
    if cards == [] then c
    else
      var last := cards[|cards| - 1];
      CreditList(CreditRow(c, cards[..|cards| - 1]), last.ref, last.responses)
  }

  lemma {:induction false} CreditRowConcat(c: Credits, a: seq<Card>, b: seq<Card>)
    requires Consistent(c)
    ensures CreditRow(c, a + b) == CreditRow(CreditRow(c, a), b)
  {
    hide Consistent;
    if b == [] {
      assert a + b == a;
    } else {
      assert (a + b)[..|a + b| - 1] == a + b[..|b| - 1];
      CreditRowConcat(c, a, b[..|b| - 1]);
    }
  }

  /** The nested visits credit the cards in preorder. */
  lemma {:induction false} CreditedInPreorder(c: Credits, cards: seq<Card>)
    requires Consistent(c)
    ensures CreditCards(c, cards) == CreditRow(c, Preorder(cards))
    decreases cards
  {
    hide Consistent;
    if cards != [] {
      var first := cards[0];
      var own := CreditList(c, first.ref, first.responses);
      var a, b := Preorder(first.children), Preorder(cards[1..]);
      PreorderUnfold(cards);
      assert [first][..0] == [] && CreditRow(c, [first]) == own;
      CreditedInPreorder(own, first.children);
      CreditedInPreorder(CreditCards(own, first.children), cards[1..]);
      CreditRowConcat(c, [first], a + b);
      CreditRowConcat(own, a, b);
    }
  }

  /** A response is credited once: where it is stays, and a new one goes to the card at hand. */
  lemma {:induction false} CreditListCredits(c: Credits, ref: nat, rs: seq<Response>, i: Id)
    requires Consistent(c)
    ensures var after := CreditList(c, ref, rs);
      && (i in after.index <==> i in c.index || HoldsId(rs, i))
      && (i in c.index ==> after.index[i] == c.index[i] && after.credited[after.index[i]] == c.credited[c.index[i]])
      && (i in after.index && i !in c.index ==> after.credited[after.index[i]] == ref)
  {
    if rs != [] {
      var front, r := rs[..|rs| - 1], rs[|rs| - 1];
      assert rs == front + [r];
      CreditListCredits(c, ref, front, i);
      assert HoldsId(rs, i) <==> HoldsId(front, i) || r.id == i by {
        assert r in rs;
      }
    }
  }

  lemma {:induction false} CreditRowCredits(cards: seq<Card>, i: Id)
    ensures Consistent(NO_CREDITS)
    ensures var c, holder := CreditRow(NO_CREDITS, cards), FirstHolder(cards, i);
      && (i in c.index <==> holder.Some?)
      && (i in c.index ==> c.credited[c.index[i]] == holder.value.ref)
  {
    if cards != [] {
      var front, last := cards[..|cards| - 1], cards[|cards| - 1];
      assert cards == front + [last];
      CreditRowCredits(front, i);
      FirstHolderSnoc(front, last, i);
      var before := CreditRow(NO_CREDITS, front);
      hide Consistent, HoldsId, FirstHolder;
      CreditListCredits(before, last.ref, last.responses, i);
    }
  }

  /** Each response kept is at the largest output and cache read of the copies met, each of them some copy's. */
  ghost predicate AtLargest(c: Credits, met: set<Response>)
    requires Consistent(c)
  {
    && (forall r :: r in met ==> r.id in c.index && NoMore(r, c.folded[c.index[r.id]]))
    && (forall k :: 0 <= k < |c.folded| ==> OfCopies(c.folded[k], met))
  }

  predicate NoMore(r: Response, kept: Response) {
    r.counts.out <= kept.counts.out && r.counts.cacheRead <= kept.counts.cacheRead
  }

  ghost predicate OfCopies(kept: Response, met: set<Response>) {
    && (exists r :: r in met && r.id == kept.id && r.counts.out == kept.counts.out)
    && (exists r :: r in met && r.id == kept.id && r.counts.cacheRead == kept.counts.cacheRead)
  }

  lemma OfMoreCopies(kept: Response, met: set<Response>, r: Response)
    requires OfCopies(kept, met)
    ensures OfCopies(kept, met + {r})
    ensures r.id == kept.id ==> OfCopies(kept.(counts := LargerCounts(kept.counts, r.counts)), met + {r})
  {
    var a :| a in met && a.id == kept.id && a.counts.out == kept.counts.out;
    var b :| b in met && b.id == kept.id && b.counts.cacheRead == kept.counts.cacheRead;
    var all := met + {r};
    assert a in all && b in all && r in all;
  }

  /** What crediting one copy does to what is kept: nothing, a raise of its own response, or one more. */
  lemma CreditKeeps(c: Credits, ref: nat, r: Response)
    requires Consistent(c)
    ensures var after := Credit(c, ref, r);
      && |c.folded| <= |after.folded| && c.index.Keys + {r.id} == after.index.Keys
      && (forall k :: 0 <= k < |c.folded| ==> RaisedBy(c.folded[k], after.folded[k], r))
      && (forall k :: |c.folded| <= k < |after.folded| ==> after.folded[k] == r)
      && (forall i :: i in c.index ==> after.index[i] == c.index[i] < |c.folded|)
      && after.index[r.id] < |after.folded| && NoMore(r, after.folded[after.index[r.id]])
  {
    if r.id in c.index {
      var at := c.index[r.id];
      RaisedKeeps(c.folded[at], r);
    }
  }

  lemma RaisedKeeps(kept: Response, r: Response)
    requires kept.id == r.id
    ensures var now := kept.(counts := LargerCounts(kept.counts, r.counts)); RaisedBy(kept, now, r) && NoMore(r, now)
    ensures !RaisesCounts(kept.counts, r.counts) ==> NoMore(r, kept)
  {
  }

  predicate RaisedBy(kept: Response, now: Response, r: Response) {
    now == kept || (kept.id == r.id && now == kept.(counts := LargerCounts(kept.counts, r.counts)))
  }

  lemma NoMoreThrough(r: Response, kept: Response, now: Response, next: Response)
    requires NoMore(r, kept) && RaisedBy(kept, now, next)
    ensures NoMore(r, now)
  {
  }

  lemma CreditAtLargest(c: Credits, ref: nat, r: Response, met: set<Response>)
    requires Consistent(c) && AtLargest(c, met)
    ensures AtLargest(Credit(c, ref, r), met + {r})
  {
    var after, all := Credit(c, ref, r), met + {r};
    CreditKeeps(c, ref, r);
    hide Credit, Consistent, NoMore, RaisedBy;
    forall k | 0 <= k < |after.folded|
      ensures OfCopies(after.folded[k], all)
    {
      if k < |c.folded| {
        RaisedIsOfCopies(c.folded[k], after.folded[k], met, r);
      } else {
        OfItself(r, met);
      }
    }
    hide OfCopies;
    forall o | o in met
      ensures o.id in after.index && NoMore(o, after.folded[after.index[o.id]])
    {
      var k := c.index[o.id];
      NoMoreThrough(o, c.folded[k], after.folded[k], r);
    }
  }

  lemma RaisedIsOfCopies(kept: Response, now: Response, met: set<Response>, r: Response)
    requires OfCopies(kept, met) && RaisedBy(kept, now, r)
    ensures OfCopies(now, met + {r})
  {
    OfMoreCopies(kept, met, r);
  }

  lemma OfItself(r: Response, met: set<Response>)
    ensures OfCopies(r, met + {r})
  {
    assert r in met + {r};
  }

  lemma {:induction false} CreditListAtLargest(c: Credits, ref: nat, rs: seq<Response>, met: set<Response>)
    requires Consistent(c) && AtLargest(c, met)
    ensures AtLargest(CreditList(c, ref, rs), met + Elements(rs))
  {
    hide Consistent, AtLargest, Credit;
    if rs == [] {
      assert met + Elements(rs) == met;
    } else {
      var front, r := rs[..|rs| - 1], rs[|rs| - 1];
      assert rs == front + [r];
      CreditListAtLargest(c, ref, front, met);
      CreditAtLargest(CreditList(c, ref, front), ref, r, met + Elements(front));
      ElementsConcat(front, [r]);
      assert met + Elements(front) + {r} == met + Elements(rs);
    }
  }

  lemma {:induction false} CreditCardsAtLargest(c: Credits, cards: seq<Card>, met: set<Response>)
    requires Consistent(c) && AtLargest(c, met)
    ensures AtLargest(CreditCards(c, cards), met + Elements(ResponsesOf(cards)))
    decreases cards
  {
    hide Consistent, AtLargest, CreditList;
    if cards == [] {
      assert met + Elements(ResponsesOf(cards)) == met;
    } else {
      var first := cards[0];
      var x, y, z := first.responses, ResponsesOf(first.children), ResponsesOf(cards[1..]);
      var own := CreditList(c, first.ref, x);
      CreditListAtLargest(c, first.ref, x, met);
      CreditCardsAtLargest(own, first.children, met + Elements(x));
      CreditCardsAtLargest(CreditCards(own, first.children), cards[1..], met + Elements(x) + Elements(y));
      assert ResponsesOf(cards) == x + y + z;
      ElementsConcat(x + y, z);
      ElementsConcat(x, y);
      assert met + Elements(x) + Elements(y) + Elements(z) == met + Elements(ResponsesOf(cards));
    }
  }

  /**
    Whatever the forest, a response is kept exactly when some card holds it, and is credited to
    the first card in preorder that does, at the largest output and cache read any copy has.
    */
  lemma FirstHolderIsCredited(roots: seq<Card>, i: Id)
    ensures Consistent(NO_CREDITS)
    ensures var c, holder := CreditCards(NO_CREDITS, roots), FirstHolder(Preorder(roots), i);
      && (i in c.index <==> holder.Some?)
      && (i in c.index ==>
            var kept := c.folded[c.index[i]];
            && kept.id == i && c.credited[c.index[i]] == holder.value.ref
            && (forall r :: r in ResponsesOf(roots) && r.id == i ==> NoMore(r, kept))
            && OfCopies(kept, Elements(ResponsesOf(roots))))
  {
    CreditRowCredits(Preorder(roots), i);
    CreditedInPreorder(NO_CREDITS, roots);
    CreditCardsAtLargest(NO_CREDITS, roots, {});
    assert {} + Elements(ResponsesOf(roots)) == Elements(ResponsesOf(roots));
    hide CreditCards, CreditRow, FirstHolder, Preorder, OfCopies, NoMore;
    var c := CreditCards(NO_CREDITS, roots);
    assert forall r :: r in ResponsesOf(roots) ==> r in Elements(ResponsesOf(roots));
  }

  // ------------------------------------------------------------------ shares

  /** The output of `ref`'s credited responses in one group, or nothing when it has none there. */
  function Share(c: Credits, ref: nat, key: Group): Option<nat>
    requires |c.folded| == |c.credited|
  {
    ShareUpTo(c, |c.folded|, ref, key)
  }

  function ShareUpTo(c: Credits, n: nat, ref: nat, key: Group): Option<nat>
    requires n <= |c.folded| == |c.credited|
  {
    if n == 0 then None
    else
      var before := ShareUpTo(c, n - 1, ref, key);
      if c.credited[n - 1] == ref && GroupOf(c.folded[n - 1].branch) == key
      then Some(OutOf(before) + c.folded[n - 1].counts.out)
      else before
  }

  function OutOf(o: Option<nat>): nat {
    if o.Some? then o.value else 0
  }

  /** The group a card is in now: its own branch's, else its parent's. */
  function HomeOf(c: Card, parentHome: Option<Group>): Group {
    if c.branch.Some? then GroupOf(c.branch) else if parentHome.Some? then parentHome.value else Other
  }

  /** Where every card of a forest is placed. */
  function Homes(cards: seq<Card>, parentHome: Option<Group>): map<nat, Group> {
    if cards == [] then map[]
    else
      var home := HomeOf(cards[0], parentHome);
      map[cards[0].ref := home] + Homes(cards[0].children, Some(home)) + Homes(cards[1..], parentHome)
  }

  /** The groups those places are. */
  function HomeGroups(cards: seq<Card>, parentHome: Option<Group>): set<Group> {
    if cards == [] then {}
    else
      var home := HomeOf(cards[0], parentHome);
      {home} + HomeGroups(cards[0].children, Some(home)) + HomeGroups(cards[1..], parentHome)
  }

  function RefsOf(cards: seq<Card>): seq<nat> {
    seq(|cards|, k requires 0 <= k < |cards| => cards[k].ref)
  }

  ghost predicate DistinctRefs(cards: seq<Card>) {
    forall j, k :: 0 <= j < k < |cards| ==> cards[j].ref != cards[k].ref
  }

  lemma {:induction false} HomesPlaceEveryCard(cards: seq<Card>, parentHome: Option<Group>)
    ensures forall c :: c in Preorder(cards) ==> c.ref in Homes(cards, parentHome)
    ensures forall ref :: ref in Homes(cards, parentHome) ==> exists c :: c in Preorder(cards) && c.ref == ref
  {
    if cards != [] {
      var home := HomeOf(cards[0], parentHome);
      HomesPlaceEveryCard(cards[0].children, Some(home));
      HomesPlaceEveryCard(cards[1..], parentHome);
    }
  }

  /** A card's output group by group, and its home. */
  datatype CardShares = CardShares(byGroup: map<Group, nat>, home: Group)

  type Shares = map<nat, CardShares>

  function OwnShare(shares: Shares, ref: nat, key: Group): Option<nat> {
    if ref in shares && key in shares[ref].byGroup then Some(shares[ref].byGroup[key]) else None
  }

  predicate AtHome(shares: Shares, ref: nat, key: Group) {
    ref in shares && shares[ref].home == key
  }

  /** The slice of group `key` a card draws, if it draws one. */
  function SliceOf(c: Card, key: Group, shares: Shares): Option<Slice> {
    var children := SlicesOf(c.children, key, shares);
    var own := OwnShare(shares, c.ref, key);
    if own.None? && !AtHome(shares, c.ref, key) && children == [] then None
    else Some(Slice(c.id, OutOf(own), OutOf(own) + SubtreeOuts(children), children))
  }

  function SlicesOf(cards: seq<Card>, key: Group, shares: Shares): seq<Slice> {
    if cards == [] then []
    else
      var first := SliceOf(cards[0], key, shares);
      (if first.Some? then [first.value] else []) + SlicesOf(cards[1..], key, shares)
  }

  function SubtreeOuts(slices: seq<Slice>): nat {
    if slices == [] then 0 else slices[0].subtreeOut + SubtreeOuts(slices[1..])
  }

  /** `shares` says where every card is and what it spent in each group. */
  ghost predicate AreShares(shares: Shares, c: Credits, homes: map<nat, Group>)
    requires Consistent(c)
  {
    && shares.Keys == homes.Keys
    && (forall ref :: ref in shares ==> shares[ref].home == homes[ref])
    && (forall ref, key :: ref in shares ==> OwnShare(shares, ref, key) == Share(c, ref, key))
  }

  // ------------------------------------------------------------------ placing and sharing

  /** The second half of `creditAll`: where each card is, then what it spent where. */
  class Sharing {
    var shares: Shares
    var groups: set<Group>

    constructor ()
      ensures shares == map[] && groups == {}
    {
      shares, groups := map[], {};
    }

    function PlacedHomes(): map<nat, Group>
      reads this
    {
      map ref | ref in shares :: shares[ref].home
    }

    /** Nothing is shared out yet: every placed card's shares are empty. */
    ghost predicate OnlyPlaced()
      reads this
    {
      forall ref :: ref in shares ==> shares[ref].byGroup == map[]
    }

    method PlaceOne(ref: nat, home: Group)
      requires OnlyPlaced()
      modifies this
      ensures OnlyPlaced()
      ensures PlacedHomes() == old(PlacedHomes()) + map[ref := home]
      ensures groups == old(groups) + {home}
    {
      groups := groups + {home};
      shares := shares[ref := CardShares(map[], home)];
    }

    method Place(c: Card, parentHome: Option<Group>)
      requires OnlyPlaced()
      modifies this
      ensures OnlyPlaced()
      ensures PlacedHomes() == old(PlacedHomes()) + Homes([c], parentHome)
      ensures groups == old(groups) + HomeGroups([c], parentHome)
      decreases c
    {
      hide Homes, HomeGroups, HomeOf;
      var home := HomeOf(c, parentHome);
      ghost var before := PlacedHomes();
      PlaceOne(c.ref, home);
      ghost var placed := PlacedHomes();
      NoHomes(Some(home));
      for k := 0 to |c.children|
        invariant OnlyPlaced()
        invariant PlacedHomes() == placed + Homes(c.children[..k], Some(home))
        invariant groups == old(groups) + {home} + HomeGroups(c.children[..k], Some(home))
      {
        HomesConcat(c.children[..k], [c.children[k]], Some(home));
        assert c.children[..k + 1] == c.children[..k] + [c.children[k]];
        Place(c.children[k], Some(home));
        PlusAssociates(placed, Homes(c.children[..k], Some(home)), Homes([c.children[k]], Some(home)));
      }
      assert c.children[..|c.children|] == c.children;
      HomesOfOne(c, parentHome);
      PlusAssociates(before, map[c.ref := home], Homes(c.children, Some(home)));
    }

    method ShareOne(ref: nat, key: Group, out: nat)
      requires ref in shares
      modifies this
      ensures shares.Keys == old(shares).Keys && groups == old(groups) + {key}
      ensures forall x :: x in shares ==> shares[x].home == old(shares)[x].home
      ensures forall x, g :: x in shares ==>
        OwnShare(shares, x, g) == if x == ref && g == key then Some(OutOf(OwnShare(old(shares), x, g)) + out)
                                  else OwnShare(old(shares), x, g)
    {
      groups := groups + {key};
      var spent := OutOf(OwnShare(shares, ref, key)) + out;
      shares := shares[ref := shares[ref].(byGroup := shares[ref].byGroup[key := spent])];
    }

    /** One credited response more. */
    method ShareNext(c: Credits, k: nat, ghost homes: map<nat, Group>)
      requires k < |c.folded| == |c.credited| && c.credited[k] in shares && SharedTo(shares, c, k, homes)
      modifies this
      ensures shares.Keys == old(shares).Keys && SharedTo(shares, c, k + 1, homes)
      ensures groups == old(groups) + {GroupOf(c.folded[k].branch)}
    {
      hide GroupOf, OwnShare, SharedTo;
      ghost var before := shares;
      ShareOne(c.credited[k], GroupOf(c.folded[k].branch), c.folded[k].counts.out);
      OneMoreShared(before, shares, c, k, homes);
    }

    /** Each credited response's output, added to its card's share of its branch's group. */
    method ShareOut(c: Credits)
      requires OnlyPlaced() && Consistent(c)
      requires forall k :: 0 <= k < |c.credited| ==> c.credited[k] in shares
      modifies this
      ensures AreShares(shares, c, old(PlacedHomes()))
      ensures groups == old(groups) + ResponseGroups(c.folded)
    {
      assert |c.folded| == |c.credited|;
      ghost var homes := PlacedHomes();
      NothingShared(shares, c, homes);
      NoGroups();
      hide *;
      for k := 0 to |c.folded|
        invariant shares.Keys == old(shares).Keys && SharedTo(shares, c, k, homes)
        invariant groups == old(groups) + ResponseGroups(c.folded[..k])
      {
        ResponseGroupsSnoc(c.folded[..k], c.folded[k]);
        assert c.folded[..k + 1] == c.folded[..k] + [c.folded[k]];
        ShareNext(c, k, homes);
      }
      assert c.folded[..|c.folded|] == c.folded;
      AllShared(shares, c, homes);
    }
  }

  /** The first `n` credited responses are shared out. */
  ghost predicate SharedTo(shares: Shares, c: Credits, n: nat, homes: map<nat, Group>)
    requires n <= |c.folded| == |c.credited|
  {
    && shares.Keys == homes.Keys
    && (forall ref :: ref in shares ==> shares[ref].home == homes[ref])
    && (forall ref, key :: ref in shares ==> OwnShare(shares, ref, key) == ShareUpTo(c, n, ref, key))
  }

  lemma NothingShared(shares: Shares, c: Credits, homes: map<nat, Group>)
    requires |c.folded| == |c.credited| && homes == map ref | ref in shares :: shares[ref].home
    requires forall ref :: ref in shares ==> shares[ref].byGroup == map[]
    ensures SharedTo(shares, c, 0, homes)
  {
  }

  lemma NoGroups()
    ensures ResponseGroups([]) == {}
  {
  }

  lemma OneMoreShared(before: Shares, after: Shares, c: Credits, k: nat, homes: map<nat, Group>)
    requires k < |c.folded| == |c.credited| && SharedTo(before, c, k, homes)
    requires after.Keys == before.Keys && forall x :: x in after ==> after[x].home == before[x].home
    requires var ref, key, out := c.credited[k], GroupOf(c.folded[k].branch), c.folded[k].counts.out;
      forall x, g :: x in after ==>
        OwnShare(after, x, g) == if x == ref && g == key then Some(OutOf(OwnShare(before, x, g)) + out)
                                 else OwnShare(before, x, g)
    ensures SharedTo(after, c, k + 1, homes)
  {
    hide GroupOf, OwnShare;
  }

  lemma AllShared(shares: Shares, c: Credits, homes: map<nat, Group>)
    requires Consistent(c) && SharedTo(shares, c, |c.folded|, homes)
    ensures AreShares(shares, c, homes)
  {
    hide Consistent, OwnShare, ShareUpTo;
  }

  function ResponseGroups(rs: seq<Response>): set<Group> {
    set r | r in rs :: GroupOf(r.branch)
  }

  lemma ResponseGroupsSnoc(rs: seq<Response>, r: Response)
    ensures ResponseGroups(rs + [r]) == ResponseGroups(rs) + {GroupOf(r.branch)}
  {
  }

  lemma PlusAssociates(a: map<nat, Group>, b: map<nat, Group>, c: map<nat, Group>)
    ensures (a + b) + c == a + (b + c)
  {
  }

  lemma NoHomes(parentHome: Option<Group>)
    ensures Homes([], parentHome) == map[] && HomeGroups([], parentHome) == {}
  {
  }

  lemma HomesOfOne(c: Card, parentHome: Option<Group>)
    ensures var home := HomeOf(c, parentHome);
      && Homes([c], parentHome) == map[c.ref := home] + Homes(c.children, Some(home))
      && HomeGroups([c], parentHome) == {home} + HomeGroups(c.children, Some(home))
  {
    assert [c][1..] == [];
  }

  lemma {:induction false} HomesConcat(a: seq<Card>, b: seq<Card>, parentHome: Option<Group>)
    ensures Homes(a + b, parentHome) == Homes(a, parentHome) + Homes(b, parentHome)
    ensures HomeGroups(a + b, parentHome) == HomeGroups(a, parentHome) + HomeGroups(b, parentHome)
  {
    if a == [] {
      assert a + b == b;
    } else {
      assert (a + b)[1..] == a[1..] + b;
      HomesConcat(a[1..], b, parentHome);
      var home := HomeOf(a[0], parentHome);
      PlusAssociates(map[a[0].ref := home] + Homes(a[0].children, Some(home)),
                     Homes(a[1..], parentHome), Homes(b, parentHome));
    }
  }

  // ------------------------------------------------------------------ totals

  /** The output of the responses that ran in group `key`. */
  function GroupSum(rs: seq<Response>, key: Group): nat {
    if rs == [] then 0
    else
      var r := rs[|rs| - 1];
      GroupSum(rs[..|rs| - 1], key) + if GroupOf(r.branch) == key then r.counts.out else 0
  }

  /** What some cards' own shares of a group come to. */
  function SumOwn(cards: seq<Card>, key: Group, shares: Shares): nat {
    if cards == [] then 0 else OutOf(OwnShare(shares, cards[0].ref, key)) + SumOwn(cards[1..], key, shares)
  }

  lemma {:induction false} SumOwnConcat(a: seq<Card>, b: seq<Card>, key: Group, shares: Shares)
    ensures SumOwn(a + b, key, shares) == SumOwn(a, key, shares) + SumOwn(b, key, shares)
  {
    if a == [] {
      assert a + b == b;
    } else {
      assert (a + b)[1..] == a[1..] + b;
      SumOwnConcat(a[1..], b, key, shares);
    }
  }

  lemma PreorderUnfold(cards: seq<Card>)
    requires cards != []
    ensures Preorder(cards) == [cards[0]] + (Preorder(cards[0].children) + Preorder(cards[1..]))
  {
  }

  /** The slices drawn hold everything the cards spent in the group: nothing is hidden with a card left out. */
  lemma {:induction false} SlicesHoldEverything(cards: seq<Card>, key: Group, shares: Shares)
    ensures SubtreeOuts(SlicesOf(cards, key, shares)) == SumOwn(Preorder(cards), key, shares)
    decreases cards
  {
    if cards != [] {
      var c := cards[0];
      SlicesHoldEverything(c.children, key, shares);
      SlicesHoldEverything(cards[1..], key, shares);
      PreorderUnfold(cards);
      SumOwnConcat(Preorder(c.children), Preorder(cards[1..]), key, shares);
      var first, rest := SliceOf(c, key, shares), SlicesOf(cards[1..], key, shares);
      assert ([c] + (Preorder(c.children) + Preorder(cards[1..])))[1..] == Preorder(c.children) + Preorder(cards[1..]);
      if first.Some? {
        assert ([first.value] + rest)[1..] == rest;
      } else {
        assert [] + rest == rest;
      }
    }
  }

  ghost predicate HasPart(cards: seq<Card>, key: Group, shares: Shares) {
    exists c :: c in cards && (OwnShare(shares, c.ref, key).Some? || AtHome(shares, c.ref, key))
  }

  /** A slice is drawn exactly when some card under it spent in the group or is in it. */
  lemma {:induction false} SlicesDrawn(cards: seq<Card>, key: Group, shares: Shares)
    ensures SlicesOf(cards, key, shares) != [] <==> HasPart(Preorder(cards), key, shares)
    decreases cards
  {
    if cards != [] {
      var c := cards[0];
      SlicesDrawn(c.children, key, shares);
      SlicesDrawn(cards[1..], key, shares);
      PreorderUnfold(cards);
      var all := [c] + (Preorder(c.children) + Preorder(cards[1..]));
      assert forall x :: x in all <==> x == c || x in Preorder(c.children) || x in Preorder(cards[1..]);
    }
  }

  // ---------------------------------------------------- each response counted on one card

  /** What `n` credited responses come to over some cards, in one group. */
  function SumShares(refs: seq<nat>, c: Credits, n: nat, key: Group): nat
    requires n <= |c.folded| == |c.credited|
  {
    if refs == [] then 0 else OutOf(ShareUpTo(c, n, refs[0], key)) + SumShares(refs[1..], c, n, key)
  }

  lemma {:induction false} SumSharesStep(refs: seq<nat>, c: Credits, n: nat, key: Group)
    requires 0 < n <= |c.folded| == |c.credited|
    requires forall j, k :: 0 <= j < k < |refs| ==> refs[j] != refs[k]
    ensures SumShares(refs, c, n, key)
         == SumShares(refs, c, n - 1, key)
            + if c.credited[n - 1] in refs && GroupOf(c.folded[n - 1].branch) == key
              then c.folded[n - 1].counts.out else 0
  {
    hide GroupOf;
    if refs != [] {
      SumSharesStep(refs[1..], c, n, key);
      assert refs == [refs[0]] + refs[1..];
    }
  }

  /** Every credited response is on exactly one of the cards, so their shares come to the whole group. */
  lemma {:induction false} SharesSumToGroup(refs: seq<nat>, c: Credits, n: nat, key: Group)
    requires n <= |c.folded| == |c.credited|
    requires forall j, k :: 0 <= j < k < |refs| ==> refs[j] != refs[k]
    requires forall k :: 0 <= k < |c.credited| ==> c.credited[k] in refs
    ensures SumShares(refs, c, n, key) == GroupSum(c.folded[..n], key)
  {
    if n == 0 {
      NoSharesYet(refs, c, key);
    } else {
      SharesSumToGroup(refs, c, n - 1, key);
      SumSharesStep(refs, c, n, key);
      assert c.folded[..n][..n - 1] == c.folded[..n - 1];
    }
  }

  lemma {:induction false} NoSharesYet(refs: seq<nat>, c: Credits, key: Group)
    requires |c.folded| == |c.credited|
    ensures SumShares(refs, c, 0, key) == 0
  {
    if refs != [] {
      NoSharesYet(refs[1..], c, key);
    }
  }

  lemma {:induction false} SumOwnIsSumShares(cards: seq<Card>, key: Group, shares: Shares, c: Credits,
                                             homes: map<nat, Group>)
    requires Consistent(c) && AreShares(shares, c, homes)
    requires forall x :: x in cards ==> x.ref in shares
    ensures SumOwn(cards, key, shares) == SumShares(RefsOf(cards), c, |c.folded|, key)
  {
    hide Consistent;
    if cards != [] {
      assert RefsOf(cards)[1..] == RefsOf(cards[1..]);
      assert cards[0] in cards;
      SumOwnIsSumShares(cards[1..], key, shares, c, homes);
    }
  }

  lemma {:induction false} CreditListRefs(c: Credits, ref: nat, rs: seq<Response>)
    requires Consistent(c)
    ensures forall x :: x in CreditList(c, ref, rs).credited ==> x in c.credited || x == ref
  {
    hide Consistent;
    if rs != [] {
      CreditListRefs(c, ref, rs[..|rs| - 1]);
    }
  }

  /** A response is credited to a card that was visited. */
  lemma {:induction false} CreditedToCards(c: Credits, cards: seq<Card>)
    requires Consistent(c)
    ensures forall x :: x in CreditCards(c, cards).credited ==> x in c.credited || x in RefsOf(Preorder(cards))
    decreases cards
  {
    hide Consistent;
    if cards != [] {
      var first := cards[0];
      var own := CreditList(c, first.ref, first.responses);
      CreditListRefs(c, first.ref, first.responses);
      CreditedToCards(own, first.children);
      CreditedToCards(CreditCards(own, first.children), cards[1..]);
      PreorderUnfold(cards);
      var a, b := Preorder(first.children), Preorder(cards[1..]);
      RefsOfConcat(a, b);
      RefsOfConcat([first], a + b);
      assert RefsOf([first])[0] == first.ref;
    }
  }

  lemma RefsOfConcat(a: seq<Card>, b: seq<Card>)
    ensures RefsOf(a + b) == RefsOf(a) + RefsOf(b)
    ensures forall x :: x in RefsOf(a + b) <==> x in RefsOf(a) || x in RefsOf(b)
  {
    assert RefsOf(a + b) == RefsOf(a) + RefsOf(b);
  }

  lemma {:induction false} GroupSumSkips(rs: seq<Response>, key: Group)
    requires key !in ResponseGroups(rs)
    ensures GroupSum(rs, key) == 0
  {
    if rs != [] {
      var front, last := rs[..|rs| - 1], rs[|rs| - 1];
      assert rs == front + [last];
      ResponseGroupsSnoc(front, last);
      GroupSumSkips(front, key);
    }
  }

  /** The Usage page's figure for an issue is the group's: `tallySpend` over the same responses. */
  lemma {:induction false} GroupSumIsTally(rs: seq<Response>, branches: set<string>, n: nat)
    requires BranchesIn(rs) <= branches
    ensures GroupSum(rs, Issue(n)) == SumOut(On(rs, Naming(branches, IssueOfBranch, n)))
  {
    if rs != [] {
      hide GroupOf, IssueOfBranch;
      var front, r := rs[..|rs| - 1], rs[|rs| - 1];
      var named := Naming(branches, IssueOfBranch, n);
      assert rs == front + [r];
      BranchesInSnoc(front, r);
      GroupSumIsTally(front, branches, n);
      GroupIsIssue(r, n);
      OnSnoc(front, r, named);
      assert On(front, named) + [] == On(front, named);
      assert (On(front, named) + [r])[..|On(front, named)|] == On(front, named);
    }
  }

  /** What the Usage page shows for issue `n`, or zero when it shows no such issue. */
  function UsageFigure(byIssue: map<nat, Spend>, n: nat): nat {
    if n in byIssue then byIssue[n].out else 0
  }

  /** An issue group's figure is the Usage page's for that issue, over the same responses. */
  lemma FigureIsGroupSum(rs: seq<Response>, byIssue: map<nat, Spend>, off: Unattributed, n: nat)
    requires IsTally(byIssue, off, rs, IssueOfBranch)
    ensures UsageFigure(byIssue, n) == GroupSum(rs, Issue(n))
  {
    hide IssueOfBranch, GroupOf, BranchesIn;
    GroupSumIsTally(rs, BranchesIn(rs), n);
    var named := Naming(BranchesIn(rs), IssueOfBranch, n);
    SumOutIsSummary(On(rs, named));
    if n !in byIssue {
      assert named == {};
      NothingOn(rs, {});
    }
  }

  /** What a reading's groups promise of the responses credited to its cards. */
  ghost predicate AccountsFor(groups: seq<SessionGroup>, c: Credits) {
    && (forall j, k :: 0 <= j < k < |groups| ==> groups[j].key != groups[k].key)
    && (forall g :: g in groups ==>
          && g.sessions != []
          && g.out == GroupSum(c.folded, g.key)
          && SubtreeOuts(g.sessions) == g.out)
    && (forall key :: key in ResponseGroups(c.folded) ==> exists g :: g in groups && g.key == key)
  }

  /** A group's slices come to the group. */
  lemma GroupOfForestSums(roots: seq<Card>, key: Group, shares: Shares, c: Credits, homes: map<nat, Group>)
    requires DistinctRefs(Preorder(roots)) && homes == Homes(roots, None)
    requires c == CreditCards(NO_CREDITS, roots) && AreShares(shares, c, homes)
    ensures SubtreeOuts(SlicesOf(roots, key, shares)) == GroupSum(c.folded, key)
  {
    hide CreditCards, Preorder, GroupOf, Homes, SlicesOf, Share, OwnShare;
    var cards := Preorder(roots);
    SlicesHoldEverything(roots, key, shares);
    HomesPlaceEveryCard(roots, None);
    SumOwnIsSumShares(cards, key, shares, c, homes);
    CreditedToCards(NO_CREDITS, roots);
    SharesSumToGroup(RefsOf(cards), c, |c.folded|, key);
    assert c.folded[..|c.folded|] == c.folded;
  }

  /** A key somebody worked in, or is in, has a session to draw. */
  lemma GroupOfForestDrawn(roots: seq<Card>, key: Group, shares: Shares, c: Credits, homes: map<nat, Group>)
    requires homes == Homes(roots, None)
    requires c == CreditCards(NO_CREDITS, roots) && AreShares(shares, c, homes)
    requires key in ResponseGroups(c.folded) || key in homes.Values
    ensures SlicesOf(roots, key, shares) != []
  {
    hide CreditCards, Preorder, GroupOf, Homes, SlicesOf, OwnShare;
    var cards := Preorder(roots);
    HomesPlaceEveryCard(roots, None);
    CreditedToCards(NO_CREDITS, roots);
    SlicesDrawn(roots, key, shares);
    if key in homes.Values {
      var ref :| ref in homes && homes[ref] == key;
      var x :| x in cards && x.ref == ref;
      assert AtHome(shares, x.ref, key);
    } else {
      assert c.folded[..|c.folded|] == c.folded;
      ShareExists(c, |c.folded|, key);
      var ref :| ref in c.credited && Share(c, ref, key).Some?;
      var k :| 0 <= k < |cards| && RefsOf(cards)[k] == ref;
      assert OwnShare(shares, cards[k].ref, key).Some?;
    }
  }

  /** A group some response ran in is some card's. */
  lemma {:induction false} ShareExists(c: Credits, n: nat, key: Group)
    requires n <= |c.folded| == |c.credited|
    requires key in ResponseGroups(c.folded[..n])
    ensures exists ref :: ref in c.credited && ShareUpTo(c, n, ref, key).Some?
  {
    hide GroupOf;
    if GroupOf(c.folded[n - 1].branch) == key {
      assert c.credited[n - 1] in c.credited && ShareUpTo(c, n, c.credited[n - 1], key).Some?;
    } else {
      assert c.folded[..n] == c.folded[..n - 1] + [c.folded[n - 1]];
      ResponseGroupsSnoc(c.folded[..n - 1], c.folded[n - 1]);
      ShareExists(c, n - 1, key);
      var ref :| ref in c.credited && ShareUpTo(c, n - 1, ref, key).Some?;
      assert ShareUpTo(c, n, ref, key).Some?;
    }
  }

  lemma DistinctParts(cards: seq<Card>)
    requires cards != [] && DistinctRefs(Preorder(cards))
    ensures var a, b := Preorder(cards[0].children), Preorder(cards[1..]);
      DistinctRefs(a) && DistinctRefs(b) && DistinctRefs([cards[0]] + (a + b))
  {
    PreorderUnfold(cards);
    var a, b := Preorder(cards[0].children), Preorder(cards[1..]);
    var all := [cards[0]] + (a + b);
    assert a == all[1..1 + |a|] && b == all[1 + |a|..];
  }

  lemma DisjointHomes(first: Card, children: seq<Card>, rest: seq<Card>, home: Group, parentHome: Option<Group>)
    requires DistinctRefs([first] + (Preorder(children) + Preorder(rest)))
    ensures first.ref !in Homes(children, Some(home)) && first.ref !in Homes(rest, parentHome)
    ensures Homes(children, Some(home)).Keys !! Homes(rest, parentHome).Keys
  {
    hide Homes, Preorder;
    HomesPlaceEveryCard(children, Some(home));
    HomesPlaceEveryCard(rest, parentHome);
    DistinctAcross(first, Preorder(children), Preorder(rest));
  }

  lemma {:induction false} HomeGroupsAreHomes(cards: seq<Card>, parentHome: Option<Group>)
    requires DistinctRefs(Preorder(cards))
    ensures HomeGroups(cards, parentHome) == Homes(cards, parentHome).Values
    decreases cards
  {
    hide Preorder, DistinctRefs;
    if cards != [] {
      var first, rest := cards[0], cards[1..];
      var home := HomeOf(first, parentHome);
      DistinctParts(cards);
      DisjointHomes(first, first.children, rest, home, parentHome);
      HomeGroupsAreHomes(first.children, Some(home));
      HomeGroupsAreHomes(rest, parentHome);
      var x, y, z := map[first.ref := home], Homes(first.children, Some(home)), Homes(rest, parentHome);
      DisjointValues(x, y);
      DisjointValues(x + y, z);
      assert x.Values == {home};
    }
  }

  lemma DisjointValues(a: map<nat, Group>, b: map<nat, Group>)
    requires a.Keys !! b.Keys
    ensures (a + b).Values == a.Values + b.Values
  {
    var all := a + b;
    forall v | v in a.Values
      ensures v in all.Values
    {
      var k :| k in a && a[k] == v;
      assert all[k] == v;
    }
    forall v | v in b.Values
      ensures v in all.Values
    {
      var k :| k in b && b[k] == v;
      assert all[k] == v;
    }
  }

  lemma DistinctAcross(first: Card, a: seq<Card>, b: seq<Card>)
    requires DistinctRefs([first] + (a + b))
    ensures forall x, y :: x in a && y in b ==> x.ref != y.ref
    ensures forall x :: x in a || x in b ==> x.ref != first.ref
  {
    var all := [first] + (a + b);
    forall x, y | x in a && y in b
      ensures x.ref != y.ref
    {
      var j :| 0 <= j < |a| && a[j] == x;
      var k :| 0 <= k < |b| && b[k] == y;
      assert all[1 + j] == x && all[1 + |a| + k] == y;
    }
    forall x | x in a || x in b
      ensures x.ref != first.ref
    {
      assert x in a + b;
      var j :| 0 <= j < |a + b| && (a + b)[j] == x;
      assert all[0] == first && all[1 + j] == x;
    }
  }

  /** Every card visited and placed, and every credited response shared out. */
  method CreditAll(roots: seq<Card>) returns (c: Credits, shares: Shares, groups: set<Group>)
    requires DistinctRefs(Preorder(roots))
    ensures c == CreditCards(NO_CREDITS, roots) && Consistent(c)
    ensures AreShares(shares, c, Homes(roots, None))
    ensures groups == Homes(roots, None).Values + ResponseGroups(c.folded)
  {
    hide Consistent, CreditCards, Homes, HomeGroups, Preorder, ResponseGroups;
    var crediting := new Crediting();
    NothingCredited();
    NoHomes(None);
    for k := 0 to |roots|
      invariant Consistent(crediting.View())
      invariant crediting.View() == CreditCards(NO_CREDITS, roots[..k])
    {
      CreditCardsConcat(NO_CREDITS, roots[..k], [roots[k]]);
      assert roots[..k + 1] == roots[..k] + [roots[k]];
      crediting.Visit(roots[k]);
    }
    assert roots[..|roots|] == roots;
    c := crediting.View();
    var sharing := new Sharing();
    for k := 0 to |roots|
      invariant sharing.OnlyPlaced()
      invariant sharing.PlacedHomes() == Homes(roots[..k], None)
      invariant sharing.groups == HomeGroups(roots[..k], None)
    {
      HomesConcat(roots[..k], [roots[k]], None);
      assert roots[..k + 1] == roots[..k] + [roots[k]];
      sharing.Place(roots[k], None);
    }
    HomeGroupsAreHomes(roots, None);
    HomesPlaceEveryCard(roots, None);
    CreditedToCards(NO_CREDITS, roots);
    CreditedArePlaced(c, Preorder(roots), sharing.PlacedHomes());
    sharing.ShareOut(c);
    shares, groups := sharing.shares, sharing.groups;
  }

  lemma CreditedArePlaced(c: Credits, cards: seq<Card>, homes: map<nat, Group>)
    requires forall x :: x in c.credited ==> x in RefsOf(cards)
    requires forall x :: x in cards ==> x.ref in homes
    ensures forall k :: 0 <= k < |c.credited| ==> c.credited[k] in homes
  {
    forall k | 0 <= k < |c.credited|
      ensures c.credited[k] in homes
    {
      assert c.credited[k] in c.credited;
      var j :| 0 <= j < |cards| && RefsOf(cards)[j] == c.credited[k];
      assert cards[j] in cards;
    }
  }

  lemma NothingCredited()
    ensures Consistent(NO_CREDITS) && CreditCards(NO_CREDITS, []) == NO_CREDITS
  {
  }

  // ------------------------------------------------------------------ the groups in order

  /** What groups are ordered by: their kind, their most recently started session, their issue. */
  datatype Place = Place(rank: nat, first: nat, issue: nat)

  /** Where the first session with a part in the group stands among `roots`, the newest first. */
  function FirstIn(roots: seq<Card>, key: Group, shares: Shares): nat {
    if roots == [] || SliceOf(roots[0], key, shares).Some? then 0 else 1 + FirstIn(roots[1..], key, shares)
  }

  function PlaceOf(roots: seq<Card>, key: Group, shares: Shares): Place {
    var first := FirstIn(roots, key, shares);
    match key
    case Issue(n) => Place(0, first, n)
    case Base => Place(1, first, 0)
    case Other => Place(2, first, 0)
  }

  predicate Ahead(a: Place, b: Place) {
    a.rank < b.rank || (a.rank == b.rank && (a.first < b.first || (a.first == b.first && a.issue < b.issue)))
  }

  predicate Before(roots: seq<Card>, shares: Shares, a: SessionGroup, b: SessionGroup) {
    Ahead(PlaceOf(roots, a.key, shares), PlaceOf(roots, b.key, shares))
  }

  ghost predicate InOrder(roots: seq<Card>, shares: Shares, groups: seq<SessionGroup>) {
    forall j, k :: 0 <= j < k < |groups| ==> Before(roots, shares, groups[j], groups[k])
  }

  /** No two groups share a place. */
  lemma PlacesApart(roots: seq<Card>, shares: Shares, a: SessionGroup, b: SessionGroup, c: SessionGroup)
    ensures a.key != b.key <==> Before(roots, shares, a, b) || Before(roots, shares, b, a)
    ensures Before(roots, shares, a, b) && Before(roots, shares, b, c) ==> Before(roots, shares, a, c)
  {
    hide FirstIn;
  }

  /** The group put where it goes among the others. */
  function Inserted(roots: seq<Card>, shares: Shares, groups: seq<SessionGroup>, g: SessionGroup)
    : (all: seq<SessionGroup>)
    ensures forall x :: x in all <==> x in groups || x == g
  {
    if groups == [] || Before(roots, shares, g, groups[0]) then [g] + groups
    else
      var rest := Inserted(roots, shares, groups[1..], g);
      assert groups == [groups[0]] + groups[1..];
      [groups[0]] + rest
  }

  lemma {:induction false} InsertedInOrder(roots: seq<Card>, shares: Shares, groups: seq<SessionGroup>, g: SessionGroup)
    requires InOrder(roots, shares, groups) && forall x :: x in groups ==> x.key != g.key
    ensures InOrder(roots, shares, Inserted(roots, shares, groups, g))
  {
    hide Before;
    var all := Inserted(roots, shares, groups, g);
    if groups == [] {
    } else if Before(roots, shares, g, groups[0]) {
      forall k | 0 <= k < |groups|
        ensures Before(roots, shares, g, groups[k])
      {
        PlacesApart(roots, shares, g, groups[0], groups[k]);
      }
    } else {
      InsertedInOrder(roots, shares, groups[1..], g);
      assert groups == [groups[0]] + groups[1..];
      PlacesApart(roots, shares, groups[0], g, g);
      forall k | 0 < k < |all|
        ensures Before(roots, shares, groups[0], all[k])
      {
        var x := all[1..][k - 1];
        assert x in Inserted(roots, shares, groups[1..], g);
      }
    }
  }

  lemma OrderIsApart(roots: seq<Card>, shares: Shares, groups: seq<SessionGroup>)
    requires InOrder(roots, shares, groups)
    ensures forall j, k :: 0 <= j < k < |groups| ==> groups[j].key != groups[k].key
  {
    hide Before;
    forall j, k | 0 <= j < k < |groups|
      ensures groups[j].key != groups[k].key
    {
      PlacesApart(roots, shares, groups[j], groups[k], groups[k]);
    }
  }

  /**
    A reading's groups: one for each key a card is in or a response ran in, issues first, each by
    its newest session. Under a group are the slices drawn for it, in the order of `roots`, and
    they come to its figure.
    */
  method GroupSessions(roots: seq<Card>) returns (groups: seq<SessionGroup>, ghost c: Credits, ghost shares: Shares)
    requires DistinctRefs(Preorder(roots))
    ensures c == CreditCards(NO_CREDITS, roots) && Consistent(c)
    ensures AccountsFor(groups, c)
    ensures AreShares(shares, c, Homes(roots, None)) && InOrder(roots, shares, groups)
    ensures forall g :: g in groups ==> g.sessions == SlicesOf(roots, g.key, shares)
    ensures forall key :: (exists g :: g in groups && g.key == key)
                     <==> key in Homes(roots, None).Values + ResponseGroups(c.folded)
  {
    hide Consistent, CreditCards, Homes, Preorder, GroupOf, SlicesOf, SubtreeOuts, GroupSum, AreShares, InOrder,
         ResponseGroups, DistinctRefs;
    var credits, theirs, left := CreditAll(roots);
    c, shares := credits, theirs;
    var byIssue, off := TallySpend(credits.folded, IssueOfBranch);
    groups := [];
    ghost var all := left;
    NoneYet(roots, theirs);
    while left != {}
      invariant left <= all && InOrder(roots, theirs, groups)
      invariant forall g :: g in groups ==> g.key in all && g.key !in left && GroupHolds(roots, theirs, c, g)
      invariant forall key :: key in all && key !in left ==> exists g :: g in groups && g.key == key
      decreases left
    {
      var key :| key in left;
      var sessions := SlicesOf(roots, key, theirs);
      GroupOfForestSums(roots, key, theirs, c, Homes(roots, None));
      GroupOfForestDrawn(roots, key, theirs, c, Homes(roots, None));
      var out := SubtreeOuts(sessions);
      if key.Issue? {
        FigureIsGroupSum(c.folded, byIssue, off, key.issue);
        out := UsageFigure(byIssue, key.issue);
      }
      var g := SessionGroup(key, out, sessions);
      InsertedInOrder(roots, theirs, groups, g);
      groups := Inserted(roots, theirs, groups, g);
      left := left - {key};
    }
    OrderIsApart(roots, theirs, groups);
  }

  lemma NoneYet(roots: seq<Card>, shares: Shares)
    ensures InOrder(roots, shares, [])
  {
  }

  /** One group's sessions and figure. */
  ghost predicate GroupHolds(roots: seq<Card>, shares: Shares, c: Credits, g: SessionGroup) {
    && g.sessions == SlicesOf(roots, g.key, shares) && g.sessions != []
    && g.out == GroupSum(c.folded, g.key) == SubtreeOuts(g.sessions)
  }

  // ------------------------------------------------------------------ conservation

  function GroupOuts(groups: seq<SessionGroup>): nat {
    if groups == [] then 0 else groups[0].out + GroupOuts(groups[1..])
  }

  function KeySums(keys: seq<Group>, rs: seq<Response>): nat {
    if keys == [] then 0 else GroupSum(rs, keys[0]) + KeySums(keys[1..], rs)
  }

  lemma {:induction false} KeySumsStep(keys: seq<Group>, rs: seq<Response>, r: Response)
    requires forall j, k :: 0 <= j < k < |keys| ==> keys[j] != keys[k]
    ensures KeySums(keys, rs + [r]) == KeySums(keys, rs) + if GroupOf(r.branch) in keys then r.counts.out else 0
  {
    hide GroupOf;
    assert (rs + [r])[..|rs|] == rs;
    if keys != [] {
      KeySumsStep(keys[1..], rs, r);
      assert keys == [keys[0]] + keys[1..];
    }
  }

  lemma {:induction false} KeySumsOfNothing(keys: seq<Group>)
    ensures KeySums(keys, []) == 0
  {
    if keys != [] {
      KeySumsOfNothing(keys[1..]);
    }
  }

  lemma {:induction false} KeySumsAreWhole(keys: seq<Group>, rs: seq<Response>)
    requires forall j, k :: 0 <= j < k < |keys| ==> keys[j] != keys[k]
    requires forall key :: key in ResponseGroups(rs) ==> key in keys
    ensures KeySums(keys, rs) == SumOut(rs)
  {
    hide GroupOf;
    if rs == [] {
      KeySumsOfNothing(keys);
    } else {
      var front, r := rs[..|rs| - 1], rs[|rs| - 1];
      assert rs == front + [r];
      ResponseGroupsSnoc(front, r);
      KeySumsAreWhole(keys, front);
      KeySumsStep(keys, front, r);
    }
  }

  function KeysOf(groups: seq<SessionGroup>): seq<Group> {
    seq(|groups|, k requires 0 <= k < |groups| => groups[k].key)
  }

  lemma {:induction false} GroupOutsAreKeySums(groups: seq<SessionGroup>, rs: seq<Response>)
    requires forall g :: g in groups ==> g.out == GroupSum(rs, g.key)
    ensures GroupOuts(groups) == KeySums(KeysOf(groups), rs)
  {
    if groups != [] {
      assert groups[0] in groups;
      assert KeysOf(groups)[1..] == KeysOf(groups[1..]);
      GroupOutsAreKeySums(groups[1..], rs);
    }
  }

  /** All groups together hold each credited response's output exactly once. */
  lemma GroupsConserve(groups: seq<SessionGroup>, c: Credits)
    requires AccountsFor(groups, c)
    ensures GroupOuts(groups) == SumOut(c.folded)
  {
    hide ResponseGroups, SubtreeOuts;
    GroupOutsAreKeySums(groups, c.folded);
    forall key | key in ResponseGroups(c.folded)
      ensures key in KeysOf(groups)
    {
      var g :| g in groups && g.key == key;
      var k :| 0 <= k < |groups| && groups[k] == g;
      assert KeysOf(groups)[k] == key;
    }
    KeySumsAreWhole(KeysOf(groups), c.folded);
  }
}
