/**
  What each issue's branches spent: the stored responses tallied by branch, then the
  branches by the issue each names.
  */
module Tally {
  import opened Options
  import opened Responses

  /** How many turns a window holds, and its peak: the largest of their contexts. */
  datatype WindowShare = WindowShare(turns: nat, peak: nat)

  type Windows = map<string, WindowShare>

  datatype BranchSpend = BranchSpend(
    turns: nat, out: nat, cacheRead: nat, sessions: set<string>, windows: Windows, unknownWindow: bool)

  datatype IssueSpend = IssueSpend(
    turns: nat, out: nat, cacheRead: nat, sessions: nat, windows: Windows, unknownWindow: bool)

  datatype Spend = Spend(turns: nat, out: nat, cacheRead: nat, sessions: nat, peakContext: Option<nat>)

  datatype Unattributed = Unattributed(turns: nat, out: nat)

  /** The attribution rule in force; the page's own is `IssueOfBranch`. */
  type Rule = string -> Option<nat>

  // ------------------------------------------------------------ `<type>/<issue>-<slug>`

  predicate IsDigit(c: char) {
    '0' <= c <= '9'
  }

  function DigitsEnd(text: string, from: nat): (end: nat)
    requires from <= |text|
    ensures from <= end <= |text|
    ensures forall k :: from <= k < end ==> IsDigit(text[k])
    ensures end < |text| ==> !IsDigit(text[end])
    decreases |text| - from
  {
    if from == |text| || !IsDigit(text[from]) then from else DigitsEnd(text, from + 1)
  }

  function Decimal(digits: string): nat
    requires forall k :: 0 <= k < |digits| ==> IsDigit(digits[k])
  {
    if digits == [] then 0
    else
      assert IsDigit(digits[|digits| - 1]);
      Decimal(digits[..|digits| - 1]) * 10 + (digits[|digits| - 1] as int - '0' as int)
  }

  /** The first `/`, digits, `-` at or after `from`, as the number the digits spell. */
  function IssueFrom(branch: string, from: nat): Option<nat>
    requires from <= |branch|
    decreases |branch| - from
  {
    if from == |branch| then None
    else if branch[from] != '/' then IssueFrom(branch, from + 1)
    else
      var end := DigitsEnd(branch, from + 1);
      if from + 1 < end < |branch| && branch[end] == '-' then Some(Decimal(branch[from + 1..end]))
      else IssueFrom(branch, from + 1)
  }

  function IssueOfBranch(branch: string): Option<nat> {
    IssueFrom(branch, 0)
  }

  lemma {:induction false} NoSlashNoIssue(branch: string, from: nat)
    requires from <= |branch| && forall k :: from <= k < |branch| ==> branch[k] != '/'
    ensures IssueFrom(branch, from) == None
    decreases |branch| - from
  {
    if from < |branch| {
      NoSlashNoIssue(branch, from + 1);
    }
  }

  // ------------------------------------------------------------ what a set of rows comes to

  predicate Attributed(r: Response) {
    r.branch.Some? && r.branch.value != "" && r.branch.value != "main"
  }

  /** The rows that ran on one of `branches`. */
  function On(rs: seq<Response>, branches: set<string>): seq<Response> {
    if rs == [] then []
    else
      var r := rs[|rs| - 1];
      On(rs[..|rs| - 1], branches) + if Attributed(r) && r.branch.value in branches then [r] else []
  }

  /** The rows attributed to no branch, `main`'s among them. */
  function Off(rs: seq<Response>): seq<Response> {
    if rs == [] then []
    else
      var r := rs[|rs| - 1];
      Off(rs[..|rs| - 1]) + if Attributed(r) then [] else [r]
  }

  function SumOut(rs: seq<Response>): nat {
    if rs == [] then 0 else SumOut(rs[..|rs| - 1]) + rs[|rs| - 1].counts.out
  }

  function SessionOf(r: Response): string {
    if r.session.Some? then r.session.value else ""
  }

  /** What some rows add up to. A sitting is one session on one branch. */
  datatype Summary = Summary(
    turns: nat, out: nat, cacheRead: nat, sittings: set<(string, string)>, windows: Windows, unknownWindow: bool)

  const NOTHING := Summary(0, 0, 0, {}, map[], false)

  function ShareOf(windows: Windows, window: string): WindowShare {
    if window in windows then windows[window] else WindowShare(0, 0)
  }

  function AddShares(a: WindowShare, b: WindowShare): WindowShare {
    WindowShare(a.turns + b.turns, Max(a.peak, b.peak))
  }

  function JoinWindows(a: Windows, b: Windows): Windows {
    map w | w in a.Keys + b.Keys :: AddShares(ShareOf(a, w), ShareOf(b, w))
  }

  function Join(a: Summary, b: Summary): Summary {
    Summary(a.turns + b.turns, a.out + b.out, a.cacheRead + b.cacheRead, a.sittings + b.sittings,
            JoinWindows(a.windows, b.windows), a.unknownWindow || b.unknownWindow)
  }

  function One(r: Response): Summary {
    Summary(1, r.counts.out, r.counts.cacheRead,
            {(if r.branch.Some? then r.branch.value else "", SessionOf(r))},
            if r.window.None? || r.counts.context.None? then map[]
            else map[r.window.value := WindowShare(1, r.counts.context.value)],
            r.window.None? || r.counts.context.None?)
  }

  function Summarise(rs: seq<Response>): Summary {
    if rs == [] then NOTHING else Join(Summarise(rs[..|rs| - 1]), One(rs[|rs| - 1]))
  }

  // The joining of summaries is a commutative monoid, which is why neither the order of
  // the rows nor the detour by branch can show in a tally.

  lemma JoinNothing(a: Summary)
    ensures Join(a, NOTHING) == a && Join(NOTHING, a) == a
  {
    assert JoinWindows(a.windows, map[]) == a.windows == JoinWindows(map[], a.windows);
  }

  lemma JoinCommutes(a: Summary, b: Summary)
    ensures Join(a, b) == Join(b, a)
  {
    assert JoinWindows(a.windows, b.windows) == JoinWindows(b.windows, a.windows);
  }

  lemma ShareOfJoin(a: Windows, b: Windows, w: string)
    ensures ShareOf(JoinWindows(a, b), w) == AddShares(ShareOf(a, w), ShareOf(b, w))
    ensures w in JoinWindows(a, b) <==> w in a || w in b
  {
  }

  lemma JoinWindowsAssociatesAt(x: Windows, y: Windows, z: Windows, w: string)
    ensures var l, r := JoinWindows(JoinWindows(x, y), z), JoinWindows(x, JoinWindows(y, z));
      (w in l <==> w in r) && ShareOf(l, w) == ShareOf(r, w)
  {
    hide JoinWindows, ShareOf;
    ShareOfJoin(x, y, w);
    ShareOfJoin(y, z, w);
    ShareOfJoin(JoinWindows(x, y), z, w);
    ShareOfJoin(x, JoinWindows(y, z), w);
  }

  lemma JoinWindowsAssociates(x: Windows, y: Windows, z: Windows)
    ensures JoinWindows(JoinWindows(x, y), z) == JoinWindows(x, JoinWindows(y, z))
  {
    hide JoinWindows;
    var l, r := JoinWindows(JoinWindows(x, y), z), JoinWindows(x, JoinWindows(y, z));
    forall w
      ensures (w in l <==> w in r) && ShareOf(l, w) == ShareOf(r, w)
    {
      JoinWindowsAssociatesAt(x, y, z, w);
    }
    assert forall w :: w in l ==> l[w] == ShareOf(l, w) == r[w];
  }

  lemma JoinAssociates(a: Summary, b: Summary, c: Summary)
    ensures Join(Join(a, b), c) == Join(a, Join(b, c))
  {
    hide JoinWindows;
    JoinWindowsAssociates(a.windows, b.windows, c.windows);
  }

  lemma {:induction false} SummariseConcat(a: seq<Response>, b: seq<Response>)
    ensures Summarise(a + b) == Join(Summarise(a), Summarise(b))
  {
    hide Join, One;
    if b == [] {
      assert a + b == a;
      JoinNothing(Summarise(a));
    } else {
      var front, last := b[..|b| - 1], b[|b| - 1];
      assert (a + b)[..|a + b| - 1] == a + front;
      SummariseConcat(a, front);
      JoinAssociates(Summarise(a), Summarise(front), One(last));
    }
  }

  lemma SummariseSnoc(rs: seq<Response>, r: Response)
    ensures Summarise(rs + [r]) == Join(Summarise(rs), One(r))
  {
    assert (rs + [r])[..|rs|] == rs;
  }

  lemma TakeOut(front: seq<Response>, r: Response, ys: seq<Response>) returns (a: seq<Response>, b: seq<Response>)
    requires multiset(front + [r]) == multiset(ys)
    ensures ys == a + ([r] + b)
    ensures multiset(front) == multiset(a + b)
  {
    assert r in multiset(ys);
    var k :| 0 <= k < |ys| && ys[k] == r;
    a, b := ys[..k], ys[k + 1..];
    assert ys == a + ([r] + b);
    assert multiset(ys) == multiset(a) + (multiset{r} + multiset(b));
    assert multiset(front) == multiset(front + [r]) - multiset{r};
  }

  /** A tally of rows does not depend on the order the rows are stored in. */
  lemma {:induction false} SummariseOrderFree(xs: seq<Response>, ys: seq<Response>)
    requires multiset(xs) == multiset(ys)
    ensures Summarise(xs) == Summarise(ys)
  {
    hide Summarise, Join, One;
    if xs == [] {
      assert |xs| == |multiset(xs)| == |multiset(ys)| == |ys|;
    } else {
      var front, r := xs[..|xs| - 1], xs[|xs| - 1];
      assert xs == front + [r];
      var a, b := TakeOut(front, r, ys);
      SummariseOrderFree(front, a + b);
      SummariseConcat(front, [r]);
      SummariseConcat(a, [r] + b);
      SummariseConcat([r], b);
      SummariseConcat(a, b);
      JoinCommutes(Summarise([r]), Summarise(b));
      JoinAssociates(Summarise(a), Summarise(b), Summarise([r]));
    }
  }

  lemma OnSnoc(rs: seq<Response>, r: Response, branches: set<string>)
    ensures On(rs + [r], branches)
         == On(rs, branches) + if Attributed(r) && r.branch.value in branches then [r] else []
  {
    assert (rs + [r])[..|rs|] == rs;
  }

  /** Rows on two lots of branches come to what each lot comes to, joined. */
  lemma {:induction false} OnSplits(rs: seq<Response>, a: set<string>, b: set<string>)
    requires a !! b
    ensures Summarise(On(rs, a + b)) == Join(Summarise(On(rs, a)), Summarise(On(rs, b)))
  {
    hide Summarise, Join, One;
    NoRows();
    JoinNothing(NOTHING);
    if rs != [] {
      var front, r := rs[..|rs| - 1], rs[|rs| - 1];
      OnSplits(front, a, b);
      var x, y := On(front, a), On(front, b);
      if Attributed(r) && r.branch.value in a + b {
        SummariseSnoc(On(front, a + b), r);
        JoinAssociates(Summarise(x), Summarise(y), One(r));
        if r.branch.value in a {
          SummariseSnoc(x, r);
          JoinCommutes(Summarise(y), One(r));
          JoinAssociates(Summarise(x), One(r), Summarise(y));
          assert On(rs, b) == y + [] == y;
        } else {
          SummariseSnoc(y, r);
          assert On(rs, a) == x + [] == x;
        }
      } else {
        assert On(rs, a) == x + [] == x && On(rs, b) == y + [] == y;
        assert On(rs, a + b) == On(front, a + b) + [] == On(front, a + b);
      }
    }
  }

  lemma NoRows()
    ensures Summarise([]) == NOTHING
  {
  }

  lemma {:induction false} OnMultiset(xs: seq<Response>, ys: seq<Response>, branches: set<string>)
    requires multiset(xs) == multiset(ys)
    ensures multiset(On(xs, branches)) == multiset(On(ys, branches))
    ensures multiset(Off(xs)) == multiset(Off(ys))
  {
    hide On, Off;
    if xs == [] {
      assert |xs| == |multiset(xs)| == |multiset(ys)| == |ys|;
    } else {
      var front, r := xs[..|xs| - 1], xs[|xs| - 1];
      assert xs == front + [r];
      var a, b := TakeOut(front, r, ys);
      OnMultiset(front, a + b, branches);
      OnConcat(front, [r], branches);
      OnConcat(a, [r] + b, branches);
      OnConcat([r], b, branches);
      OnConcat(a, b, branches);
    }
  }

  lemma {:induction false} OnConcat(a: seq<Response>, b: seq<Response>, branches: set<string>)
    ensures On(a + b, branches) == On(a, branches) + On(b, branches)
    ensures Off(a + b) == Off(a) + Off(b)
  {
    if b == [] {
      assert a + b == a;
    } else {
      assert (a + b)[..|a + b| - 1] == a + b[..|b| - 1];
      OnConcat(a, b[..|b| - 1], branches);
    }
  }

  // ------------------------------------------------------------ the specification

  /**
    The largest peak among the windows with most turns; zero when there is no window at all.
    */
  ghost predicate IsPeak(windows: Windows, peak: nat) {
    if windows == map[] then peak == 0
    else exists w :: w in windows && windows[w].peak == peak && HoldsMost(windows, windows.Keys, w)
  }

  /** No window of `among` holds more turns than `best`, nor as many with a larger peak. */
  ghost predicate HoldsMost(windows: Windows, among: set<string>, best: string)
    requires best in windows && among <= windows.Keys
  {
    forall w :: w in among ==>
      || windows[w].turns < windows[best].turns
      || (windows[w].turns == windows[best].turns && windows[w].peak <= windows[best].peak)
  }

  ghost predicate IsSpend(s: Spend, sum: Summary) {
    && s.turns == sum.turns
    && s.out == sum.out
    && s.cacheRead == sum.cacheRead
    && s.sessions == |sum.sittings|
    && (if sum.unknownWindow then s.peakContext == None
        else s.peakContext.Some? && IsPeak(sum.windows, s.peakContext.value))
  }

  ghost function BranchesIn(rs: seq<Response>): set<string> {
    set r | r in rs && Attributed(r) :: r.branch.value
  }

  ghost function Naming(branches: set<string>, issueOf: Rule, issue: nat): set<string> {
    set b | b in branches && issueOf(b) == Some(issue)
  }

  ghost function IssuesIn(branches: set<string>, issueOf: Rule): set<nat> {
    set b | b in branches && issueOf(b).Some? :: issueOf(b).value
  }

  /**
    The tally said directly, with no detour by branch: each issue named by a branch some
    response ran on, with everything that ran on the branches naming it.
    */
  ghost predicate IsTally(byIssue: map<nat, Spend>, unattributed: Unattributed, rs: seq<Response>, issueOf: Rule) {
    && byIssue.Keys == IssuesIn(BranchesIn(rs), issueOf)
    && (forall n :: n in byIssue ==> IsSpend(byIssue[n], Summarise(On(rs, Naming(BranchesIn(rs), issueOf, n)))))
    && unattributed == Unattributed(|Off(rs)|, SumOut(Off(rs)))
  }

  // ------------------------------------------------------------ the two stages

  ghost predicate IsBranchSpend(s: BranchSpend, branch: string, sum: Summary) {
    && s.turns == sum.turns
    && s.out == sum.out
    && s.cacheRead == sum.cacheRead
    && sum.sittings == (set x | x in s.sessions :: (branch, x))
    && s.windows == sum.windows
    && s.unknownWindow == sum.unknownWindow
  }

  ghost predicate IsIssueSpend(s: IssueSpend, sum: Summary) {
    && s.turns == sum.turns
    && s.out == sum.out
    && s.cacheRead == sum.cacheRead
    && s.sessions == |sum.sittings|
    && s.windows == sum.windows
    && s.unknownWindow == sum.unknownWindow
  }

  /** One window's entry joined with `more`. */
  method AddToWindow(windows: Windows, window: string, more: WindowShare) returns (after: Windows)
    ensures after == JoinWindows(windows, map[window := more])
  {
    var share := ShareOf(windows, window);
    after := windows[window := WindowShare(share.turns + more.turns, Max(share.peak, more.peak))];
    ghost var joined := JoinWindows(windows, map[window := more]);
    assert after.Keys == joined.Keys;
    assert forall w :: w in after ==> after[w] == joined[w];
  }

  /** One more response on a branch. */
  method CountOne(acc: BranchSpend, branch: string, r: Response, ghost sum: Summary) returns (after: BranchSpend)
    requires IsBranchSpend(acc, branch, sum) && r.branch == Some(branch)
    ensures IsBranchSpend(after, branch, Join(sum, One(r)))
  {
    var windows, unknown := acc.windows, acc.unknownWindow;
    if r.window.None? || r.counts.context.None? {
      unknown := true;
      assert JoinWindows(windows, map[]) == windows;
    } else {
      windows := AddToWindow(windows, r.window.value, WindowShare(1, r.counts.context.value));
    }
    after := BranchSpend(acc.turns + 1, acc.out + r.counts.out, acc.cacheRead + r.counts.cacheRead,
                         acc.sessions + {SessionOf(r)}, windows, unknown);
    assert (set x | x in after.sessions :: (branch, x))
           == (set x | x in acc.sessions :: (branch, x)) + {(branch, SessionOf(r))};
  }

  ghost predicate BranchesTallied(byBranch: map<string, BranchSpend>, rs: seq<Response>) {
    && byBranch.Keys == BranchesIn(rs)
    && forall b :: b in byBranch ==> IsBranchSpend(byBranch[b], b, Summarise(On(rs, {b})))
  }

  /** A branch no row so far ran on has nothing on it. */
  lemma {:induction false} NothingOn(rs: seq<Response>, branches: set<string>)
    requires branches !! BranchesIn(rs)
    ensures On(rs, branches) == []
  {
    if rs != [] {
      var front, r := rs[..|rs| - 1], rs[|rs| - 1];
      assert forall x :: x in front ==> x in rs;
      assert r in rs;
      assert BranchesIn(front) <= BranchesIn(rs);
      NothingOn(front, branches);
    }
  }

  lemma BranchesInSnoc(rs: seq<Response>, r: Response)
    ensures BranchesIn(rs + [r]) == BranchesIn(rs) + if Attributed(r) then {r.branch.value} else {}
  {
  }

  /** The first stage: a running total for every branch, the rest counted apart. */
  method TallyBranches(rs: seq<Response>) returns (byBranch: map<string, BranchSpend>, unattributed: Unattributed)
    ensures BranchesTallied(byBranch, rs)
    ensures unattributed == Unattributed(|Off(rs)|, SumOut(Off(rs)))
  {
    byBranch, unattributed := map[], Unattributed(0, 0);
    for i := 0 to |rs|
      invariant BranchesTallied(byBranch, rs[..i])
      invariant unattributed == Unattributed(|Off(rs[..i])|, SumOut(Off(rs[..i])))
    {
      var r := rs[i];
      assert rs[..i + 1] == rs[..i] + [r];
      byBranch, unattributed := TallyOne(byBranch, unattributed, rs[..i], r);
    }
    assert rs[..|rs|] == rs;
  }

  lemma OffSnoc(rs: seq<Response>, r: Response)
    ensures Off(rs + [r]) == Off(rs) + if Attributed(r) then [] else [r]
    ensures SumOut(Off(rs + [r])) == SumOut(Off(rs)) + if Attributed(r) then 0 else r.counts.out
  {
    assert (rs + [r])[..|rs|] == rs;
    assert (Off(rs) + [r])[..|Off(rs)|] == Off(rs);
    assert Off(rs) + [] == Off(rs);
  }

  /** A row leaves every branch but its own as it was. */
  lemma OtherBranchesKept(byBranch: map<string, BranchSpend>, rs: seq<Response>, r: Response, b: string)
    requires BranchesTallied(byBranch, rs) && b in byBranch && (Attributed(r) ==> r.branch.value != b)
    ensures IsBranchSpend(byBranch[b], b, Summarise(On(rs + [r], {b})))
  {
    hide Summarise, On, IsBranchSpend;
    OnSnoc(rs, r, {b});
    assert On(rs, {b}) + [] == On(rs, {b});
  }

  lemma OwnBranchCounted(rs: seq<Response>, r: Response)
    requires Attributed(r)
    ensures Summarise(On(rs + [r], {r.branch.value})) == Join(Summarise(On(rs, {r.branch.value})), One(r))
  {
    OnSnoc(rs, r, {r.branch.value});
    SummariseSnoc(On(rs, {r.branch.value}), r);
  }

  lemma NewBranch(byBranch: map<string, BranchSpend>, rs: seq<Response>, branch: string)
    requires BranchesTallied(byBranch, rs) && branch !in byBranch
    ensures Summarise(On(rs, {branch})) == NOTHING
  {
    NothingOn(rs, {branch});
  }

  method TallyOne(byBranch: map<string, BranchSpend>, unattributed: Unattributed, ghost rs: seq<Response>, r: Response)
    returns (after: map<string, BranchSpend>, off: Unattributed)
    requires BranchesTallied(byBranch, rs)
    requires unattributed == Unattributed(|Off(rs)|, SumOut(Off(rs)))
    ensures BranchesTallied(after, rs + [r])
    ensures off == Unattributed(|Off(rs + [r])|, SumOut(Off(rs + [r])))
  {
    hide Summarise, Join, One, On, Off, SumOut, IsBranchSpend, BranchesIn;
    after, off := byBranch, unattributed;
    BranchesInSnoc(rs, r);
    OffSnoc(rs, r);
    forall b | b in byBranch && (Attributed(r) ==> r.branch.value != b)
      ensures IsBranchSpend(byBranch[b], b, Summarise(On(rs + [r], {b})))
    {
      OtherBranchesKept(byBranch, rs, r, b);
    }
    if !Attributed(r) {
      off := Unattributed(off.turns + 1, off.out + r.counts.out);
      return;
    }
    var branch := r.branch.value;
    var counted := CountOn(byBranch, branch, r, rs);
    after := after[branch := counted];
  }

  /** The response's own branch, started when this is its first. */
  method CountOn(byBranch: map<string, BranchSpend>, branch: string, r: Response, ghost rs: seq<Response>)
    returns (counted: BranchSpend)
    requires BranchesTallied(byBranch, rs) && Attributed(r) && r.branch.value == branch
    ensures IsBranchSpend(counted, branch, Summarise(On(rs + [r], {branch})))
  {
    hide Summarise, Join, One, On;
    var acc := BranchSpend(0, 0, 0, {}, map[], false);
    if branch in byBranch {
      acc := byBranch[branch];
    } else {
      NewBranch(byBranch, rs, branch);
    }
    OwnBranchCounted(rs, r);
    counted := CountOne(acc, branch, r, Summarise(On(rs, {branch})));
  }

  lemma OneMoreWindow(more: Windows, left: set<string>, w: string)
    requires w in left && w in more
    ensures more - (left - {w}) == JoinWindows(more - left, map[w := more[w]])
  {
    assert (more - (left - {w})).Keys == JoinWindows(more - left, map[w := more[w]]).Keys;
  }

  lemma NoWindows(windows: Windows)
    ensures JoinWindows(windows, map[]) == windows
  {
  }

  /** Merge one branch's windows into an issue's, one window at a time. */
  method MergeWindows(windows: Windows, more: Windows) returns (after: Windows)
    ensures after == JoinWindows(windows, more)
  {
    hide JoinWindows;
    after := windows;
    var left := more.Keys;
    NoWindows(windows);
    assert more - left == map[];
    while left != {}
      invariant left <= more.Keys
      invariant after == JoinWindows(windows, more - left)
      decreases left
    {
      var w :| w in left;
      OneMoreWindow(more, left, w);
      JoinWindowsAssociates(windows, more - left, map[w := more[w]]);
      after := AddToWindow(after, w, more[w]);
      left := left - {w};
    }
    assert more - left == more;
  }

  /** The sittings on some branches are on those branches. */
  lemma {:induction false} SittingsOn(rs: seq<Response>, branches: set<string>)
    ensures forall p :: p in Summarise(On(rs, branches)).sittings ==> p.0 in branches
  {
    if rs != [] {
      var front, r := rs[..|rs| - 1], rs[|rs| - 1];
      SittingsOn(front, branches);
      if Attributed(r) && r.branch.value in branches {
        SummariseSnoc(On(front, branches), r);
      } else {
        assert On(rs, branches) == On(front, branches);
      }
    }
  }

  lemma {:induction false} PairsCount(branch: string, sessions: set<string>)
    ensures |set x | x in sessions :: (branch, x)| == |sessions|
  {
    if sessions != {} {
      var s :| s in sessions;
      PairsCount(branch, sessions - {s});
      assert (set x | x in sessions :: (branch, x)) == (set x | x in sessions - {s} :: (branch, x)) + {(branch, s)};
    }
  }

  lemma SittingsAdd(a: Summary, b: Summary)
    requires a.sittings !! b.sittings
    ensures |Join(a, b).sittings| == |a.sittings| + |b.sittings|
  {
  }

  /** One branch added to the issue it names. */
  method AddBranch(acc: IssueSpend, s: BranchSpend, branch: string, ghost rs: seq<Response>, ghost others: set<string>)
    returns (after: IssueSpend)
    requires IsIssueSpend(acc, Summarise(On(rs, others))) && branch !in others
    requires IsBranchSpend(s, branch, Summarise(On(rs, {branch})))
    ensures IsIssueSpend(after, Summarise(On(rs, others + {branch})))
  {
    hide Summarise, On, JoinWindows;
    var windows := MergeWindows(acc.windows, s.windows);
    after := IssueSpend(acc.turns + s.turns, acc.out + s.out, acc.cacheRead + s.cacheRead,
                        acc.sessions + |s.sessions|, windows, acc.unknownWindow || s.unknownWindow);
    OnSplits(rs, others, {branch});
    SittingsOn(rs, others);
    PairsCount(branch, s.sessions);
    SittingsAdd(Summarise(On(rs, others)), Summarise(On(rs, {branch})));
  }

  ghost predicate IssuesTallied(byIssue: map<nat, IssueSpend>, rs: seq<Response>, branches: set<string>,
                                issueOf: Rule) {
    && byIssue.Keys == IssuesIn(branches, issueOf)
    && forall n :: n in byIssue ==> IsIssueSpend(byIssue[n], Summarise(On(rs, Naming(branches, issueOf, n))))
  }

  lemma NamingMore(branches: set<string>, issueOf: Rule, branch: string, n: nat)
    ensures Naming(branches + {branch}, issueOf, n)
         == Naming(branches, issueOf, n) + if issueOf(branch) == Some(n) then {branch} else {}
    ensures n !in IssuesIn(branches, issueOf) ==> Naming(branches, issueOf, n) == {}
    ensures IssuesIn(branches + {branch}, issueOf)
         == IssuesIn(branches, issueOf) + if issueOf(branch).Some? then {issueOf(branch).value} else {}
  {
  }

  lemma OtherIssuesKept(byIssue: map<nat, IssueSpend>, rs: seq<Response>, done: set<string>, issueOf: Rule,
                        branch: string, n: nat)
    requires IssuesTallied(byIssue, rs, done, issueOf) && n in byIssue && issueOf(branch) != Some(n)
    ensures IsIssueSpend(byIssue[n], Summarise(On(rs, Naming(done + {branch}, issueOf, n))))
  {
    hide Summarise, On, IsIssueSpend;
    NamingMore(done, issueOf, branch, n);
    assert Naming(done + {branch}, issueOf, n) == Naming(done, issueOf, n);
  }

  method AddNamed(byIssue: map<nat, IssueSpend>, s: BranchSpend, branch: string, issueOf: Rule,
                  ghost rs: seq<Response>, ghost done: set<string>)
    returns (after: map<nat, IssueSpend>)
    requires IssuesTallied(byIssue, rs, done, issueOf) && branch !in done
    requires IsBranchSpend(s, branch, Summarise(On(rs, {branch})))
    ensures IssuesTallied(after, rs, done + {branch}, issueOf)
  {
    hide Summarise, On, Naming, IssuesIn, IsBranchSpend, IsIssueSpend;
    after := byIssue;
    var number := issueOf(branch);
    forall n | n in byIssue && number != Some(n)
      ensures IsIssueSpend(byIssue[n], Summarise(On(rs, Naming(done + {branch}, issueOf, n))))
    {
      OtherIssuesKept(byIssue, rs, done, issueOf, branch, n);
    }
    NamingMore(done, issueOf, branch, if number.Some? then number.value else 0);
    if number.Some? {
      var added := AddToIssue(byIssue, s, branch, number.value, issueOf, rs, done);
      after := after[number.value := added];
    }
  }

  /** The issue the branch names, started when this is its first branch. */
  method AddToIssue(byIssue: map<nat, IssueSpend>, s: BranchSpend, branch: string, issue: nat, issueOf: Rule,
                    ghost rs: seq<Response>, ghost done: set<string>)
    returns (added: IssueSpend)
    requires IssuesTallied(byIssue, rs, done, issueOf) && branch !in done && issueOf(branch) == Some(issue)
    requires IsBranchSpend(s, branch, Summarise(On(rs, {branch})))
    ensures IsIssueSpend(added, Summarise(On(rs, Naming(done + {branch}, issueOf, issue))))
  {
    hide Summarise, On, Naming, IssuesIn, IsBranchSpend;
    NamingMore(done, issueOf, branch, issue);
    var acc := IssueSpend(0, 0, 0, 0, map[], false);
    if issue in byIssue {
      acc := byIssue[issue];
    } else {
      NothingNamed(rs);
    }
    NamingDone(done, issueOf, issue);
    added := AddBranch(acc, s, branch, rs, Naming(done, issueOf, issue));
  }

  lemma NamingDone(done: set<string>, issueOf: Rule, n: nat)
    ensures Naming(done, issueOf, n) <= done
  {
  }

  lemma NothingNamed(rs: seq<Response>)
    ensures Summarise(On(rs, {})) == NOTHING
  {
    NothingOn(rs, {});
  }

  /** The peak, by a walk over the windows in whatever order they are held. */
  method PeakOf(windows: Windows) returns (peak: nat)
    ensures IsPeak(windows, peak)
  {
    var left := windows.Keys;
    var best: Option<string> := None;
    while left != {}
      invariant left <= windows.Keys
      invariant best.None? ==> left == windows.Keys
      invariant best.Some? ==> best.value in windows && HoldsMost(windows, windows.Keys - left, best.value)
      decreases left
    {
      var w :| w in left;
      var share := windows[w];
      if best.None?
         || windows[best.value].turns < share.turns
         || (share.turns == windows[best.value].turns && windows[best.value].peak < share.peak) {
        best := Some(w);
      }
      left := left - {w};
    }
    assert windows.Keys - left == windows.Keys;
    peak := if best.Some? then windows[best.value].peak else 0;
  }

  /** The second stage: branches collapsed onto the issue each names, and each issue's peak decided. */
  method SpendByIssue(byBranch: map<string, BranchSpend>, issueOf: Rule, ghost rs: seq<Response>)
    returns (spend: map<nat, Spend>)
    requires BranchesTallied(byBranch, rs)
    ensures spend.Keys == IssuesIn(BranchesIn(rs), issueOf)
    ensures forall n :: n in spend ==> IsSpend(spend[n], Summarise(On(rs, Naming(BranchesIn(rs), issueOf, n))))
  {
    hide Summarise, On, IsBranchSpend;
    var byIssue: map<nat, IssueSpend> := map[];
    var left := byBranch.Keys;
    while left != {}
      invariant left <= byBranch.Keys
      invariant IssuesTallied(byIssue, rs, byBranch.Keys - left, issueOf)
      decreases left
    {
      var branch :| branch in left;
      ghost var done := byBranch.Keys - left;
      byIssue := AddNamed(byIssue, byBranch[branch], branch, issueOf, rs, done);
      left := left - {branch};
      assert byBranch.Keys - left == done + {branch};
    }
    assert byBranch.Keys - left == BranchesIn(rs);
    spend := map[];
    var numbers := byIssue.Keys;
    while numbers != {}
      invariant numbers <= byIssue.Keys && spend.Keys == byIssue.Keys - numbers
      invariant forall n :: n in spend ==> IsSpend(spend[n], Summarise(On(rs, Naming(BranchesIn(rs), issueOf, n))))
      decreases numbers
    {
      var n :| n in numbers;
      var acc := byIssue[n];
      var peak := PeakOf(acc.windows);
      spend := spend[n := Spend(acc.turns, acc.out, acc.cacheRead, acc.sessions,
                                if acc.unknownWindow then None else Some(peak))];
      numbers := numbers - {n};
    }
  }

  /** Both stages, one after the other. */
  method TallySpend(rs: seq<Response>, issueOf: Rule) returns (byIssue: map<nat, Spend>, unattributed: Unattributed)
    ensures IsTally(byIssue, unattributed, rs, issueOf)
  {
    var byBranch;
    byBranch, unattributed := TallyBranches(rs);
    byIssue := SpendByIssue(byBranch, issueOf, rs);
  }

  // ------------------------------------------------------------ what a tally promises

  lemma PeakIsUnique(windows: Windows, p: nat, q: nat)
    requires IsPeak(windows, p) && IsPeak(windows, q)
    ensures p == q
  {
    if windows != map[] {
      var v :| v in windows && windows[v].peak == p && HoldsMost(windows, windows.Keys, v);
      var w :| w in windows && windows[w].peak == q && HoldsMost(windows, windows.Keys, w);
      assert v in windows.Keys && w in windows.Keys;
    }
  }

  lemma SpendIsUnique(s: Spend, t: Spend, sum: Summary)
    requires IsSpend(s, sum) && IsSpend(t, sum)
    ensures s == t
  {
    if !sum.unknownWindow {
      PeakIsUnique(sum.windows, s.peakContext.value, t.peakContext.value);
    }
  }

  lemma {:induction false} SumOutIsSummary(rs: seq<Response>)
    ensures Summarise(rs).out == SumOut(rs) && Summarise(rs).turns == |rs|
  {
    if rs != [] {
      SumOutIsSummary(rs[..|rs| - 1]);
    }
  }

  /**
    Two lists of the same rows, in whatever order, have one tally, down to the last tie
    between windows.
    */
  lemma TallyIsOrderFree(xs: seq<Response>, ys: seq<Response>, issueOf: Rule,
                         a: map<nat, Spend>, offA: Unattributed, b: map<nat, Spend>, offB: Unattributed)
    requires multiset(xs) == multiset(ys)
    requires IsTally(a, offA, xs, issueOf) && IsTally(b, offB, ys, issueOf)
    ensures a == b && offA == offB
  {
    hide Summarise, On, Off, SumOut, IsSpend;
    assert forall r :: r in xs <==> r in multiset(xs);
    assert forall r :: r in ys <==> r in multiset(ys);
    assert BranchesIn(xs) == BranchesIn(ys);
    forall n | n in a
      ensures a[n] == b[n]
    {
      var branches := Naming(BranchesIn(xs), issueOf, n);
      OnMultiset(xs, ys, branches);
      SummariseOrderFree(On(xs, branches), On(ys, branches));
      SpendIsUnique(a[n], b[n], Summarise(On(xs, branches)));
    }
    OnMultiset(xs, ys, {});
    SummariseOrderFree(Off(xs), Off(ys));
    SumOutIsSummary(Off(xs));
    SumOutIsSummary(Off(ys));
  }

  ghost function AnIssue(issues: set<nat>): (n: nat)
    requires issues != {}
    ensures n in issues
  {
    var n :| n in issues; n
  }

  /** Turns and output over some issues of a tally. */
  ghost function Total(byIssue: map<nat, Spend>, issues: set<nat>): (nat, nat)
    requires issues <= byIssue.Keys
  {
    if issues == {} then (0, 0)
    else
      var n := AnIssue(issues);
      var (turns, out) := Total(byIssue, issues - {n});
      (turns + byIssue[n].turns, out + byIssue[n].out)
  }

  ghost function NamingAny(branches: set<string>, issueOf: Rule, issues: set<nat>): set<string> {
    set b | b in branches && issueOf(b).Some? && issueOf(b).value in issues
  }

  lemma NamingAnySplits(branches: set<string>, issueOf: Rule, issues: set<nat>, n: nat)
    requires n in issues
    ensures var others, own := NamingAny(branches, issueOf, issues - {n}), Naming(branches, issueOf, n);
      others !! own && NamingAny(branches, issueOf, issues) == others + own
    ensures NamingAny(branches, issueOf, {}) == {}
  {
  }

  lemma SpendCounts(s: Spend, sum: Summary)
    requires IsSpend(s, sum)
    ensures s.turns == sum.turns && s.out == sum.out
  {
  }

  lemma {:induction false} TotalIsSummary(byIssue: map<nat, Spend>, rs: seq<Response>, issueOf: Rule,
                                          branches: set<string>, issues: set<nat>)
    requires issues <= byIssue.Keys
    requires forall n :: n in byIssue ==> IsSpend(byIssue[n], Summarise(On(rs, Naming(branches, issueOf, n))))
    ensures var sum := Summarise(On(rs, NamingAny(branches, issueOf, issues)));
      Total(byIssue, issues) == (sum.turns, sum.out)
  {
    hide Summarise, On, IsSpend, Naming, NamingAny;
    if issues == {} {
      NamingAnySplits(branches, issueOf, {0}, 0);
      NothingNamed(rs);
    } else {
      var n := AnIssue(issues);
      TotalIsSummary(byIssue, rs, issueOf, branches, issues - {n});
      NamingAnySplits(branches, issueOf, issues, n);
      OnSplits(rs, NamingAny(branches, issueOf, issues - {n}), Naming(branches, issueOf, n));
      SpendCounts(byIssue[n], Summarise(On(rs, Naming(branches, issueOf, n))));
    }
  }

  lemma {:induction false} OnAndOff(rs: seq<Response>, branches: set<string>)
    requires BranchesIn(rs) <= branches
    ensures |On(rs, branches)| + |Off(rs)| == |rs|
    ensures SumOut(On(rs, branches)) + SumOut(Off(rs)) == SumOut(rs)
  {
    if rs != [] {
      var front, r := rs[..|rs| - 1], rs[|rs| - 1];
      assert rs == front + [r];
      BranchesInSnoc(front, r);
      OnAndOff(front, branches);
      OnSnoc(front, r, branches);
      OffSnoc(front, r);
      assert (On(front, branches) + [r])[..|On(front, branches)|] == On(front, branches);
      assert On(front, branches) + [] == On(front, branches);
    }
  }

  /**
    Nothing is lost and nothing counted twice: every row's turn and output is in exactly
    one issue, or unattributed, or on a branch that names no issue.
    */
  lemma TallyConserves(rs: seq<Response>, issueOf: Rule, byIssue: map<nat, Spend>, off: Unattributed)
    requires IsTally(byIssue, off, rs, issueOf)
    ensures var nameless := On(rs, set b | b in BranchesIn(rs) && issueOf(b).None?);
      var (turns, out) := Total(byIssue, byIssue.Keys);
      turns + off.turns + |nameless| == |rs| && out + off.out + SumOut(nameless) == SumOut(rs)
  {
    hide Summarise, On, Off, SumOut, IsSpend;
    var branches := BranchesIn(rs);
    var nameless := set b | b in branches && issueOf(b).None?;
    var named := NamingAny(branches, issueOf, byIssue.Keys);
    TotalIsSummary(byIssue, rs, issueOf, branches, byIssue.Keys);
    assert branches == named + nameless;
    OnSplits(rs, named, nameless);
    SumOutIsSummary(On(rs, branches));
    SumOutIsSummary(On(rs, nameless));
    OnAndOff(rs, branches);
  }
}
