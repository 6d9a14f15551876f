/**
  One API response as the usage history stores it, and the one rule by which two
  copies of a response become one. Every reader of the transcripts folds with it.
  */
module Responses {
  import opened Options

  /** What folding compares and keeps of two copies. An unknown context is `None`. */
  datatype Counts = Counts(out: nat, cacheRead: nat, context: Option<nat>)

  /** The key records of one response share: a message id, else a uuid, else a file and a line. */
  datatype Id = Message(messageId: string) | Uuid(uuid: string) | Line(file: string, line: nat)

  datatype Response = Response(
    id: Id,
    session: Option<string>,
    branch: Option<string>,
    at: Option<string>,
    counts: Counts,
    window: Option<string>)

  type Rows = map<Id, Response>

  function Max(a: nat, b: nat): nat {
    if a < b then b else a
  }

  function LargerContext(a: Option<nat>, b: Option<nat>): Option<nat> {
    if a.None? then b else if b.None? then a else Some(Max(a.value, b.value))
  }

  function LargerCounts(a: Counts, b: Counts): Counts {
    Counts(Max(a.out, b.out), Max(a.cacheRead, b.cacheRead), LargerContext(a.context, b.context))
  }

  function ContextOrZero(c: Option<nat>): nat {
    if c.Some? then c.value else 0
  }

  predicate RaisesCounts(before: Counts, next: Counts) {
    || before.out < next.out
    || before.cacheRead < next.cacheRead
    || ContextOrZero(before.context) < ContextOrZero(next.context)
  }

  // ---------------------------------------------------------------- the order

  predicate ContextLeq(a: Option<nat>, b: Option<nat>) {
    a.None? || (b.Some? && a.value <= b.value)
  }

  /** `b` holds at least every count `a` does, and knows every context `a` knows. */
  predicate Leq(a: Counts, b: Counts) {
    a.out <= b.out && a.cacheRead <= b.cacheRead && ContextLeq(a.context, b.context)
  }

  /** A reader that folds only when `RaisesCounts` says so. */
  function GuardedFold(before: Counts, next: Counts): Counts {
    if RaisesCounts(before, next) then LargerCounts(before, next) else before
  }

  /**
    The guard loses exactly one thing: a first known context of zero on a response
    whose context was unknown and whose other counts the copy does not raise.
    */
  lemma GuardedFoldExact(before: Counts, next: Counts)
    ensures GuardedFold(before, next) == LargerCounts(before, next)
       <==> !(before.context.None? && next.context == Some(0)
              && next.out <= before.out && next.cacheRead <= before.cacheRead)
  {
  }

  // ------------------------------------------------- the SQL form of the merge

  /** `MAX` of two columns in SQLite: null as soon as one of them is. */
  function SqlMax(a: Option<nat>, b: Option<nat>): Option<nat> {
    if a.None? || b.None? then None else Some(Max(a.value, b.value))
  }

  /** The `ON CONFLICT (id) DO UPDATE` of the store: `row` is the row kept, `excluded` the one offered. */
  function SqlUpdate(row: Response, excluded: Response): Response {
    row.(counts := Counts(
           Max(row.counts.out, excluded.counts.out),
           Max(row.counts.cacheRead, excluded.counts.cacheRead),
           SqlMax(Coalesce(row.counts.context, excluded.counts.context),
                  Coalesce(excluded.counts.context, row.counts.context))),
         window := Coalesce(row.window, excluded.window))
  }

  /** One row of two copies: who and when from the row kept, the counts the larger. */
  function Merge(kept: Response, offered: Response): Response {
    kept.(counts := LargerCounts(kept.counts, offered.counts),
          window := Coalesce(kept.window, offered.window))
  }

  /** The SQL expression and `largerCounts` are one rule. */
  lemma SqlUpdateIsMerge(row: Response, excluded: Response)
    ensures SqlUpdate(row, excluded) == Merge(row, excluded)
  {
  }

  // ------------------------------------------------------------------ upserts

  function Upsert(rows: Rows, r: Response): Rows {
    rows[r.id := if r.id in rows then Merge(rows[r.id], r) else r]
  }

  function UpsertAll(rows: Rows, offers: seq<Response>): Rows {
    if offers == [] then rows
    else Upsert(UpsertAll(rows, offers[..|offers| - 1]), offers[|offers| - 1])
  }

  lemma UpsertAllNothing(rows: Rows)
    ensures UpsertAll(rows, []) == rows
  {
  }

  lemma UpsertAllSnoc(rows: Rows, offers: seq<Response>, r: Response)
    ensures UpsertAll(rows, offers + [r]) == Upsert(UpsertAll(rows, offers), r)
  {
    assert (offers + [r])[..|offers|] == offers;
  }

  lemma {:induction false} UpsertAllConcat(rows: Rows, a: seq<Response>, b: seq<Response>)
    ensures UpsertAll(rows, a + b) == UpsertAll(UpsertAll(rows, a), b)
  {
    if b == [] {
      assert a + b == a;
    } else {
      var front := b[..|b| - 1];
      UpsertAllConcat(rows, a, front);
      assert a + b == (a + front) + [b[|b| - 1]];
      UpsertAllSnoc(rows, a + front, b[|b| - 1]);
    }
  }

  lemma MergeAssociates(a: Response, b: Response, c: Response)
    ensures Merge(Merge(a, b), c) == Merge(a, Merge(b, c))
  {
  }

  /** Folding offers into a history is folding them on their own and merging the outcome once. */
  lemma {:induction false} UpsertAllIsOneMerge(rows: Rows, offers: seq<Response>, i: Id)
    ensures var after, alone := UpsertAll(rows, offers), UpsertAll(map[], offers);
      && (i in after <==> i in rows || i in alone)
      && (i in after ==> after[i] == if i in rows && i in alone then Merge(rows[i], alone[i])
                                     else if i in rows then rows[i] else alone[i])
  {
    if offers != [] {
      var front, last := offers[..|offers| - 1], offers[|offers| - 1];
      UpsertAllIsOneMerge(rows, front, i);
      if last.id == i && i in rows && i in UpsertAll(map[], front) {
        MergeAssociates(rows[i], UpsertAll(map[], front)[i], last);
      }
    }
  }

  /** Lists that fold alike on their own fold alike into any history. */
  lemma FoldAlike(rows: Rows, xs: seq<Response>, ys: seq<Response>)
    requires UpsertAll(map[], xs) == UpsertAll(map[], ys)
    ensures UpsertAll(rows, xs) == UpsertAll(rows, ys)
  {
    hide UpsertAll;
    var a, b := UpsertAll(rows, xs), UpsertAll(rows, ys);
    forall i
      ensures i in a <==> i in b
      ensures i in a ==> a[i] == b[i]
    {
      UpsertAllIsOneMerge(rows, xs, i);
      UpsertAllIsOneMerge(rows, ys, i);
    }
  }

  /** Every row is filed under its own id. */
  ghost predicate WellKeyed(rows: Rows) {
    forall i :: i in rows ==> rows[i].id == i
  }

  lemma {:induction false} UpsertAllWellKeyed(rows: Rows, offers: seq<Response>)
    requires WellKeyed(rows)
    ensures WellKeyed(UpsertAll(rows, offers))
  {
    if offers != [] {
      UpsertAllWellKeyed(rows, offers[..|offers| - 1]);
    }
  }

  // ------------------------------------------- what a fold of offers comes to

  /** The first offer of response `i`, the one whose session, branch and time a fold keeps. */
  function FirstOf(offers: seq<Response>, i: Id): Option<Response> {
    if offers == [] then None
    else if offers[0].id == i then Some(offers[0])
    else FirstOf(offers[1..], i)
  }

  lemma {:induction false} FirstOfConcat(a: seq<Response>, b: seq<Response>, i: Id)
    ensures FirstOf(a + b, i) == if FirstOf(a, i).Some? then FirstOf(a, i) else FirstOf(b, i)
  {
    if a == [] {
      assert a + b == b;
    } else {
      assert (a + b)[1..] == a[1..] + b;
      FirstOfConcat(a[1..], b, i);
    }
  }

  lemma {:induction false} FirstOfMember(offers: seq<Response>, i: Id)
    ensures FirstOf(offers, i).Some? ==> FirstOf(offers, i).value in offers && FirstOf(offers, i).value.id == i
    ensures FirstOf(offers, i).None? ==> FirstWindow(offers, i).None? && forall o :: o in offers ==> o.id != i
  {
    if offers != [] {
      FirstOfMember(offers[1..], i);
      assert offers == [offers[0]] + offers[1..];
    }
  }

  /** The first window any offer of response `i` knows. */
  function FirstWindow(offers: seq<Response>, i: Id): Option<string> {
    if offers == [] then None
    else if offers[0].id == i && offers[0].window.Some? then offers[0].window
    else FirstWindow(offers[1..], i)
  }

  lemma {:induction false} FirstWindowConcat(a: seq<Response>, b: seq<Response>, i: Id)
    ensures FirstWindow(a + b, i) == Coalesce(FirstWindow(a, i), FirstWindow(b, i))
  {
    if a == [] {
      assert a + b == b;
    } else {
      assert (a + b)[1..] == a[1..] + b;
      FirstWindowConcat(a[1..], b, i);
    }
  }

  /** What a response is attributed by: its session, its branch and its time. */
  function Origin(r: Response): (Option<string>, Option<string>, Option<string>) {
    (r.session, r.branch, r.at)
  }

  /** A fold keeps the row it started from, else the first offer: only counts and an unknown window move. */
  lemma {:induction false} KeptFromFirst(rows: Rows, offers: seq<Response>, i: Id)
    requires WellKeyed(rows)
    ensures var after := UpsertAll(rows, offers);
      && (i in after <==> i in rows || FirstOf(offers, i).Some?)
      && (i in after ==>
            && after[i].id == i
            && Origin(after[i]) == Origin(if i in rows then rows[i] else FirstOf(offers, i).value)
            && after[i].window == Coalesce(if i in rows then rows[i].window else None, FirstWindow(offers, i)))
  {
    FirstOfMember(offers, i);
    if offers != [] {
      var front, last := offers[..|offers| - 1], offers[|offers| - 1];
      assert offers == front + [last];
      KeptFromFirst(rows, front, i);
      FirstOfMember(front, i);
      assert FirstWindow([last], i) == if last.id == i then last.window else None;
      FirstOfConcat(front, [last], i);
      FirstWindowConcat(front, [last], i);
    }
  }

  /** Two lists of offers with the same counts, origins and windows to give fold to the same rows. */
  lemma SameRows(rows: Rows, xs: seq<Response>, ys: seq<Response>)
    requires WellKeyed(rows)
    requires SameCounts(UpsertAll(rows, xs), UpsertAll(rows, ys))
    requires forall i :: FirstOf(xs, i).Some? && FirstOf(ys, i).Some? ==>
               Origin(FirstOf(xs, i).value) == Origin(FirstOf(ys, i).value)
    requires forall i :: FirstWindow(xs, i) == FirstWindow(ys, i)
    ensures UpsertAll(rows, xs) == UpsertAll(rows, ys)
  {
    var a, b := UpsertAll(rows, xs), UpsertAll(rows, ys);
    forall i | i in a
      ensures a[i] == b[i]
    {
      KeptFromFirst(rows, xs, i);
      KeptFromFirst(rows, ys, i);
    }
  }

  ghost function Elements(offers: seq<Response>): set<Response> {
    set o | o in offers
  }

  lemma ElementsConcat(a: seq<Response>, b: seq<Response>)
    ensures Elements(a + b) == Elements(a) + Elements(b)
  {
  }

  lemma ElementsPrefix(a: seq<Response>, b: seq<Response>)
    requires a <= b
    ensures Elements(a) <= Elements(b)
  {
  }

  /** Nothing about the offer `o` is above what `rows` holds of its response. */
  ghost predicate Bounded(rows: Rows, o: Response) {
    && o.id in rows
    && Leq(o.counts, rows[o.id].counts)
    && (o.window.Some? ==> rows[o.id].window.Some?)
  }

  /** Each count of `row`, and its window, was offered for response `i`. */
  ghost predicate Attained(offered: set<Response>, i: Id, row: Response) {
    && (exists o :: o in offered && o.id == i && o.counts.out == row.counts.out)
    && (exists o :: o in offered && o.id == i && o.counts.cacheRead == row.counts.cacheRead)
    && (exists o :: o in offered && o.id == i && o.counts.context == row.counts.context)
    && (exists o :: o in offered && o.id == i && o.window == row.window)
  }

  /**
    `rows` holds, for each response ever offered, the largest of each count offered:
    nothing offered is above it and each component was offered. A context or a window
    anybody knew is known.
    */
  ghost predicate IsLargestOffered(rows: Rows, offered: set<Response>) {
    && (forall o :: o in offered ==> Bounded(rows, o))
    && (forall i :: i in rows ==> Attained(offered, i, rows[i]))
  }

  /** The two histories hold the same responses at the same counts. */
  ghost predicate SameCounts(a: Rows, b: Rows) {
    && a.Keys == b.Keys
    && forall i :: i in a ==> a[i].counts == b[i].counts
  }

  /** Rows stand for themselves: a history is the largest of what it already holds. */
  lemma RowsAreLargest(rows: Rows)
    requires WellKeyed(rows)
    ensures IsLargestOffered(rows, rows.Values)
  {
    forall o | o in rows.Values
      ensures Bounded(rows, o)
    {
    }
    forall i | i in rows
      ensures Attained(rows.Values, i, rows[i])
    {
      assert rows[i] in rows.Values;
    }
  }

  lemma AttainedByMore(offered: set<Response>, more: set<Response>, i: Id, row: Response)
    requires Attained(offered, i, row) && offered <= more
    ensures Attained(more, i, row)
  {
    var a :| a in offered && a.id == i && a.counts.out == row.counts.out;
    var b :| b in offered && b.id == i && b.counts.cacheRead == row.counts.cacheRead;
    var c :| c in offered && c.id == i && c.counts.context == row.counts.context;
    var d :| d in offered && d.id == i && d.window == row.window;
    assert {a, b, c, d} <= more;
  }

  lemma AttainedMerge(offered: set<Response>, r: Response, row: Response)
    requires Attained(offered, r.id, row)
    ensures Attained(offered + {r}, r.id, Merge(row, r))
  {
    AttainedByMore(offered, offered + {r}, r.id, row);
    assert r in offered + {r};
  }

  lemma UpsertKeepsLargest(rows: Rows, offered: set<Response>, r: Response)
    requires IsLargestOffered(rows, offered)
    ensures IsLargestOffered(Upsert(rows, r), offered + {r})
  {
    var after := Upsert(rows, r);
    forall i | i in after
      ensures Attained(offered + {r}, i, after[i])
    {
      if i != r.id {
        AttainedByMore(offered, offered + {r}, i, rows[i]);
      } else if i in rows {
        AttainedMerge(offered, r, rows[i]);
      } else {
        assert r in offered + {r};
      }
    }
    forall o | o in offered + {r}
      ensures Bounded(after, o)
    {
      if o in offered {
        assert Bounded(rows, o);
      }
    }
  }

  lemma ElementsSnoc(front: seq<Response>, last: Response)
    ensures Elements(front + [last]) == Elements(front) + {last}
  {
  }

  lemma {:induction false} UpsertAllKeepsLargest(rows: Rows, offered: set<Response>, offers: seq<Response>)
    requires IsLargestOffered(rows, offered)
    ensures IsLargestOffered(UpsertAll(rows, offers), offered + Elements(offers))
  {
    if offers == [] {
      assert offered + Elements(offers) == offered;
    } else {
      var front, last := offers[..|offers| - 1], offers[|offers| - 1];
      UpsertAllKeepsLargest(rows, offered, front);
      ElementsSnoc(front, last);
      assert offers == front + [last];
      var before, held := UpsertAll(rows, front), offered + Elements(front);
      assert offered + Elements(offers) == held + {last};
      UpsertKeepsLargest(before, held, last);
    }
  }

  /** The largest of a set of offers is one thing, whatever order they came in. */
  lemma LargestIsUnique(a: Rows, b: Rows, offered: set<Response>)
    requires IsLargestOffered(a, offered) && IsLargestOffered(b, offered)
    ensures SameCounts(a, b)
    ensures forall i :: i in a ==> (a[i].window.Some? <==> b[i].window.Some?)
  {
    forall i | i in a
      ensures i in b
      ensures a[i].counts == b[i].counts
      ensures a[i].window.Some? <==> b[i].window.Some?
    {
      LargestAgreeAt(a, b, offered, i);
      LargestAgreeAt(b, a, offered, i);
    }
    forall i | i in b
      ensures i in a
    {
      LargestAgreeAt(b, a, offered, i);
    }
  }

  lemma LargestAgreeAt(a: Rows, b: Rows, offered: set<Response>, i: Id)
    requires IsLargestOffered(a, offered) && IsLargestOffered(b, offered) && i in a
    ensures i in b
    ensures Leq(a[i].counts, b[i].counts)
    ensures a[i].window.Some? ==> b[i].window.Some?
  {
    assert Attained(offered, i, a[i]);
    var x :| x in offered && x.id == i && x.counts.out == a[i].counts.out;
    var y :| y in offered && y.id == i && y.counts.cacheRead == a[i].counts.cacheRead;
    var z :| z in offered && z.id == i && z.counts.context == a[i].counts.context;
    var w :| w in offered && w.id == i && w.window == a[i].window;
    assert Bounded(b, x) && Bounded(b, y) && Bounded(b, z) && Bounded(b, w);
  }

  /**
    Two lists of offers holding the same offers leave a history with the same counts,
    in whatever order and however often each came.
    */
  lemma OrderFree(rows: Rows, xs: seq<Response>, ys: seq<Response>)
    requires WellKeyed(rows)
    requires rows.Values + Elements(xs) == rows.Values + Elements(ys)
    ensures SameCounts(UpsertAll(rows, xs), UpsertAll(rows, ys))
    ensures var a, b := UpsertAll(rows, xs), UpsertAll(rows, ys);
            forall i :: i in a ==> i in b && (a[i].window.Some? <==> b[i].window.Some?)
  {
    RowsAreLargest(rows);
    UpsertAllKeepsLargest(rows, rows.Values, xs);
    UpsertAllKeepsLargest(rows, rows.Values, ys);
    LargestIsUnique(UpsertAll(rows, xs), UpsertAll(rows, ys), rows.Values + Elements(xs));
  }

  /** A history that already holds everything offered is left as it was, to the last field. */
  lemma {:induction false} Absorbed(rows: Rows, offers: seq<Response>)
    requires forall o :: o in offers ==> Bounded(rows, o)
    ensures UpsertAll(rows, offers) == rows
  {
    if offers != [] {
      var front, last := offers[..|offers| - 1], offers[|offers| - 1];
      assert offers == front + [last];
      Absorbed(rows, front);
      assert Bounded(rows, last);
      assert Merge(rows[last.id], last) == rows[last.id];
    }
  }

  /** Offering the same list twice is offering it once: a re-push or a re-read changes nothing. */
  lemma OfferedTwiceIsOnce(rows: Rows, offers: seq<Response>)
    requires WellKeyed(rows)
    ensures UpsertAll(UpsertAll(rows, offers), offers) == UpsertAll(rows, offers)
  {
    RowsAreLargest(rows);
    UpsertAllKeepsLargest(rows, rows.Values, offers);
    var all := rows.Values + Elements(offers);
    assert forall o :: o in offers ==> o in all;
    Absorbed(UpsertAll(rows, offers), offers);
  }
}
