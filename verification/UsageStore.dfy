/**
  The usage history: one row a response and one cursor a transcript, both written in
  one transaction, and the push that sends one history's rows into another.
  */
module UsageStore {
  import opened Options
  import opened Responses
  import Transcripts

  type Cursors = Transcripts.Cursors

  /** The first statement of a transaction that throws, counted from zero; `COMMIT` is the last. */
  type Failure = Option<nat>

  predicate Commits(statements: nat, failure: Failure) {
    failure.None? || statements < failure.value
  }

  class Store {
    var rows: Rows
    var cursors: Cursors

    constructor ()
      ensures rows == map[] && cursors == map[]
    {
      rows, cursors := map[], map[];
    }

    /** One `INSERT … ON CONFLICT DO UPDATE`. */
    method InsertRow(r: Response)
      modifies this
      ensures rows == Upsert(old(rows), r) && cursors == old(cursors)
    {
      if r.id in rows {
        SqlUpdateIsMerge(rows[r.id], r);
      }
      rows := rows[r.id := if r.id in rows then SqlUpdate(rows[r.id], r) else r];
    }

    /** Every row of the transaction, up to the statement that throws. */
    method InsertRows(responses: seq<Response>, failure: Failure) returns (ok: bool)
      modifies this
      ensures ok == (failure.None? || |responses| <= failure.value)
      ensures ok ==> rows == UpsertAll(old(rows), responses)
      ensures cursors == old(cursors)
    {
      hide UpsertAll, Upsert;
      ghost var before := rows;
      assert UpsertAll(before, []) == before by { UpsertAllNothing(before); }
      assert responses[..0] == [];
      for i := 0 to |responses|
        invariant rows == UpsertAll(before, responses[..i])
        invariant cursors == old(cursors)
        invariant failure.Some? ==> i <= failure.value
      {
        if failure == Some(i) {
          return false;
        }
        UpsertAllSnoc(before, responses[..i], responses[i]);
        assert responses[..i + 1] == responses[..i] + [responses[i]];
        InsertRow(responses[i]);
      }
      assert responses[..|responses|] == responses;
      return true;
    }

    /** Every cursor of the transaction, statements `first` onwards, up to the one that throws. */
    method MoveCursors(moved: Cursors, first: nat, failure: Failure) returns (ok: bool)
      requires failure.Some? ==> first <= failure.value
      modifies this
      ensures ok == (failure.None? || first + |moved| <= failure.value)
      ensures ok ==> cursors == old(cursors) + moved
      ensures rows == old(rows)
    {
      var left, done := moved.Keys, 0;
      assert moved - left == map[];
      while left != {}
        invariant left <= moved.Keys && done + |left| == |moved.Keys|
        invariant rows == old(rows)
        invariant cursors == old(cursors) + (moved - left)
        invariant failure.Some? ==> first + done <= failure.value
        decreases left
      {
        if failure == Some(first + done) {
          return false;
        }
        var path :| path in left;
        OneMoreMoved(old(cursors), moved, left, path);
        cursors := cursors[path := moved[path]];
        left, done := left - {path}, done + 1;
      }
      assert moved - left == moved;
      assert |moved.Keys| == |moved|;
      return true;
    }

    /**
      Every response upserted and every cursor replaced, or nothing at all, so that no cursor
      stands behind a row that was rolled back.
      */
    method Record(responses: seq<Response>, moved: Cursors, failure: Failure) returns (ok: bool)
      modifies this
      ensures ok == Commits(|responses| + |moved|, failure)
      ensures ok ==> rows == UpsertAll(old(rows), responses) && cursors == old(cursors) + moved
      ensures !ok ==> rows == old(rows) && cursors == old(cursors)
    {
      hide UpsertAll, Upsert;
      var rowsBefore, cursorsBefore := rows, cursors;
      ok := InsertRows(responses, failure);
      if ok {
        ok := MoveCursors(moved, |responses|, failure);
        ok := ok && (failure.None? || failure.value != |responses| + |moved|);
      }
      if !ok {
        rows, cursors := rowsBefore, cursorsBefore;
      }
    }

    method Count() returns (n: nat)
      ensures n == |rows|
    {
      n := |rows|;
    }

    /**
      A history from before contexts were stored: its rows read as unknown, and every
      cursor is forgotten, in one transaction.
      */
    method AddContext(failure: Failure) returns (ok: bool)
      modifies this
      ensures ok == Commits(3, failure)
      ensures ok ==> rows == Forget(old(rows)) && cursors == map[]
      ensures !ok ==> rows == old(rows) && cursors == old(cursors)
    {
      var rowsBefore, cursorsBefore := rows, cursors;
      ok := failure != Some(0);
      if ok {
        rows := WithoutContext(rows);
        ok := failure != Some(1);
      }
      if ok {
        rows := WithoutWindow(rows);
        ok := failure != Some(2);
      }
      if ok {
        cursors := map[];
        ok := failure != Some(3);
      }
      if !ok {
        rows, cursors := rowsBefore, cursorsBefore;
      }
    }
  }

  lemma OneMoreMoved(was: Cursors, moved: Cursors, left: set<string>, path: string)
    requires path in left && left <= moved.Keys
    ensures (was + (moved - left))[path := moved[path]] == was + (moved - (left - {path}))
  {
  }

  /** A `context` column newly added holds nothing in any row. */
  function WithoutContext(rows: Rows): Rows {
    map i | i in rows :: rows[i].(counts := rows[i].counts.(context := None))
  }

  function WithoutWindow(rows: Rows): Rows {
    map i | i in rows :: rows[i].(window := None)
  }

  /** The rows of a six-column history: no context and no window is known. */
  function Forget(rows: Rows): Rows {
    map i | i in rows :: rows[i].(counts := rows[i].counts.(context := None), window := None)
  }

  // --------------------------------------------------------------------- push

  /** A pushed row. A field the wire leaves out is `None`; one sent as null is `Some(None)`. */
  datatype PushedResponse = PushedResponse(
    id: Id,
    session: Option<string>,
    branch: Option<string>,
    at: Option<string>,
    out: nat,
    cacheRead: nat,
    context: Option<Option<nat>>,
    window: Option<Option<string>>)

  datatype Push = Push(responses: seq<PushedResponse>, issues: Option<nat>)

  datatype Refusal = NotAPush | NoVolume | NowhereForListing

  datatype Outcome =
    | Stored(received: nat, inserted: int, issues: Option<nat>)
    | Refused(why: Refusal)
    | Thrown

  function Flatten<T>(field: Option<Option<T>>): Option<T> {
    if field.Some? then field.value else None
  }

  function ToRow(p: PushedResponse): Response {
    Response(p.id, p.session, p.branch, p.at, Counts(p.out, p.cacheRead, Flatten(p.context)), Flatten(p.window))
  }

  function ToRows(ps: seq<PushedResponse>): (rs: seq<Response>)
    ensures |rs| == |ps|
    ensures forall k :: 0 <= k < |ps| ==> rs[k] == ToRow(ps[k])
  {
    seq(|ps|, k requires 0 <= k < |ps| => ToRow(ps[k]))
  }

  /** What a laptop on this code sends: every row it holds, each field by name. */
  function FromRow(r: Response): PushedResponse {
    PushedResponse(r.id, r.session, r.branch, r.at, r.counts.out, r.counts.cacheRead,
                   Some(r.counts.context), Some(r.window))
  }

  function Sent(rs: seq<Response>): seq<PushedResponse> {
    seq(|rs|, k requires 0 <= k < |rs| => FromRow(rs[k]))
  }

  /** The same row with only the six fields a server from before contexts takes. */
  function ToPre642(p: PushedResponse): PushedResponse {
    p.(context := None, window := None)
  }

  function ToPre642Push(push: Push): Push {
    push.(responses := seq(|push.responses|, k requires 0 <= k < |push.responses| => ToPre642(push.responses[k])))
  }

  function IdsOf(rs: seq<Response>): set<Id> {
    set r | r in rs :: r.id
  }

  lemma {:induction false} UpsertAllKeys(rows: Rows, rs: seq<Response>)
    ensures UpsertAll(rows, rs).Keys == rows.Keys + IdsOf(rs)
  {
    if rs != [] {
      var front, last := rs[..|rs| - 1], rs[|rs| - 1];
      UpsertAllKeys(rows, front);
      assert rs == front + [last];
      assert IdsOf(rs) == IdsOf(front) + {last.id};
    }
  }

  lemma UnionSize(held: set<Id>, ids: set<Id>)
    ensures |held + ids| == |held| + |ids - held|
  {
    assert held + ids == held + (ids - held);
  }

  /** The rows of an accepted push, and how many of them were new: the count after less the count before. */
  method StorePush(store: Store, rs: seq<Response>, failure: Failure) returns (ok: bool, inserted: int)
    modifies store
    ensures store.cursors == old(store.cursors)
    ensures !ok ==> store.rows == old(store.rows)
    ensures ok == Commits(|rs|, failure)
    ensures ok ==> store.rows == UpsertAll(old(store.rows), rs)
    ensures ok ==> inserted == |IdsOf(rs) - old(store.rows).Keys|
  {
    hide UpsertAll, IdsOf;
    var before := store.Count();
    UpsertAllKeys(store.rows, rs);
    UnionSize(store.rows.Keys, IdsOf(rs));
    ok := store.Record(rs, map[], failure);
    var after := store.Count();
    inserted := after - before;
  }

  /**
    Store a push: refused whole before anything is written, or every row upserted.
    `body` is nothing when the schema refuses it. The stamp and the listing are written once
    the rows are stored: when either throws the push fails and the rows stay.
    */
  method AcceptPush(store: Store, body: Option<Push>, hasHistoryFile: bool, hasIssuesFile: bool, failure: Failure,
                    stampThrows: bool, listingThrows: bool)
    returns (outcome: Outcome)
    modifies store
    ensures outcome.Refused? <==> body.None? || !hasHistoryFile || (body.value.issues.Some? && !hasIssuesFile)
    ensures store.cursors == old(store.cursors)
    ensures outcome.Refused? ==> store.rows == old(store.rows)
    ensures !outcome.Refused? ==>
              var rs := ToRows(body.value.responses);
              if Commits(|rs|, failure) then
                && store.rows == UpsertAll(old(store.rows), rs)
                && outcome == if stampThrows || (body.value.issues.Some? && listingThrows) then Thrown
                              else Stored(|rs|, |IdsOf(rs) - old(store.rows).Keys|, body.value.issues)
              else
                store.rows == old(store.rows) && outcome == Thrown
  {
    hide UpsertAll, Upsert, ToRow, IdsOf;
    if body.None? {
      return Refused(NotAPush);
    }
    if !hasHistoryFile {
      return Refused(NoVolume);
    }
    if body.value.issues.Some? && !hasIssuesFile {
      return Refused(NowhereForListing);
    }
    var rs := ToRows(body.value.responses);
    var ok, inserted := StorePush(store, rs, failure);
    if !ok || stampThrows {
      return Thrown;
    }
    if body.value.issues.Some? && listingThrows {
      return Thrown;
    }
    return Stored(|rs|, inserted, body.value.issues);
  }

  /** `rs` is every row of `held`, each once, in whatever order. */
  ghost predicate EveryRow(rs: seq<Response>, held: Rows) {
    && (forall k :: 0 <= k < |rs| ==> rs[k].id in held && held[rs[k].id] == rs[k])
    && (forall j, k :: 0 <= j < k < |rs| ==> rs[j].id != rs[k].id)
    && IdsOf(rs) == held.Keys
  }

  lemma {:induction false} RowsOnce(rs: seq<Response>)
    requires forall j, k :: 0 <= j < k < |rs| ==> rs[j].id != rs[k].id
    ensures var rows := UpsertAll(map[], rs);
      rows.Keys == IdsOf(rs) && forall k :: 0 <= k < |rs| ==> rows[rs[k].id] == rs[k]
  {
    UpsertAllKeys(map[], rs);
    if rs != [] {
      var front, last := rs[..|rs| - 1], rs[|rs| - 1];
      RowsOnce(front);
      assert forall k :: 0 <= k < |front| ==> front[k] == rs[k];
      assert last.id !in IdsOf(front);
    }
  }

  /** A row is taken as it was sent. */
  lemma SentRowsArrive(rs: seq<Response>)
    ensures ToRows(Sent(rs)) == rs
  {
    var arrived := ToRows(Sent(rs));
    forall k | 0 <= k < |rs|
      ensures arrived[k] == rs[k]
    {
    }
  }

  /**
    A history pushed whole is merged into the one that takes it, row by row, whatever order its
    rows are sent in; an empty history that takes it is then the same history.
    */
  lemma HistoryPushedWhole(rows: Rows, held: Rows, rs: seq<Response>)
    requires EveryRow(rs, held)
    ensures var after := UpsertAll(rows, ToRows(Sent(rs)));
      && after.Keys == rows.Keys + held.Keys
      && forall i :: i in after ==>
           after[i] == if i in rows && i in held then Merge(rows[i], held[i])
                       else if i in rows then rows[i] else held[i]
    ensures UpsertAll(map[], ToRows(Sent(rs))) == held
  {
    SentRowsArrive(rs);
    RowsOnce(rs);
    HeldAlone(rs, held);
    hide UpsertAll, Sent, ToRows;
    var after := UpsertAll(rows, rs);
    forall i
      ensures i in after <==> i in rows || i in held
      ensures i in after ==>
        after[i] == if i in rows && i in held then Merge(rows[i], held[i]) else if i in rows then rows[i] else held[i]
    {
      UpsertAllIsOneMerge(rows, rs, i);
    }
  }

  lemma HeldAlone(rs: seq<Response>, held: Rows)
    requires EveryRow(rs, held)
    ensures UpsertAll(map[], rs) == held
  {
    RowsOnce(rs);
    var alone := UpsertAll(map[], rs);
    hide UpsertAll;
    forall i | i in held
      ensures alone[i] == held[i]
    {
      assert i in IdsOf(rs);
      var k :| 0 <= k < |rs| && rs[k].id == i;
    }
  }

  /**
    A push cut to six fields, stored after the whole one, changes nothing: what it leaves out
    is already known.
    */
  lemma SixFieldsAfterWhole(rows: Rows, ps: seq<PushedResponse>)
    requires WellKeyed(rows)
    ensures var whole := UpsertAll(rows, ToRows(ps));
            UpsertAll(whole, ToRows(ToPre642Push(Push(ps, None)).responses)) == whole
  {
    var whole := UpsertAll(rows, ToRows(ps));
    var six := ToPre642Push(Push(ps, None)).responses;
    RowsAreLargest(rows);
    UpsertAllKeepsLargest(rows, rows.Values, ToRows(ps));
    forall o | o in ToRows(six)
      ensures Bounded(whole, o)
    {
      var k :| 0 <= k < |six| && o == ToRow(six[k]);
      assert ToRow(ps[k]) in ToRows(ps);
      assert Bounded(whole, ToRow(ps[k]));
    }
    Absorbed(whole, ToRows(six));
  }

  lemma {:induction false} SixFieldsFirst(ps: seq<PushedResponse>, i: Id)
    ensures var six, whole := ToRows(ToPre642Push(Push(ps, None)).responses), ToRows(ps);
      && FirstWindow(six, i).None?
      && (FirstOf(six, i).Some? <==> FirstOf(whole, i).Some?)
      && (FirstOf(six, i).Some? ==> Origin(FirstOf(six, i).value) == Origin(FirstOf(whole, i).value))
  {
    if ps != [] {
      SixFieldsFirst(ps[1..], i);
      assert ToRows(ToPre642Push(Push(ps, None)).responses)[1..] == ToRows(ToPre642Push(Push(ps[1..], None)).responses);
      assert ToRows(ps)[1..] == ToRows(ps[1..]);
    }
  }

  /**
    The whole push stored after the six-field one leaves what the whole push alone would
    leave, to the last field: a server that took the six fields first lost nothing.
    */
  lemma WholeAfterSixFields(rows: Rows, ps: seq<PushedResponse>)
    requires WellKeyed(rows)
    ensures UpsertAll(UpsertAll(rows, ToRows(ToPre642Push(Push(ps, None)).responses)), ToRows(ps))
         == UpsertAll(rows, ToRows(ps))
  {
    var six, whole := ToRows(ToPre642Push(Push(ps, None)).responses), ToRows(ps);
    UpsertAllConcat(rows, six, whole);
    forall i
      ensures FirstWindow(six + whole, i) == FirstWindow(whole, i)
      ensures FirstOf(six + whole, i).Some? && FirstOf(whole, i).Some? ==>
                Origin(FirstOf(six + whole, i).value) == Origin(FirstOf(whole, i).value)
    {
      SixFieldsFirst(ps, i);
      FirstOfConcat(six, whole, i);
      FirstWindowConcat(six, whole, i);
    }
    SixFieldsAddNoCount(rows, ps);
    SameRows(rows, six + whole, whole);
  }

  lemma SixFieldsAddNoCount(rows: Rows, ps: seq<PushedResponse>)
    requires WellKeyed(rows)
    ensures var six, whole := ToRows(ToPre642Push(Push(ps, None)).responses), ToRows(ps);
      SameCounts(UpsertAll(rows, six + whole), UpsertAll(rows, whole))
  {
    var six, whole := ToRows(ToPre642Push(Push(ps, None)).responses), ToRows(ps);
    var all := rows.Values + Elements(six + whole);
    RowsAreLargest(rows);
    UpsertAllKeepsLargest(rows, rows.Values, six + whole);
    UpsertAllKeepsLargest(rows, rows.Values, whole);
    var after := UpsertAll(rows, whole);
    forall o | o in all
      ensures Bounded(after, o)
    {
      if o in six {
        var k :| 0 <= k < |six| && o == six[k];
        assert ToRow(ps[k]) in whole;
        assert Bounded(after, ToRow(ps[k]));
      }
    }
    forall i | i in after
      ensures Attained(all, i, after[i])
    {
      AttainedByMore(rows.Values + Elements(whole), all, i, after[i]);
    }
    LargestIsUnique(UpsertAll(rows, six + whole), after, all);
  }
}
