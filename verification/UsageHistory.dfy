/**
  Whole runs of the usage history: scans that resume from their cursors, scans that
  roll back, pushes from elsewhere, and what they leave stored.
  */
module UsageHistory {
  import opened Options
  import opened Responses
  import opened Transcripts
  import opened UsageStore

  datatype History = History(rows: Rows, cursors: Transcripts.Cursors)

  /** A scan of what the directory held then, or rows received from another history. */
  datatype Event =
    | Scan(dir: seq<File>, commits: bool)
    | Received(responses: seq<Response>, commits: bool)

  /** What one event offers the history. */
  function OfferedBy(parse: Parser, h: History, e: Event): seq<Response> {
    if !e.commits then []
    else match e
      case Scan(dir, _) => ScanOffers(parse, dir, h.cursors)
      case Received(responses, _) => responses
  }

  function Step(parse: Parser, h: History, e: Event): History {
    History(UpsertAll(h.rows, OfferedBy(parse, h, e)),
            if e.Scan? && e.commits then h.cursors + ScanCursors(e.dir, h.cursors) else h.cursors)
  }

  function Run(parse: Parser, h: History, events: seq<Event>): History {
    if events == [] then h
    else Step(parse, Run(parse, h, events[..|events| - 1]), events[|events| - 1])
  }

  /** Everything offered along a run, in order. */
  function Trace(parse: Parser, h: History, events: seq<Event>): seq<Response> {
    if events == [] then []
    else
      var before := events[..|events| - 1];
      Trace(parse, h, before) + OfferedBy(parse, Run(parse, h, before), events[|events| - 1])
  }

  lemma {:induction false} RunFoldsTrace(parse: Parser, h: History, events: seq<Event>)
    ensures Run(parse, h, events).rows == UpsertAll(h.rows, Trace(parse, h, events))
  {
    if events != [] {
      var before, e := events[..|events| - 1], events[|events| - 1];
      RunFoldsTrace(parse, h, before);
      UpsertAllConcat(h.rows, Trace(parse, h, before), OfferedBy(parse, Run(parse, h, before), e));
    }
  }

  // --------------------------------------------------------- the scan, imperatively

  lemma {:induction false} ListedPrefix(responses: seq<Response>, seen: map<Id, nat>, rows: Rows, n: nat)
    requires Listed(responses, seen, rows) && n <= |responses|
    ensures var fold := UpsertAll(map[], responses[..n]);
      forall i :: (i in fold <==> i in seen && seen[i] < n) && (i in fold ==> fold[i] == rows[i])
  {
    if n > 0 {
      ListedPrefix(responses, seen, rows, n - 1);
      assert responses[..n] == responses[..n - 1] + [responses[n - 1]];
      UpsertAllSnoc(map[], responses[..n - 1], responses[n - 1]);
      hide UpsertAll, Merge;
    }
  }

  /** Storing the deduplicated list is storing every offer it was folded from. */
  lemma StoringListIsStoringOffers(rows: Rows, responses: seq<Response>, seen: map<Id, nat>, offers: seq<Response>)
    requires Listed(responses, seen, UpsertAll(map[], offers))
    ensures UpsertAll(rows, responses) == UpsertAll(rows, offers)
  {
    var fold := UpsertAll(map[], offers);
    ListedPrefix(responses, seen, fold, |responses|);
    assert responses[..|responses|] == responses;
    assert UpsertAll(map[], responses) == fold;
    FoldAlike(rows, responses, offers);
  }

  /** One scan as the dev server runs it: read from the stored cursors, then store rows and cursors together. */
  method ScanInto(store: Store, parse: Parser, dir: seq<File>, failure: Failure) returns (ok: bool)
    modifies store
    ensures History(store.rows, store.cursors)
         == Step(parse, History(old(store.rows), old(store.cursors)), Scan(dir, ok))
    ensures failure.None? ==> ok
  {
    hide Listed, ScanOffers, ScanCursors;
    var responses, next; ghost var seen;
    responses, next, seen := ReadTranscripts(parse, dir, store.cursors);
    StoringListIsStoringOffers(store.rows, responses, seen, ScanOffers(parse, dir, store.cursors));
    UpsertAllNothing(store.rows);
    ok := store.Record(responses, next, failure);
  }

  // ------------------------------------------------------ files that only grow

  /**
    A line being written parses to nothing until its record is whole, and from then on
    to that record.
    */
  ghost predicate Stable(parse: Parser, bytes: Bytes) {
    var end := LineEnd(bytes);
    && (forall j, k :: 0 < j <= k <= end && parse(bytes[..j]).Some? ==> parse(bytes[..k]) == parse(bytes[..j]))
    && (end < |bytes| ==> Stable(parse, bytes[end + 1..]))
  }

  ghost predicate EndsLine(bytes: Bytes) {
    bytes == [] || bytes[|bytes| - 1] == NEWLINE
  }

  lemma LineEndAt(bytes: Bytes, at: nat)
    requires at <= |bytes| && forall k :: 0 <= k < at ==> bytes[k] != NEWLINE
    ensures at <= LineEnd(bytes)
    ensures at == |bytes| || bytes[at] == NEWLINE ==> LineEnd(bytes) == at
  {
  }

  lemma StableUnfold(parse: Parser, bytes: Bytes)
    requires Stable(parse, bytes)
    ensures var end := LineEnd(bytes);
      && (forall j :: 0 < j <= end && parse(bytes[..j]).Some? ==> parse(bytes[..end]) == parse(bytes[..j]))
      && (end < |bytes| ==> Stable(parse, bytes[end + 1..]))
  {
    hide LineEnd;
  }

  lemma TakeOfPrefix(early: Bytes, late: Bytes, n: nat)
    requires early <= late && n <= |early|
    ensures early[..n] == late[..n] && early[n..] <= late[n..]
  {
  }

  lemma LineEndGrows(early: Bytes, late: Bytes)
    requires early <= late
    ensures LineEnd(early) <= LineEnd(late)
    ensures LineEnd(early) < |early| ==> LineEnd(late) == LineEnd(early)
  {
    hide *;
    forall k | 0 <= k < LineEnd(early)
      ensures late[k] != NEWLINE
    {
      assert early[k] != NEWLINE;
    }
    LineEndAt(late, LineEnd(early));
  }

  /** A line half-written offers nothing, or what it will. */
  lemma HalfLineGrows(parse: Parser, file: string, early: Bytes, late: Bytes, number: nat)
    requires early <= late && Stable(parse, late) && LineEnd(early) == |early|
    ensures OfferOf(parse, file, number, early) <= OfferOf(parse, file, number, late[..LineEnd(late)])
  {
    StableUnfold(parse, late);
    LineEndGrows(early, late);
    TakeOfPrefix(early, late, |early|);
    hide Stable, LineEnd;
    assert early[..|early|] == early;
  }

  /** More of a file offers more, and what it offered already it offers again, in the same order. */
  lemma {:induction false} OffersGrow(parse: Parser, file: string, early: Bytes, late: Bytes, before: nat)
    requires early <= late && Stable(parse, late)
    ensures Offers(parse, file, early, before) <= Offers(parse, file, late, before)
    decreases |early|
  {
    hide *;
    var e := LineEnd(early);
    LineEndGrows(early, late);
    StableUnfold(parse, late);
    OffersUnfold(parse, file, early, before);
    OffersUnfold(parse, file, late, before);
    if e < |early| {
      TakeOfPrefix(early, late, e);
      TakeOfPrefix(early, late, e + 1);
      OffersGrow(parse, file, early[e + 1..], late[e + 1..], before + 1);
    } else {
      assert early[..e] == early;
      HalfLineGrows(parse, file, early, late, before + 1);
    }
  }

  lemma LineEndConcat(a: Bytes, b: Bytes)
    requires a != [] && EndsLine(a)
    ensures LineEnd(a + b) == LineEnd(a) < |a|
    ensures (a + b)[LineEnd(a) + 1..] == a[LineEnd(a) + 1..] + b
    ensures (a + b)[..LineEnd(a)] == a[..LineEnd(a)]
    ensures EndsLine(a[LineEnd(a) + 1..])
  {
    var e := LineEnd(a);
    assert (a + b)[..e] == a[..e];
    LineEndAt(a + b, e);
  }

  lemma NewlinesUnfold(bytes: Bytes)
    ensures var end := LineEnd(bytes);
      Newlines(bytes) == if end == |bytes| then 0 else 1 + Newlines(bytes[end + 1..])
  {
    hide LineEnd;
  }

  lemma OffersSplitStep(parse: Parser, file: string, a: Bytes, b: Bytes, before: nat)
    requires a != [] && EndsLine(a)
    requires var rest := a[LineEnd(a) + 1..];
      Offers(parse, file, rest + b, before + 1)
      == Offers(parse, file, rest, before + 1) + Offers(parse, file, b, before + 1 + Newlines(rest))
    ensures Offers(parse, file, a + b, before)
         == Offers(parse, file, a, before) + Offers(parse, file, b, before + Newlines(a))
  {
    hide Offers, OfferOf, LineEnd;
    LineEndConcat(a, b);
    OffersUnfold(parse, file, a, before);
    OffersUnfold(parse, file, a + b, before);
    hide Newlines;
    NewlinesUnfold(a);
  }

  lemma OffersOfNothing(parse: Parser, file: string, before: nat)
    ensures Offers(parse, file, [], before) == []
  {
  }

  /** Whole lines can be read on their own: the rest is numbered from where they end. */
  lemma {:induction false} OffersSplit(parse: Parser, file: string, a: Bytes, b: Bytes, before: nat)
    requires EndsLine(a)
    ensures Offers(parse, file, a + b, before)
         == Offers(parse, file, a, before) + Offers(parse, file, b, before + Newlines(a))
    decreases |a|
  {
    hide Offers, OfferOf, Newlines, LineEnd;
    if a == [] {
      assert a + b == b;
      OffersOfNothing(parse, file, before);
      NoNewlines();
    } else {
      LineEndConcat(a, b);
      OffersSplit(parse, file, a[LineEnd(a) + 1..], b, before + 1);
      OffersSplitStep(parse, file, a, b, before);
    }
  }

  lemma {:induction false} LinesSplit(a: Bytes, b: Bytes)
    requires EndsLine(a)
    ensures Newlines(a + b) == Newlines(a) + Newlines(b)
    ensures Complete(a + b) == |a| + Complete(b)
    decreases |a|
  {
    CompleteIs(a + b, |a| + Complete(b));
    if a == [] {
      assert a + b == b;
    } else {
      hide *;
      LineEndConcat(a, b);
      NewlinesUnfold(a);
      NewlinesUnfold(a + b);
      LinesSplit(a[LineEnd(a) + 1..], b);
    }
  }

  lemma CompleteIs(bytes: Bytes, n: nat)
    requires n <= |bytes| && (n == 0 || bytes[n - 1] == NEWLINE)
    requires forall k :: n <= k < |bytes| ==> bytes[k] != NEWLINE
    ensures Complete(bytes) == n
  {
    hide Complete;
  }

  lemma {:induction false} NewlinesOfComplete(bytes: Bytes)
    ensures Newlines(bytes) == Newlines(bytes[..Complete(bytes)])
  {
    var whole, tail := bytes[..Complete(bytes)], bytes[Complete(bytes)..];
    assert bytes == whole + tail;
    LinesSplit(whole, tail);
    LineEndAt(tail, |tail|);
  }

  /** `c` stands where a reading of a file that has since become `content` stopped. */
  ghost predicate ValidCursor(c: Cursor, content: Bytes) {
    && c.offset <= c.size <= |content|
    && EndsLine(content[..c.offset])
    && (forall k :: c.offset <= k < c.size ==> content[k] != NEWLINE)
    && c.lines == Newlines(content[..c.offset])
    && c.head == content[..Min(c.offset, HEAD_BYTES)]
  }

  /** What an earlier reading had already taken of the file as it is now. */
  function Already(parse: Parser, f: File, prior: Option<Cursor>): seq<Response> {
    if Unchanged(f.content, prior) then Offers(parse, f.name, f.content, 0)
    else if Resume(f.content, prior).None? then []
    else Offers(parse, f.name, f.content[..prior.value.offset], 0)
  }

  /** A resumed reading takes exactly what the whole reading would, less what was taken before. */
  lemma ResumedReadIsTheRest(parse: Parser, f: File, prior: Option<Cursor>, content: Bytes)
    requires f.content <= content
    requires prior.Some? ==> ValidCursor(prior.value, content)
    ensures Offers(parse, f.name, f.content, 0) == Already(parse, f, prior) + FileOffers(parse, f, prior)
  {
    hide Offers, LineEnd, Newlines;
    assert f.content[0..] == f.content;
    if !Unchanged(f.content, prior) && Resume(f.content, prior).Some? {
      var o := prior.value.offset;
      assert f.content[..o] == content[..o];
      assert f.content == f.content[..o] + f.content[o..];
      OffersSplit(parse, f.name, f.content[..o], f.content[o..], 0);
    }
  }

  lemma ReadingFrom(bytes: Bytes, from: nat)
    requires from <= |bytes| && EndsLine(bytes[..from])
    ensures var offset := from + Complete(bytes[from..]);
      && EndsLine(bytes[..offset])
      && (forall k :: offset <= k < |bytes| ==> bytes[k] != NEWLINE)
      && Newlines(bytes[..from]) + Newlines(bytes[from..]) == Newlines(bytes[..offset])
  {
    hide Newlines, Complete, LineEnd;
    var a, b := bytes[..from], bytes[from..];
    assert a + b == bytes;
    LinesSplit(a, b);
    assert from + Complete(b) == Complete(bytes);
    NewlinesOfComplete(bytes);
  }

  /** The cursor a reading leaves stands for that reading. */
  lemma CursorStaysValid(f: File, prior: Option<Cursor>, content: Bytes)
    requires f.content <= content
    requires prior.Some? ==> ValidCursor(prior.value, content)
    ensures ValidCursor(FileCursor(f.content, prior), content)
    ensures FileCursor(f.content, prior).size == |f.content|
  {
    hide Newlines, Complete, LineEnd;
    if !Unchanged(f.content, prior) {
      var resume := Resume(f.content, prior);
      var from := if resume.Some? then resume.value.offset else 0;
      var lines := if resume.Some? then resume.value.lines else 0;
      NoNewlines();
      assert f.content[..from] == content[..from];
      assert EndsLine(f.content[..from]) && lines == Newlines(f.content[..from]);
      hide EndsLine, Resume, ValidCursor;
      ReadFromIsValid(f.content, content, from, lines);
    }
  }

  /** The cursor left by reading on from `from`, with `lines` before it, in a file that has grown since. */
  lemma ReadFromIsValid(bytes: Bytes, content: Bytes, from: nat, lines: nat)
    requires bytes <= content && from <= |bytes| && EndsLine(bytes[..from]) && lines == Newlines(bytes[..from])
    ensures var offset := from + Complete(bytes[from..]);
      ValidCursor(Cursor(offset, |bytes|, lines + Newlines(bytes[from..]), bytes[..Min(offset, HEAD_BYTES)]), content)
  {
    hide Newlines, Complete, LineEnd, EndsLine;
    ReadingFrom(bytes, from);
    var offset := from + Complete(bytes[from..]);
    assert content[..offset] == bytes[..offset];
    assert bytes[..Min(offset, HEAD_BYTES)] == content[..Min(offset, HEAD_BYTES)];
  }

  lemma NoNewlines()
    ensures Newlines([]) == 0
  {
  }

  // ------------------------------------------------- runs over growing files

  type Files = map<string, Bytes>

  /** `dir` is what a scan may find of files that end up as `final`: prefixes, each name once. */
  ghost predicate Views(dir: seq<File>, final: Files) {
    && (forall k :: 0 <= k < |dir| ==> dir[k].name in final && dir[k].content <= final[dir[k].name])
    && (forall j, k :: 0 <= j < k < |dir| ==> dir[j].name != dir[k].name)
  }

  /** `dir` lists exactly the files of `final`, whole. */
  ghost predicate Lists(dir: seq<File>, final: Files) {
    && Views(dir, final)
    && (forall k :: 0 <= k < |dir| ==> dir[k].content == final[dir[k].name])
    && (forall name :: name in final ==> exists k :: 0 <= k < |dir| && dir[k].name == name)
  }

  ghost predicate Grows(parse: Parser, final: Files, events: seq<Event>) {
    && (forall name :: name in final ==> Stable(parse, final[name]))
    && (forall k :: 0 <= k < |events| && events[k].Scan? ==> Views(events[k].dir, final))
  }

  function Whole(parse: Parser, final: Files, name: string): seq<Response>
    requires name in final
  {
    Offers(parse, name, final[name], 0)
  }

  /** Every cursor stands in its file, and what it has passed has been offered. */
  ghost predicate Covered(parse: Parser, final: Files, cursors: Transcripts.Cursors, offered: set<Response>) {
    forall name :: name in cursors ==>
      && name in final
      && ValidCursor(cursors[name], final[name])
      && Elements(Offers(parse, name, final[name][..cursors[name].size], 0)) <= offered
  }

  /** One file of a scan: its whole view has now been offered, and nothing its file does not hold. */
  lemma FileScanned(parse: Parser, final: Files, f: File, cursors: Transcripts.Cursors, offered: set<Response>)
    requires f.name in final && f.content <= final[f.name] && Stable(parse, final[f.name])
    requires Covered(parse, final, cursors, offered)
    ensures var prior := CursorFor(cursors, f.name);
      && ValidCursor(FileCursor(f.content, prior), final[f.name])
      && FileCursor(f.content, prior).size == |f.content|
      && Elements(Already(parse, f, prior)) <= offered
      && Offers(parse, f.name, f.content, 0) == Already(parse, f, prior) + FileOffers(parse, f, prior)
      && Elements(Offers(parse, f.name, f.content, 0)) <= offered + Elements(FileOffers(parse, f, prior))
      && Elements(FileOffers(parse, f, prior)) <= Elements(Whole(parse, final, f.name))
  {
    hide Offers, FileOffers, FileCursor, Stable, Complete, Newlines, LineEnd;
    var prior := CursorFor(cursors, f.name);
    var content := final[f.name];
    CursorStaysValid(f, prior, content);
    ResumedReadIsTheRest(parse, f, prior, content);
    OffersGrow(parse, f.name, f.content, content, 0);
    ElementsConcat(Already(parse, f, prior), FileOffers(parse, f, prior));
    ElementsPrefix(Offers(parse, f.name, f.content, 0), Whole(parse, final, f.name));
    if Unchanged(f.content, prior) {
      assert f.content == content[..prior.value.size];
    } else if Resume(f.content, prior).Some? {
      var early, late := f.content[..prior.value.offset], content[..prior.value.size];
      assert early <= late <= content;
      StablePrefix(parse, late, content);
      OffersGrow(parse, f.name, early, late, 0);
      ElementsPrefix(Offers(parse, f.name, early, 0), Offers(parse, f.name, late, 0));
    }
  }

  lemma {:induction false} StablePrefix(parse: Parser, early: Bytes, late: Bytes)
    requires early <= late && Stable(parse, late)
    ensures Stable(parse, early)
    decreases |early|
  {
    var e, l := LineEnd(early), LineEnd(late);
    assert early[..e] == late[..e];
    LineEndAt(late, e);
    forall j, k | 0 < j <= k <= e && parse(early[..j]).Some?
      ensures parse(early[..k]) == parse(early[..j])
    {
      assert early[..j] == late[..j] && early[..k] == late[..k];
    }
    if e < |early| {
      assert early[e + 1..] <= late[e + 1..];
      StablePrefix(parse, early[e + 1..], late[e + 1..]);
    }
  }

  /** Everything the files hold in the end. */
  ghost function Held(parse: Parser, final: Files): set<Response> {
    set name, o | name in final && o in Whole(parse, final, name) :: o
  }

  lemma {:induction false} DirectoryScanned(parse: Parser, final: Files, dir: seq<File>,
                                            cursors: Transcripts.Cursors, offered: set<Response>)
    requires Views(dir, final) && Covered(parse, final, cursors, offered)
    requires forall name :: name in final ==> Stable(parse, final[name])
    ensures var after := offered + Elements(ScanOffers(parse, dir, cursors));
      && Covered(parse, final, ScanCursors(dir, cursors), after)
      && (forall k :: 0 <= k < |dir| ==> Elements(Offers(parse, dir[k].name, dir[k].content, 0)) <= after)
    ensures Elements(ScanOffers(parse, dir, cursors)) <= Held(parse, final)
  {
    hide FileOffers, FileCursor, Offers, Stable, ValidCursor;
    if dir != [] {
      var front, f := dir[..|dir| - 1], dir[|dir| - 1];
      assert dir == front + [f];
      DirectoryScanned(parse, final, front, cursors, offered);
      FileScanned(parse, final, f, cursors, offered);
      var here := FileOffers(parse, f, CursorFor(cursors, f.name));
      ElementsConcat(ScanOffers(parse, front, cursors), here);
      assert Elements(here) <= Held(parse, final);
      assert final[f.name][..|f.content|] == f.content;
    }
  }

  function PushedBy(e: Event): seq<Response> {
    if e.Received? && e.commits then e.responses else []
  }

  lemma EventStaysCovered(parse: Parser, final: Files, now: History, e: Event, offered: set<Response>)
    requires Covered(parse, final, now.cursors, offered) && Grows(parse, final, [e])
    ensures Covered(parse, final, Step(parse, now, e).cursors, offered + Elements(OfferedBy(parse, now, e)))
    ensures Elements(OfferedBy(parse, now, e)) <= Held(parse, final) + Elements(PushedBy(e))
    ensures Elements(PushedBy(e)) <= Elements(OfferedBy(parse, now, e))
  {
    hide ScanOffers, ScanCursors, Stable, ValidCursor, Offers, Held;
    assert [e][0] == e;
    if e.Scan? && e.commits {
      DirectoryScanned(parse, final, e.dir, now.cursors, offered);
    }
  }

  /** Rows other histories sent along a run. */
  function Pushed(events: seq<Event>): seq<Response> {
    if events == [] then [] else Pushed(events[..|events| - 1]) + PushedBy(events[|events| - 1])
  }

  lemma {:induction false} RunStaysCovered(parse: Parser, final: Files, h: History, events: seq<Event>)
    requires h.cursors == map[] && Grows(parse, final, events)
    ensures Covered(parse, final, Run(parse, h, events).cursors, Elements(Trace(parse, h, events)))
    ensures Elements(Trace(parse, h, events)) <= Held(parse, final) + Elements(Pushed(events))
    ensures Elements(Pushed(events)) <= Elements(Trace(parse, h, events))
  {
    if events != [] {
      hide OfferedBy, Step, Covered, Held, PushedBy;
      var before, e := events[..|events| - 1], events[|events| - 1];
      RunStaysCovered(parse, final, h, before);
      var now := Run(parse, h, before);
      ElementsConcat(Trace(parse, h, before), OfferedBy(parse, now, e));
      EventStaysCovered(parse, final, now, e, Elements(Trace(parse, h, before)));
      ElementsConcat(Pushed(before), PushedBy(e));
    }
  }

  /** A committed scan of the whole files offers, at the latest then, everything they hold. */
  lemma GoodScanCatchesUp(parse: Parser, final: Files, dir: seq<File>, cursors: Transcripts.Cursors,
                          offered: set<Response>)
    requires Lists(dir, final) && Covered(parse, final, cursors, offered)
    requires forall name :: name in final ==> Stable(parse, final[name])
    ensures Held(parse, final) <= offered + Elements(ScanOffers(parse, dir, cursors))
    ensures Elements(ScanOffers(parse, dir, cursors)) <= Held(parse, final)
  {
    hide ScanOffers, ScanCursors, Stable, ValidCursor, Offers;
    DirectoryScanned(parse, final, dir, cursors, offered);
    var after := offered + Elements(ScanOffers(parse, dir, cursors));
    forall o | o in Held(parse, final)
      ensures o in after
    {
      var name :| name in final && o in Whole(parse, final, name);
      var k :| 0 <= k < |dir| && dir[k].name == name;
      assert o in Elements(Offers(parse, dir[k].name, dir[k].content, 0));
    }
  }

  /**
    Incremental equals whole, on counts. Whatever scans of the growing files came
    before — resumed, repeated, rolled back, stopped in the middle of a line — and
    whatever was pushed between them, one good scan leaves the counts that reading
    every file from the top would store. `rows` is any history the run began from.
    */
  lemma IncrementalCountsEqualWhole(parse: Parser, final: Files, rows: Rows, events: seq<Event>,
                                    dir: seq<File>, listing: seq<File>)
    requires WellKeyed(rows) && Grows(parse, final, events)
    requires Lists(dir, final) && Lists(listing, final)
    ensures SameCounts(Run(parse, History(rows, map[]), events + [Scan(dir, true)]).rows,
                       UpsertAll(rows, Pushed(events) + ScanOffers(parse, listing, map[])))
  {
    hide ScanOffers, ScanCursors, Stable, ValidCursor, Offers, UpsertAll;
    var h := History(rows, map[]);
    var all := events + [Scan(dir, true)];
    assert all[..|all| - 1] == events;
    RunFoldsTrace(parse, h, all);
    RunStaysCovered(parse, final, h, events);
    var now := Run(parse, h, events);
    GoodScanCatchesUp(parse, final, dir, now.cursors, Elements(Trace(parse, h, events)));
    GoodScanCatchesUp(parse, final, listing, map[], {});
    ElementsConcat(Trace(parse, h, events), ScanOffers(parse, dir, now.cursors));
    ElementsConcat(Pushed(events), ScanOffers(parse, listing, map[]));
    OrderFree(rows, Trace(parse, h, all), Pushed(events) + ScanOffers(parse, listing, map[]));
  }

  // -------------------------------------------- each response id in one file

  /** No response id is in two files. */
  ghost predicate OneFileEach(parse: Parser, final: Files) {
    forall a, b, i :: a in final && b in final ==>
      FirstOf(Whole(parse, final, a), i).Some? && FirstOf(Whole(parse, final, b), i).Some? ==> a == b
  }

  lemma {:induction false} FirstOfPrefix(a: seq<Response>, b: seq<Response>, i: Id)
    requires a <= b && FirstOf(a, i).Some?
    ensures FirstOf(b, i) == FirstOf(a, i)
  {
    assert b == a + b[|a|..];
    FirstOfConcat(a, b[|a|..], i);
  }

  /** A response a scan offers for the first time, it offers first as its file does. */
  lemma {:induction false} ScanOffersFirst(parse: Parser, final: Files, dir: seq<File>, cursors: Transcripts.Cursors,
                                           sofar: seq<Response>, i: Id, name: string)
    requires Views(dir, final) && Covered(parse, final, cursors, Elements(sofar)) && OneFileEach(parse, final)
    requires forall n :: n in final ==> Stable(parse, final[n])
    requires name in final && FirstOf(Whole(parse, final, name), i).Some? && FirstOf(sofar, i).None?
    requires FirstOf(ScanOffers(parse, dir, cursors), i).Some?
    ensures FirstOf(ScanOffers(parse, dir, cursors), i) == FirstOf(Whole(parse, final, name), i)
  {
    hide FileOffers, Offers, Stable, ValidCursor;
    var front, f := dir[..|dir| - 1], dir[|dir| - 1];
    var prior := CursorFor(cursors, f.name);
    var already, here := Already(parse, f, prior), FileOffers(parse, f, prior);
    FirstOfConcat(ScanOffers(parse, front, cursors), here, i);
    if FirstOf(ScanOffers(parse, front, cursors), i).Some? {
      ScanOffersFirst(parse, final, front, cursors, sofar, i, name);
    } else {
      FileScanned(parse, final, f, cursors, Elements(sofar));
      FirstOfMember(sofar, i);
      FirstOfMember(already, i);
      forall o | o in already
        ensures o.id != i
      {
        assert o in Elements(already);
      }
      FirstOfConcat(already, here, i);
      OffersGrow(parse, f.name, f.content, final[f.name], 0);
      FirstOfPrefix(already + here, Whole(parse, final, f.name), i);
    }
  }

  /** Along a run of scans, the first offer of a response is always the first its file makes. */
  lemma {:induction false} RunOffersFirst(parse: Parser, final: Files, h: History, events: seq<Event>, i: Id,
                                          name: string)
    requires h.cursors == map[] && Grows(parse, final, events) && OneFileEach(parse, final)
    requires forall k :: 0 <= k < |events| ==> events[k].Scan?
    requires name in final && FirstOf(Whole(parse, final, name), i).Some?
    requires FirstOf(Trace(parse, h, events), i).Some?
    ensures FirstOf(Trace(parse, h, events), i) == FirstOf(Whole(parse, final, name), i)
  {
    hide ScanOffers, ScanCursors, Stable, ValidCursor, Offers;
    var before, e := events[..|events| - 1], events[|events| - 1];
    var now, sofar := Run(parse, h, before), Trace(parse, h, before);
    FirstOfConcat(sofar, OfferedBy(parse, now, e), i);
    if FirstOf(sofar, i).Some? {
      RunOffersFirst(parse, final, h, before, i, name);
    } else {
      RunStaysCovered(parse, final, h, before);
      ScanOffersFirst(parse, final, e.dir, now.cursors, sofar, i, name);
    }
  }

  lemma {:induction false} WindowsKnown(offers: seq<Response>, i: Id)
    requires forall o :: o in offers ==> o.window.Some?
    ensures FirstWindow(offers, i) == if FirstOf(offers, i).Some? then FirstOf(offers, i).value.window else None
  {
    if offers != [] {
      assert offers[0] in offers;
      WindowsKnown(offers[1..], i);
    }
  }

  lemma {:induction false} OffersNameTheirWindow(parse: Parser, file: string, bytes: Bytes, before: nat)
    ensures forall o :: o in Offers(parse, file, bytes, before) ==> o.window == Some(file)
  {
    var end := LineEnd(bytes);
    if end < |bytes| {
      OffersNameTheirWindow(parse, file, bytes[end + 1..], before + 1);
    }
  }

  lemma HeldWindowsKnown(parse: Parser, final: Files)
    ensures forall o :: o in Held(parse, final) ==> o.window.Some?
  {
    forall name | name in final {
      OffersNameTheirWindow(parse, name, final[name], 0);
    }
  }

  /**
    Incremental equals whole, to the last field, when no response id is in two files:
    the same rows under the same sessions, branches, times and windows, line-numbered
    ids and an unterminated tail read twice included.
    */
  lemma IncrementalEqualsWhole(parse: Parser, final: Files, rows: Rows, events: seq<Event>,
                               dir: seq<File>, listing: seq<File>)
    requires WellKeyed(rows) && Grows(parse, final, events) && OneFileEach(parse, final)
    requires forall k :: 0 <= k < |events| ==> events[k].Scan?
    requires Lists(dir, final) && Lists(listing, final)
    ensures Run(parse, History(rows, map[]), events + [Scan(dir, true)]).rows
         == UpsertAll(rows, ScanOffers(parse, listing, map[]))
  {
    hide *;
    var h := History(rows, map[]);
    var all := events + [Scan(dir, true)];
    OneScanMore(parse, final, events, dir);
    var trace, whole := Trace(parse, h, all), ScanOffers(parse, listing, map[]);
    IncrementalCountsEqualWhole(parse, final, rows, events, dir, listing);
    NothingPushed(events);
    assert [] + whole == whole;
    RunFoldsTrace(parse, h, all);
    forall i
      ensures FirstWindow(trace, i) == FirstWindow(whole, i)
      ensures FirstOf(trace, i) == FirstOf(whole, i)
    {
      SameFirstOffers(parse, final, h, all, listing, i);
    }
    SameRows(rows, trace, whole);
  }

  lemma OneScanMore(parse: Parser, final: Files, events: seq<Event>, dir: seq<File>)
    requires Grows(parse, final, events) && Lists(dir, final)
    requires forall k :: 0 <= k < |events| ==> events[k].Scan?
    ensures var all := events + [Scan(dir, true)];
      && Grows(parse, final, all) && (forall k :: 0 <= k < |all| ==> all[k].Scan?)
      && all != [] && all[|all| - 1] == Scan(dir, true)
  {
    hide Stable, Views;
  }

  lemma SameFirstOffers(parse: Parser, final: Files, h: History, all: seq<Event>, listing: seq<File>, i: Id)
    requires h.cursors == map[] && Grows(parse, final, all) && OneFileEach(parse, final)
    requires forall k :: 0 <= k < |all| ==> all[k].Scan?
    requires all != [] && all[|all| - 1].commits && Lists(all[|all| - 1].dir, final) && Lists(listing, final)
    ensures var trace, whole := Trace(parse, h, all), ScanOffers(parse, listing, map[]);
      FirstOf(trace, i) == FirstOf(whole, i) && FirstWindow(trace, i) == FirstWindow(whole, i)
  {
    hide *;
    SameFirst(parse, final, h, all, listing, i);
    AllOfferedAlike(parse, final, h, all, listing);
    HeldWindowsKnown(parse, final);
    WindowsAmong(Trace(parse, h, all), Held(parse, final), i);
    WindowsAmong(ScanOffers(parse, listing, map[]), Held(parse, final), i);
  }

  lemma WindowsAmong(offers: seq<Response>, held: set<Response>, i: Id)
    requires Elements(offers) == held && forall o :: o in held ==> o.window.Some?
    ensures FirstWindow(offers, i) == if FirstOf(offers, i).Some? then FirstOf(offers, i).value.window else None
  {
    forall o | o in offers
      ensures o.window.Some?
    {
      assert o in Elements(offers);
    }
    WindowsKnown(offers, i);
  }

  lemma {:induction false} NothingPushed(events: seq<Event>)
    requires forall k :: 0 <= k < |events| ==> events[k].Scan?
    ensures Pushed(events) == []
  {
    if events != [] {
      NothingPushed(events[..|events| - 1]);
    }
  }

  lemma SameFirst(parse: Parser, final: Files, h: History, all: seq<Event>, listing: seq<File>, i: Id)
    requires h.cursors == map[] && Grows(parse, final, all) && OneFileEach(parse, final)
    requires forall k :: 0 <= k < |all| ==> all[k].Scan?
    requires all != [] && all[|all| - 1].commits && Lists(all[|all| - 1].dir, final) && Lists(listing, final)
    ensures FirstOf(Trace(parse, h, all), i) == FirstOf(ScanOffers(parse, listing, map[]), i)
  {
    hide ScanOffers, ScanCursors, Stable, ValidCursor, Offers;
    var trace, whole := Trace(parse, h, all), ScanOffers(parse, listing, map[]);
    AllOfferedAlike(parse, final, h, all, listing);
    FirstOfMember(trace, i);
    FirstOfMember(whole, i);
    if FirstOf(trace, i).Some? {
      FirstInOneFile(parse, final, h, all, listing, i, FirstOf(trace, i).value);
    } else {
      forall o | o in whole
        ensures o.id != i
      {
        assert o in Elements(whole);
      }
    }
  }

  /** A run that ends with a good scan has offered what a whole scan offers. */
  lemma AllOfferedAlike(parse: Parser, final: Files, h: History, all: seq<Event>, listing: seq<File>)
    requires h.cursors == map[] && Grows(parse, final, all)
    requires forall k :: 0 <= k < |all| ==> all[k].Scan?
    requires all != [] && all[|all| - 1].commits && Lists(all[|all| - 1].dir, final) && Lists(listing, final)
    ensures Elements(Trace(parse, h, all)) == Elements(ScanOffers(parse, listing, map[])) == Held(parse, final)
  {
    hide ScanOffers, ScanCursors, Stable, ValidCursor, Offers;
    var before, dir := all[..|all| - 1], all[|all| - 1].dir;
    RunStaysCovered(parse, final, h, before);
    var now := Run(parse, h, before);
    GoodScanCatchesUp(parse, final, dir, now.cursors, Elements(Trace(parse, h, before)));
    GoodScanCatchesUp(parse, final, listing, map[], {});
    ElementsConcat(Trace(parse, h, before), ScanOffers(parse, dir, now.cursors));
    NothingPushed(before);
  }

  /** The first offer of a response is its one file's, along a run and in a whole scan. */
  lemma FirstInOneFile(parse: Parser, final: Files, h: History, all: seq<Event>, listing: seq<File>, i: Id, o: Response)
    requires h.cursors == map[] && Grows(parse, final, all) && OneFileEach(parse, final)
    requires forall k :: 0 <= k < |all| ==> all[k].Scan?
    requires Lists(listing, final) && o in Held(parse, final) && o.id == i
    requires Elements(Trace(parse, h, all)) == Elements(ScanOffers(parse, listing, map[])) == Held(parse, final)
    ensures FirstOf(Trace(parse, h, all), i) == FirstOf(ScanOffers(parse, listing, map[]), i)
  {
    hide ScanOffers, ScanCursors, Stable, ValidCursor, Offers, Trace, OneFileEach;
    var trace, whole := Trace(parse, h, all), ScanOffers(parse, listing, map[]);
    var name :| name in final && o in Whole(parse, final, name);
    FirstOfMember(Whole(parse, final, name), i);
    FirstOfMember(trace, i);
    FirstOfMember(whole, i);
    assert o in Elements(trace) && o in Elements(whole);
    RunOffersFirst(parse, final, h, all, i, name);
    ScanOffersFirst(parse, final, listing, map[], [], i, name);
  }

  // -------------------------------------------- a history from before contexts

  lemma {:induction false} OffersKnow(p: Parser, file: string, bytes: Bytes, before: nat)
    requires forall text :: p(text).Some? ==> p(text).value.counts.context.Some?
    ensures forall o :: o in Offers(p, file, bytes, before) ==> o.counts.context.Some?
  {
    var end := LineEnd(bytes);
    hide LineEnd;
    if end < |bytes| {
      OffersKnow(p, file, bytes[end + 1..], before + 1);
    }
  }

  lemma HeldContextsKnown(parse: Parser, final: Files)
    requires forall text :: parse(text).Some? ==> parse(text).value.counts.context.Some?
    ensures forall o :: o in Held(parse, final) ==> o.counts.context.Some?
  {
    forall name | name in final {
      OffersKnow(parse, name, final[name], 0);
    }
  }

  /** Some transcript still there holds response `i`. */
  ghost predicate StillHeld(parse: Parser, final: Files, i: Id) {
    exists o :: o in Held(parse, final) && o.id == i
  }

  /** Offers all known, folded alone, are known. */
  lemma KnownAlone(offers: seq<Response>, i: Id)
    requires forall o :: o in offers ==> o.counts.context.Some? && o.window.Some?
    ensures var alone := UpsertAll(map[], offers);
      && (i in alone <==> exists o :: o in offers && o.id == i)
      && (i in alone ==> alone[i].counts.context.Some? && alone[i].window.Some?)
  {
    hide UpsertAll;
    var alone := UpsertAll(map[], offers);
    UpsertAllKeepsLargest(map[], {}, offers);
    assert {} + Elements(offers) == Elements(offers);
    if o :| o in offers && o.id == i {
      assert Bounded(alone, o);
    }
    if i in alone {
      assert Attained(Elements(offers), i, alone[i]);
      var o :| o in Elements(offers) && o.id == i && o.counts.out == alone[i].counts.out;
      assert Bounded(alone, o);
    }
  }

  /**
    What the migration forgets one good scan finds again: afterwards a row's context and window
    are known exactly when a transcript still there holds its response. No row is lost, and no
    count of one is lowered.
    */
  lemma MigrationHeals(parse: Parser, final: Files, rows: Rows, dir: seq<File>)
    requires Lists(dir, final) && forall name :: name in final ==> Stable(parse, final[name])
    requires forall text :: parse(text).Some? ==> parse(text).value.counts.context.Some?
    ensures var after := Run(parse, History(Forget(rows), map[]), [Scan(dir, true)]).rows;
      && (forall i :: i in after <==> i in rows || StillHeld(parse, final, i))
      && (forall i :: i in after ==>
            && (after[i].counts.context.Some? <==> StillHeld(parse, final, i))
            && (after[i].window.Some? <==> StillHeld(parse, final, i)))
      && (forall i :: i in rows ==>
            && rows[i].counts.out <= after[i].counts.out && rows[i].counts.cacheRead <= after[i].counts.cacheRead
            && Origin(after[i]) == Origin(rows[i]))
  {
    hide ScanOffers, ScanCursors, Stable, ValidCursor, Offers, UpsertAll;
    var offers := ScanOffers(parse, dir, map[]);
    GoodScanCatchesUp(parse, final, dir, map[], {});
    HeldContextsKnown(parse, final);
    HeldWindowsKnown(parse, final);
    OneScan(parse, History(Forget(rows), map[]), dir);
    assert forall o :: o in offers <==> o in Elements(offers);
    var after := UpsertAll(Forget(rows), offers);
    forall i
      ensures i in after <==> i in rows || StillHeld(parse, final, i)
      ensures i in after ==>
        && (after[i].counts.context.Some? <==> StillHeld(parse, final, i))
        && (after[i].window.Some? <==> StillHeld(parse, final, i))
      ensures i in rows ==>
        && rows[i].counts.out <= after[i].counts.out && rows[i].counts.cacheRead <= after[i].counts.cacheRead
        && Origin(after[i]) == Origin(rows[i])
    {
      UpsertAllIsOneMerge(Forget(rows), offers, i);
      KnownAlone(offers, i);
    }
  }

  lemma OneScan(parse: Parser, h: History, dir: seq<File>)
    ensures Run(parse, h, [Scan(dir, true)]).rows == UpsertAll(h.rows, ScanOffers(parse, dir, h.cursors))
  {
    hide ScanOffers, ScanCursors, UpsertAll;
    var e := Scan(dir, true);
    assert [e][..0] == [];
    assert Run(parse, h, []) == h;
  }
}
