/**
  One total, computed twice: what the Sessions page groups off its cards is what the Usage
  page tallies off the transcripts, when both read the same files.
  */
module PageTotals {
  import opened Options
  import opened Responses
  import opened Transcripts
  import opened Tally
  import opened SessionGroups
  import opened CardForest
  import opened SessionTree
  import History = UsageHistory
  import Reader = SessionsReader

  ghost predicate Known(rs: seq<Response>) {
    forall r :: r in rs ==> r.counts.context.Some? && r.window.Some?
  }

  // ------------------------------------------------------- crediting is folding

  lemma ListedAnew(folded: seq<Response>, index: map<Id, nat>, rows: Rows, r: Response)
    requires Listed(folded, index, rows) && r.id !in index && r.window.Some?
    ensures Listed(folded + [r], index[r.id := |folded|], Upsert(rows, r))
  {
  }

  lemma ListedRaised(folded: seq<Response>, index: map<Id, nat>, rows: Rows, r: Response)
    requires Listed(folded, index, rows) && r.id in index
    ensures var kept := folded[index[r.id]].(counts := LargerCounts(folded[index[r.id]].counts, r.counts));
      Listed(folded[index[r.id] := kept], index, Upsert(rows, r))
  {
    assert Merge(rows[r.id], r) == rows[r.id].(counts := LargerCounts(rows[r.id].counts, r.counts));
  }

  lemma CreditIsUpsert(c: Credits, ref: nat, r: Response, rows: Rows)
    requires Consistent(c) && Listed(c.folded, c.index, rows) && Reader.AllKnown(rows)
    requires r.counts.context.Some? && r.window.Some?
    ensures var after := Credit(c, ref, r);
      Listed(after.folded, after.index, Upsert(rows, r)) && Reader.AllKnown(Upsert(rows, r))
  {
    if r.id in c.index {
      var before := c.folded[c.index[r.id]];
      assert before == rows[r.id];
      GuardedFoldExact(before.counts, r.counts);
      ListedRaised(c.folded, c.index, rows, r);
      hide Listed;
      if !RaisesCounts(before.counts, r.counts) {
        assert c.folded[c.index[r.id] := before] == c.folded;
      }
    } else {
      ListedAnew(c.folded, c.index, rows, r);
    }
  }

  lemma {:induction false} CreditListIsUpsertAll(c: Credits, ref: nat, rs: seq<Response>, rows: Rows)
    requires Consistent(c) && Listed(c.folded, c.index, rows) && Reader.AllKnown(rows) && Known(rs)
    ensures var after := CreditList(c, ref, rs);
      Listed(after.folded, after.index, UpsertAll(rows, rs)) && Reader.AllKnown(UpsertAll(rows, rs))
  {
    hide Consistent, Listed, Reader.AllKnown, Credit;
    if rs != [] {
      var front, r := rs[..|rs| - 1], rs[|rs| - 1];
      assert rs == front + [r];
      CreditListIsUpsertAll(c, ref, front, rows);
      CreditIsUpsert(CreditList(c, ref, front), ref, r, UpsertAll(rows, front));
    }
  }

  /** Crediting a forest's responses keeps the rows that upserting them would store. */
  lemma {:induction false} CreditCardsIsUpsertAll(c: Credits, cards: seq<Card>, rows: Rows)
    requires Consistent(c) && Listed(c.folded, c.index, rows) && Reader.AllKnown(rows) && Known(ResponsesOf(cards))
    ensures var after := CreditCards(c, cards);
      Listed(after.folded, after.index, UpsertAll(rows, ResponsesOf(cards)))
      && Reader.AllKnown(UpsertAll(rows, ResponsesOf(cards)))
    decreases cards
  {
    hide Consistent, Listed, Reader.AllKnown, UpsertAll, CreditList;
    if cards == [] {
      UpsertAllNothing(rows);
    } else {
      var first := cards[0];
      var x, y, z := first.responses, ResponsesOf(first.children), ResponsesOf(cards[1..]);
      assert ResponsesOf(cards) == x + y + z;
      var own := CreditList(c, first.ref, x);
      CreditListIsUpsertAll(c, first.ref, x, rows);
      CreditCardsIsUpsertAll(own, first.children, UpsertAll(rows, x));
      CreditCardsIsUpsertAll(CreditCards(own, first.children), cards[1..], UpsertAll(UpsertAll(rows, x), y));
      UpsertAllConcat(rows, x + y, z);
      UpsertAllConcat(rows, x, y);
    }
  }

  // ------------------------------------------------------- two lists of one map's rows

  lemma {:induction false} ListedCount(responses: seq<Response>, seen: map<Id, nat>, rows: Rows, n: nat, r: Response)
    requires Listed(responses, seen, rows) && n <= |responses|
    ensures multiset(responses[..n])[r] == if r.id in seen && seen[r.id] < n && rows[r.id] == r then 1 else 0
  {
    if n > 0 {
      ListedCount(responses, seen, rows, n - 1, r);
      assert responses[..n] == responses[..n - 1] + [responses[n - 1]];
    }
  }

  // ------------------------------------------------------- the cards hold the files

  /** The cards hold the files' responses and no others, whichever card each file's are on. */
  ghost predicate CardsHold(roots: seq<Card>, parse: Reader.EntryParser, final: History.Files) {
    && (forall r :: r in ResponsesOf(roots) ==>
         exists name :: name in final && r in FileRows(parse, final, name).Values)
    && (forall name, i :: name in final && i in FileRows(parse, final, name) ==>
          FileRows(parse, final, name)[i] in ResponsesOf(roots))
  }

  lemma FileRowsFold(parse: Reader.EntryParser, final: History.Files, name: string)
    requires name in final
    ensures var whole := History.Whole(Reader.UsageOf(parse), final, name);
      && FileRows(parse, final, name) == UpsertAll(map[], whole)
      && IsLargestOffered(FileRows(parse, final, name), Elements(whole))
      && WellKeyed(FileRows(parse, final, name))
  {
    hide Reader.WholeFacts, IsLargestOffered;
    var whole := History.Whole(Reader.UsageOf(parse), final, name);
    Reader.ReadersAgree(parse, name, final[name]);
    NothingIsLargest();
    UpsertAllKeepsLargest(map[], {}, whole);
    assert {} + Elements(whole) == Elements(whole);
    UpsertAllWellKeyed(map[], whole);
  }

  lemma NothingIsLargest()
    ensures IsLargestOffered(map[], {}) && WellKeyed(map[])
    ensures Listed([], map[], map[]) && Reader.AllKnown(map[])
  {
  }

  /** One file's row: at its file's counts, under its file's first branch, in its file's window. */
  lemma FileRowIs(parse: Reader.EntryParser, final: History.Files, name: string, i: Id)
    requires name in final && i in FileRows(parse, final, name)
    ensures var row, whole := FileRows(parse, final, name)[i], History.Whole(Reader.UsageOf(parse), final, name);
      && row.id == i
      && FirstOf(whole, i).Some?
      && Origin(row) == Origin(FirstOf(whole, i).value)
      && row.window == Some(name) && FirstOf(whole, i).value.window == Some(name)
  {
    hide Reader.WholeFacts, UpsertAll, Offers, IsLargestOffered;
    var whole := History.Whole(Reader.UsageOf(parse), final, name);
    FileRowsFold(parse, final, name);
    NothingIsLargest();
    KeptFromFirst(map[], whole, i);
    History.OffersNameTheirWindow(Reader.UsageOf(parse), name, final[name], 0);
    History.WindowsKnown(whole, i);
    FirstOfMember(whole, i);
  }

  /** The rows the Usage scan stores of the whole files. */
  ghost function ScannedRows(parse: Reader.EntryParser, listing: seq<File>): Rows {
    UpsertAll(map[], ScanOffers(Reader.UsageOf(parse), listing, map[]))
  }

  /** What the cards hold is what the scan stores, count for count. */
  lemma CardsFoldToScannedCounts(parse: Reader.EntryParser, final: History.Files, roots: seq<Card>, listing: seq<File>)
    requires CardsHold(roots, parse, final) && History.Lists(listing, final)
    requires forall name :: name in final ==> History.Stable(Reader.UsageOf(parse), final[name])
    ensures SameCounts(UpsertAll(map[], ResponsesOf(roots)), ScannedRows(parse, listing))
  {
    hide UpsertAll, ResponsesOf, ScanOffers, Reader.WholeFacts, Offers, IsLargestOffered, History.Stable,
         Reader.UsageOf;
    var all, whole := ResponsesOf(roots), ScanOffers(Reader.UsageOf(parse), listing, map[]);
    var held := History.Held(Reader.UsageOf(parse), final);
    History.GoodScanCatchesUp(Reader.UsageOf(parse), final, listing, map[], {});
    NothingIsLargest();
    UpsertAllKeepsLargest(map[], {}, whole);
    UpsertAllKeepsLargest(map[], {}, all);
    assert {} + Elements(whole) == held && {} + Elements(all) == Elements(all);
    LargestOfFilesIsLargest(parse, final, roots, UpsertAll(map[], all), held);
    LargestIsUnique(UpsertAll(map[], all), UpsertAll(map[], whole), held);
  }

  /** A card's response is a row of some file. */
  lemma CardRow(parse: Reader.EntryParser, final: History.Files, roots: seq<Card>, r: Response) returns (name: string)
    requires CardsHold(roots, parse, final) && r in ResponsesOf(roots)
    ensures name in final && r.id in FileRows(parse, final, name) && FileRows(parse, final, name)[r.id] == r
  {
    hide ResponsesOf, FileRows;
    name :| name in final && r in FileRows(parse, final, name).Values;
    FileRowsFold(parse, final, name);
  }

  lemma BoundedIn(rows: Rows, offered: set<Response>, o: Response)
    requires IsLargestOffered(rows, offered) && o in offered
    ensures Bounded(rows, o)
  {
  }

  lemma BoundedThrough(rows: Rows, low: Rows, o: Response)
    requires Bounded(low, o) && low[o.id].id == o.id && Bounded(rows, low[o.id])
    ensures Bounded(rows, o)
  {
  }

  lemma CardsHoldRow(parse: Reader.EntryParser, final: History.Files, roots: seq<Card>, name: string, i: Id)
    requires CardsHold(roots, parse, final) && name in final && i in FileRows(parse, final, name)
    ensures FileRows(parse, final, name)[i] in Elements(ResponsesOf(roots)) && FileRows(parse, final, name)[i].id == i
  {
    hide ResponsesOf, FileRows, History.Whole, Reader.UsageOf, Attained, Bounded;
    FileRowsFold(parse, final, name);
  }

  lemma HeldBounded(parse: Reader.EntryParser, final: History.Files, roots: seq<Card>, rows: Rows, name: string,
                    o: Response)
    requires CardsHold(roots, parse, final) && IsLargestOffered(rows, Elements(ResponsesOf(roots)))
    requires name in final && o in Elements(History.Whole(Reader.UsageOf(parse), final, name))
    ensures Bounded(rows, o)
  {
    hide ResponsesOf, FileRows, History.Whole, Reader.UsageOf, Attained, IsLargestOffered, CardsHold, Elements;
    FileRowsFold(parse, final, name);
    BoundedIn(FileRows(parse, final, name), Elements(History.Whole(Reader.UsageOf(parse), final, name)), o);
    CardsHoldRow(parse, final, roots, name, o.id);
    BoundedIn(rows, Elements(ResponsesOf(roots)), FileRows(parse, final, name)[o.id]);
    BoundedThrough(rows, FileRows(parse, final, name), o);
  }

  lemma CardRowAttained(parse: Reader.EntryParser, final: History.Files, roots: seq<Card>, r: Response,
                        held: set<Response>)
    requires CardsHold(roots, parse, final) && held == History.Held(Reader.UsageOf(parse), final)
    requires r in ResponsesOf(roots)
    ensures Attained(held, r.id, r)
  {
    hide ResponsesOf, FileRows, History.Whole, Reader.UsageOf, Attained, Bounded;
    var name := CardRow(parse, final, roots, r);
    FileRowsFold(parse, final, name);
    var whole := Elements(History.Whole(Reader.UsageOf(parse), final, name));
    assert whole <= held;
    AttainedByMore(whole, held, r.id, r);
  }

  lemma AttainedThrough(all: set<Response>, held: set<Response>, i: Id, row: Response)
    requires Attained(all, i, row)
    requires forall o :: o in all ==> Attained(held, o.id, o)
    ensures Attained(held, i, row)
  {
    var a :| a in all && a.id == i && a.counts.out == row.counts.out;
    var b :| b in all && b.id == i && b.counts.cacheRead == row.counts.cacheRead;
    var c :| c in all && c.id == i && c.counts.context == row.counts.context;
    var d :| d in all && d.id == i && d.window == row.window;
    assert Attained(held, i, a) && Attained(held, i, b) && Attained(held, i, c) && Attained(held, i, d);
  }

  /** The largest of the files' rows is the largest of everything in the files. */
  lemma LargestOfFilesIsLargest(parse: Reader.EntryParser, final: History.Files, roots: seq<Card>, rows: Rows,
                                held: set<Response>)
    requires CardsHold(roots, parse, final) && held == History.Held(Reader.UsageOf(parse), final)
    requires IsLargestOffered(rows, Elements(ResponsesOf(roots)))
    ensures IsLargestOffered(rows, held)
  {
    hide ResponsesOf, CardsHold, History.Whole, Reader.UsageOf, Attained, Bounded;
    var all := Elements(ResponsesOf(roots));
    forall o | o in held
      ensures Bounded(rows, o)
    {
      var name :| name in final && o in History.Whole(Reader.UsageOf(parse), final, name);
      assert o in Elements(History.Whole(Reader.UsageOf(parse), final, name));
      HeldBounded(parse, final, roots, rows, name, o);
    }
    forall o | o in all
      ensures Attained(held, o.id, o)
    {
      CardRowAttained(parse, final, roots, o, held);
    }
    forall i | i in rows
      ensures Attained(held, i, rows[i])
    {
      AttainedThrough(all, held, i, rows[i]);
    }
  }

  /** And row for row, when no response id is in two files. */
  lemma CardsFoldToScannedRows(parse: Reader.EntryParser, final: History.Files, roots: seq<Card>, listing: seq<File>)
    requires CardsHold(roots, parse, final) && History.Lists(listing, final)
    requires forall name :: name in final ==> History.Stable(Reader.UsageOf(parse), final[name])
    requires History.OneFileEach(Reader.UsageOf(parse), final)
    ensures UpsertAll(map[], ResponsesOf(roots)) == ScannedRows(parse, listing)
  {
    hide UpsertAll, ResponsesOf, ScanOffers, FileRows, Offers, History.Stable, Reader.UsageOf, History.OneFileEach;
    var all, whole := ResponsesOf(roots), ScanOffers(Reader.UsageOf(parse), listing, map[]);
    CardsFoldToScannedCounts(parse, final, roots, listing);
    NothingIsLargest();
    forall i
      ensures FirstOf(all, i).Some? && FirstOf(whole, i).Some? ==>
                Origin(FirstOf(all, i).value) == Origin(FirstOf(whole, i).value)
      ensures FirstWindow(all, i) == FirstWindow(whole, i)
    {
      SameFirstRow(parse, final, roots, listing, i);
    }
    SameRows(map[], all, whole);
  }

  /** The first copy of a response on the cards is attributed as the scan's first reading of it is. */
  lemma SameFirstOrigin(parse: Reader.EntryParser, final: History.Files, roots: seq<Card>, listing: seq<File>, i: Id)
    requires CardsHold(roots, parse, final) && History.Lists(listing, final)
    requires forall name :: name in final ==> History.Stable(Reader.UsageOf(parse), final[name])
    requires History.OneFileEach(Reader.UsageOf(parse), final)
    requires FirstOf(ResponsesOf(roots), i).Some?
    requires FirstOf(ScanOffers(Reader.UsageOf(parse), listing, map[]), i).Some?
    ensures var a := FirstOf(ResponsesOf(roots), i).value;
      var b := FirstOf(ScanOffers(Reader.UsageOf(parse), listing, map[]), i).value;
      Origin(a) == Origin(b) && a.window == b.window && a.window.Some?
  {
    hide UpsertAll, ResponsesOf, ScanOffers, FileRows, Offers, History.Stable, Reader.UsageOf, History.OneFileEach,
         CardsHold;
    FirstOfMember(ResponsesOf(roots), i);
    var name := CardRow(parse, final, roots, FirstOf(ResponsesOf(roots), i).value);
    FileRowIs(parse, final, name, i);
    History.ScanOffersFirst(Reader.UsageOf(parse), final, listing, map[], [], i, name);
  }

  lemma ScanWindowsKnown(parse: Reader.EntryParser, final: History.Files, listing: seq<File>)
    requires History.Lists(listing, final)
    requires forall name :: name in final ==> History.Stable(Reader.UsageOf(parse), final[name])
    ensures forall o :: o in ScanOffers(Reader.UsageOf(parse), listing, map[]) ==> o.window.Some?
  {
    hide ScanOffers, Offers, History.Stable, Reader.UsageOf, History.Held;
    History.GoodScanCatchesUp(Reader.UsageOf(parse), final, listing, map[], {});
    History.HeldWindowsKnown(Reader.UsageOf(parse), final);
    forall o | o in ScanOffers(Reader.UsageOf(parse), listing, map[])
      ensures o.window.Some?
    {
      assert o in Elements(ScanOffers(Reader.UsageOf(parse), listing, map[]));
    }
  }

  lemma SameFirstRow(parse: Reader.EntryParser, final: History.Files, roots: seq<Card>, listing: seq<File>, i: Id)
    requires CardsHold(roots, parse, final) && History.Lists(listing, final)
    requires forall name :: name in final ==> History.Stable(Reader.UsageOf(parse), final[name])
    requires History.OneFileEach(Reader.UsageOf(parse), final)
    requires UpsertAll(map[], ResponsesOf(roots)).Keys == ScannedRows(parse, listing).Keys
    ensures var all, whole := ResponsesOf(roots), ScanOffers(Reader.UsageOf(parse), listing, map[]);
      && (FirstOf(all, i).Some? && FirstOf(whole, i).Some? ==>
           Origin(FirstOf(all, i).value) == Origin(FirstOf(whole, i).value))
      && FirstWindow(all, i) == FirstWindow(whole, i)
  {
    hide UpsertAll, ResponsesOf, ScanOffers, FileRows, History.Stable, Reader.UsageOf, History.OneFileEach,
         CardsHold, History.Lists;
    var all, whole := ResponsesOf(roots), ScanOffers(Reader.UsageOf(parse), listing, map[]);
    NothingIsLargest();
    KeptFromFirst(map[], all, i);
    KeptFromFirst(map[], whole, i);
    CardWindowsKnown(parse, final, roots);
    ScanWindowsKnown(parse, final, listing);
    History.WindowsKnown(all, i);
    History.WindowsKnown(whole, i);
    if FirstOf(all, i).Some? {
      SameFirstOrigin(parse, final, roots, listing, i);
    }
  }

  /** Usage read off a line knows its context. */
  lemma UsageOfKnows(parse: Reader.EntryParser, text: Bytes)
    ensures var read := Reader.UsageOf(parse)(text); read.Some? ==> read.value.counts.context.Some?
  {
    match parse(text)
    case Parsed(e) =>
      if e.message.Some? && e.message.value.usage.Some? {
        var u := e.message.value.usage.value;
        assert Reader.UsageOf(parse)(text) == Some(Reader.RecordOf(e, e.message.value, u));
        assert Reader.CountsOf(u).context.Some?;
      } else {
        assert Reader.UsageOf(parse)(text) == None;
      }
    case Blank =>
    case Bad =>
    case NotAnObject =>
  }

  lemma OffersKnowTheirContext(parse: Reader.EntryParser, file: string, bytes: Bytes, before: nat)
    ensures forall o :: o in Offers(Reader.UsageOf(parse), file, bytes, before) ==> o.counts.context.Some?
  {
    var p := Reader.UsageOf(parse);
    hide Reader.UsageOf, Offers;
    forall text
      ensures p(text).Some? ==> p(text).value.counts.context.Some?
    {
      UsageOfKnows(parse, text);
    }
    History.OffersKnow(p, file, bytes, before);
  }

  lemma FileRowContextKnown(parse: Reader.EntryParser, final: History.Files, name: string, i: Id)
    requires name in final && i in FileRows(parse, final, name)
    ensures FileRows(parse, final, name)[i].counts.context.Some?
  {
    hide FileRows, Reader.UsageOf, Offers;
    FileRowsFold(parse, final, name);
    OffersKnowTheirContext(parse, name, final[name], 0);
    var row := FileRows(parse, final, name)[i];
    assert Attained(Elements(History.Whole(Reader.UsageOf(parse), final, name)), i, row);
  }

  lemma CardWindowsKnown(parse: Reader.EntryParser, final: History.Files, roots: seq<Card>)
    requires CardsHold(roots, parse, final)
    ensures forall r :: r in ResponsesOf(roots) ==> r.window.Some?
    ensures Known(ResponsesOf(roots))
  {
    hide ResponsesOf, FileRows;
    forall r | r in ResponsesOf(roots)
      ensures r.window.Some? && r.counts.context.Some?
    {
      var name := CardRow(parse, final, roots, r);
      FileRowIs(parse, final, name, r.id);
      FileRowContextKnown(parse, final, name, r.id);
    }
  }

  // ------------------------------------------------------- which files the cards hold

  /** Every response is of a file some drawn card of a session holds. */
  ghost predicate EveryResponseDrawn(parse: Reader.EntryParser, final: History.Files, sessions: seq<Session>) {
    forall name :: name in final && FileRows(parse, final, name) != map[] ==> OnDrawnCard(parse, final, sessions, name)
  }

  /** The files on drawn cards. */
  ghost function DrawnPart(parse: Reader.EntryParser, final: History.Files, sessions: seq<Session>): History.Files {
    map name | name in final && OnDrawnCard(parse, final, sessions, name) :: final[name]
  }

  ghost predicate PartOf(part: History.Files, final: History.Files) {
    forall name :: name in part ==> name in final && part[name] == final[name]
  }

  lemma SameInPart(parse: Reader.EntryParser, part: History.Files, final: History.Files, name: string)
    requires PartOf(part, final) && name in part
    ensures name in final && FileRows(parse, part, name) == FileRows(parse, final, name)
    ensures History.Whole(Reader.UsageOf(parse), part, name) == History.Whole(Reader.UsageOf(parse), final, name)
  {
  }

  lemma DrawnPartIsPart(parse: Reader.EntryParser, final: History.Files, sessions: seq<Session>)
    ensures PartOf(DrawnPart(parse, final, sessions), final)
  {
  }

  /** The cards always hold the part of the files that is on drawn cards. */
  lemma CardsHoldDrawnPart(parse: Reader.EntryParser, final: History.Files, sessions: seq<Session>,
                           trees: seq<Tree>, roots: seq<Card>)
    requires IsForest(parse, final, sessions, trees, roots)
    ensures CardsHold(roots, parse, DrawnPart(parse, final, sessions))
  {
    hide ResponsesOf, FileRows, OnDrawnCard, IsForest;
    var part := DrawnPart(parse, final, sessions);
    DrawnPartIsPart(parse, final, sessions);
    forall name | name in part
      ensures FileRows(parse, part, name) == FileRows(parse, final, name)
    {
      SameInPart(parse, part, final, name);
    }
    forall r
      ensures r in ResponsesOf(roots) <==> exists name :: name in part && r in FileRows(parse, part, name).Values
    {
      ForestHolds(parse, final, sessions, trees, roots, r);
    }
  }

  /** The cards hold all the files' responses exactly when every one is on a drawn card. */
  lemma CardsHoldIffDrawn(parse: Reader.EntryParser, final: History.Files, sessions: seq<Session>,
                          trees: seq<Tree>, roots: seq<Card>)
    requires IsForest(parse, final, sessions, trees, roots)
    ensures CardsHold(roots, parse, final) <==> EveryResponseDrawn(parse, final, sessions)
  {
    hide ResponsesOf, FileRows, OnDrawnCard, IsForest;
    CardsHoldDrawnPart(parse, final, sessions, trees, roots);
    var part := DrawnPart(parse, final, sessions);
    DrawnPartIsPart(parse, final, sessions);
    forall name | name in part
      ensures FileRows(parse, part, name) == FileRows(parse, final, name)
    {
      SameInPart(parse, part, final, name);
    }
    if CardsHold(roots, parse, final) {
      forall name | name in final && FileRows(parse, final, name) != map[]
        ensures name in part
      {
        var i :| i in FileRows(parse, final, name);
        var r := FileRows(parse, final, name)[i];
        FileRowIs(parse, final, name, i);
        var other := CardRow(parse, part, roots, r);
        FileRowIs(parse, part, other, r.id);
      }
    }
  }

  // ------------------------------------------------------- which copy a row comes of

  /** The copies of a response, in whichever files, carry one branch, or branches of one group. */
  ghost predicate OneGroupEach(parse: Reader.EntryParser, final: History.Files) {
    forall a, b, i :: a in final && b in final && i in FileRows(parse, final, a) && i in FileRows(parse, final, b) ==>
      GroupOf(FileRows(parse, final, a)[i].branch) == GroupOf(FileRows(parse, final, b)[i].branch)
  }

  /** So they do when no response is in two files. */
  lemma OneFileIsOneGroup(parse: Reader.EntryParser, final: History.Files)
    requires History.OneFileEach(Reader.UsageOf(parse), final)
    ensures OneGroupEach(parse, final)
  {
    hide FileRows, FirstOf, History.Whole, Reader.UsageOf, GroupOf;
    forall a, b, i | a in final && b in final && i in FileRows(parse, final, a) && i in FileRows(parse, final, b)
      ensures a == b
    {
      FileRowIs(parse, final, a, i);
      FileRowIs(parse, final, b, i);
    }
  }

  lemma WholeIsRead(p: Parser, f: File)
    ensures FileOffers(p, f, None) == Offers(p, f.name, f.content, 0)
  {
    assert f.content[0..] == f.content;
  }

  /** What a scan offers first of a response is what some file does. */
  lemma {:induction false} ScanFirst(p: Parser, final: History.Files, dir: seq<File>, i: Id) returns (name: string)
    requires forall k :: 0 <= k < |dir| ==> dir[k].name in final && dir[k].content == final[dir[k].name]
    requires FirstOf(ScanOffers(p, dir, map[]), i).Some?
    ensures name in final && FirstOf(History.Whole(p, final, name), i) == FirstOf(ScanOffers(p, dir, map[]), i)
  {
    hide FileOffers, Offers;
    var front, f := dir[..|dir| - 1], dir[|dir| - 1];
    FirstOfConcat(ScanOffers(p, front, map[]), FileOffers(p, f, None), i);
    WholeIsRead(p, f);
    name := f.name;
    if FirstOf(ScanOffers(p, front, map[]), i).Some? {
      name := ScanFirst(p, final, front, i);
    }
  }

  /** A stored row is attributed as some file's row is. */
  lemma ScannedBranch(parse: Reader.EntryParser, final: History.Files, listing: seq<File>, i: Id)
    returns (name: string)
    requires History.Lists(listing, final) && i in ScannedRows(parse, listing)
    ensures name in final && i in FileRows(parse, final, name)
    ensures ScannedRows(parse, listing)[i].branch == FileRows(parse, final, name)[i].branch
  {
    hide Reader.UsageOf, UpsertAll, FileRows, ScanOffers, FirstOf, FirstWindow, History.Whole, IsLargestOffered;
    var p := Reader.UsageOf(parse);
    NothingIsLargest();
    KeptFromFirst(map[], ScanOffers(p, listing, map[]), i);
    name := ScanFirst(p, final, listing, i);
    KeptFromFirst(map[], History.Whole(p, final, name), i);
    FileRowsFold(parse, final, name);
  }

  /** And so is a row folded of what the cards hold. */
  lemma CardsBranch(parse: Reader.EntryParser, part: History.Files, roots: seq<Card>, i: Id) returns (name: string)
    requires CardsHold(roots, parse, part) && i in UpsertAll(map[], ResponsesOf(roots))
    ensures name in part && i in FileRows(parse, part, name)
    ensures UpsertAll(map[], ResponsesOf(roots))[i].branch == FileRows(parse, part, name)[i].branch
  {
    hide UpsertAll, ResponsesOf, FileRows, FirstOf, FirstWindow, CardsHold;
    var all := ResponsesOf(roots);
    NothingIsLargest();
    KeptFromFirst(map[], all, i);
    FirstOfMember(all, i);
    name := CardRow(parse, part, roots, FirstOf(all, i).value);
  }

  // ------------------------------------------------------- how much of a response is stored

  lemma ScannedIsLargest(parse: Reader.EntryParser, final: History.Files, listing: seq<File>)
    requires History.Lists(listing, final)
    requires forall name :: name in final ==> History.Stable(Reader.UsageOf(parse), final[name])
    ensures IsLargestOffered(ScannedRows(parse, listing), History.Held(Reader.UsageOf(parse), final))
  {
    hide Reader.UsageOf, UpsertAll, ScanOffers, History.Stable, IsLargestOffered, History.Held;
    var p := Reader.UsageOf(parse);
    History.GoodScanCatchesUp(p, final, listing, map[], {});
    NothingIsLargest();
    UpsertAllKeepsLargest(map[], {}, ScanOffers(p, listing, map[]));
    assert {} + Elements(ScanOffers(p, listing, map[])) == History.Held(p, final);
  }

  lemma LargestOut(rows: Rows, offered: set<Response>, i: Id) returns (o: Response)
    requires IsLargestOffered(rows, offered) && i in rows
    ensures o in offered && o.id == i && o.counts.out == rows[i].counts.out
  {
    assert Attained(offered, i, rows[i]);
    o :| o in offered && o.id == i && o.counts.out == rows[i].counts.out;
  }

  /** No file's row has more output than is stored. */
  lemma RowWithinScanned(parse: Reader.EntryParser, final: History.Files, listing: seq<File>, name: string, i: Id)
    requires History.Lists(listing, final)
    requires forall n :: n in final ==> History.Stable(Reader.UsageOf(parse), final[n])
    requires name in final && i in FileRows(parse, final, name)
    ensures i in ScannedRows(parse, listing)
    ensures FileRows(parse, final, name)[i].counts.out <= ScannedRows(parse, listing)[i].counts.out
  {
    hide Reader.UsageOf, FileRows, ScannedRows, History.Stable, IsLargestOffered, History.Whole;
    FileRowsFold(parse, final, name);
    ScannedIsLargest(parse, final, listing);
    var o := LargestOut(FileRows(parse, final, name), Elements(History.Whole(Reader.UsageOf(parse), final, name)), i);
    BoundedIn(ScannedRows(parse, listing), History.Held(Reader.UsageOf(parse), final), o);
  }

  /** And some file's row has just that. */
  lemma ScannedInSomeFile(parse: Reader.EntryParser, final: History.Files, listing: seq<File>, i: Id)
    returns (name: string)
    requires History.Lists(listing, final) && i in ScannedRows(parse, listing)
    requires forall n :: n in final ==> History.Stable(Reader.UsageOf(parse), final[n])
    ensures name in final && i in FileRows(parse, final, name)
    ensures FileRows(parse, final, name)[i].counts.out == ScannedRows(parse, listing)[i].counts.out
  {
    hide Reader.UsageOf, FileRows, ScannedRows, History.Stable, IsLargestOffered, History.Whole;
    ScannedIsLargest(parse, final, listing);
    var o := LargestOut(ScannedRows(parse, listing), History.Held(Reader.UsageOf(parse), final), i);
    name :| name in final && o in History.Whole(Reader.UsageOf(parse), final, name);
    FileRowsFold(parse, final, name);
    BoundedIn(FileRows(parse, final, name), Elements(History.Whole(Reader.UsageOf(parse), final, name)), o);
    RowWithinScanned(parse, final, listing, name, i);
  }

  lemma CardsAreLargest(roots: seq<Card>)
    ensures IsLargestOffered(UpsertAll(map[], ResponsesOf(roots)), Elements(ResponsesOf(roots)))
    ensures WellKeyed(UpsertAll(map[], ResponsesOf(roots)))
  {
    hide IsLargestOffered, UpsertAll, ResponsesOf;
    NothingIsLargest();
    UpsertAllKeepsLargest(map[], {}, ResponsesOf(roots));
    assert {} + Elements(ResponsesOf(roots)) == Elements(ResponsesOf(roots));
    UpsertAllWellKeyed(map[], ResponsesOf(roots));
  }

  /** What a row folded of the cards has of output, some file on a drawn card has. */
  lemma CardsInSomeFile(parse: Reader.EntryParser, part: History.Files, roots: seq<Card>, i: Id) returns (name: string)
    requires CardsHold(roots, parse, part) && i in UpsertAll(map[], ResponsesOf(roots))
    ensures name in part && i in FileRows(parse, part, name)
    ensures UpsertAll(map[], ResponsesOf(roots))[i].counts.out == FileRows(parse, part, name)[i].counts.out
  {
    hide UpsertAll, ResponsesOf, FileRows, IsLargestOffered, CardsHold;
    CardsAreLargest(roots);
    var o := LargestOut(UpsertAll(map[], ResponsesOf(roots)), Elements(ResponsesOf(roots)), i);
    name := CardRow(parse, part, roots, o);
  }

  lemma RowWithinCards(parse: Reader.EntryParser, part: History.Files, roots: seq<Card>, name: string, i: Id)
    requires CardsHold(roots, parse, part) && name in part && i in FileRows(parse, part, name)
    ensures i in UpsertAll(map[], ResponsesOf(roots))
    ensures FileRows(parse, part, name)[i].counts.out <= UpsertAll(map[], ResponsesOf(roots))[i].counts.out
  {
    hide UpsertAll, ResponsesOf, FileRows, IsLargestOffered, CardsHold;
    CardsAreLargest(roots);
    CardsHoldRow(parse, part, roots, name, i);
    BoundedIn(UpsertAll(map[], ResponsesOf(roots)), Elements(ResponsesOf(roots)), FileRows(parse, part, name)[i]);
  }

  /** Each row of `some` is one of `all`, in the same group and with no more output. */
  ghost predicate Under(some: Rows, all: Rows) {
    forall i :: i in some ==>
      i in all && GroupOf(some[i].branch) == GroupOf(all[i].branch) && some[i].counts.out <= all[i].counts.out
  }

  lemma CardsUnderScanned(parse: Reader.EntryParser, final: History.Files, part: History.Files, roots: seq<Card>,
                          listing: seq<File>)
    requires PartOf(part, final) && CardsHold(roots, parse, part)
    requires History.Lists(listing, final) && OneGroupEach(parse, final)
    requires forall name :: name in final ==> History.Stable(Reader.UsageOf(parse), final[name])
    ensures Under(UpsertAll(map[], ResponsesOf(roots)), ScannedRows(parse, listing))
  {
    hide UpsertAll, ResponsesOf, FileRows, ScannedRows, History.Stable, CardsHold, History.Lists, Reader.UsageOf,
         PartOf, History.Whole, GroupOf;
    var some, all := UpsertAll(map[], ResponsesOf(roots)), ScannedRows(parse, listing);
    forall i | i in some
      ensures i in all && GroupOf(some[i].branch) == GroupOf(all[i].branch)
      ensures some[i].counts.out <= all[i].counts.out
    {
      var most := CardsInSomeFile(parse, part, roots, i);
      SameInPart(parse, part, final, most);
      RowWithinScanned(parse, final, listing, most, i);
      var here := CardsBranch(parse, part, roots, i);
      SameInPart(parse, part, final, here);
      var there := ScannedBranch(parse, final, listing, i);
    }
  }

  // ------------------------------------------------------- one total

  /** What is stored of a response beyond what `drawn` has of it. */
  function Undrawn(r: Response, drawn: Rows): int {
    r.counts.out - if r.id in drawn then drawn[r.id].counts.out else 0
  }

  /** Over the responses of an issue. */
  function UndrawnOut(rs: seq<Response>, drawn: Rows, n: nat): int {
    if rs == [] then 0
    else
      var r := rs[|rs| - 1];
      UndrawnOut(rs[..|rs| - 1], drawn, n) + if GroupOf(r.branch) == Issue(n) then Undrawn(r, drawn) else 0
  }

  lemma {:induction false} UndrawnOutOfCounts(rs: seq<Response>, a: Rows, b: Rows, n: nat)
    requires SameCounts(a, b)
    ensures UndrawnOut(rs, a, n) == UndrawnOut(rs, b, n)
    ensures forall r :: r in rs ==> Undrawn(r, a) == Undrawn(r, b)
  {
    if rs != [] {
      UndrawnOutOfCounts(rs[..|rs| - 1], a, b, n);
    }
  }

  lemma {:induction false} NothingUndrawn(rs: seq<Response>, drawn: Rows, n: nat)
    requires forall r :: r in rs ==> Undrawn(r, drawn) >= 0
    ensures UndrawnOut(rs, drawn, n) >= 0
    ensures UndrawnOut(rs, drawn, n) == 0
       <==> forall r :: r in rs && GroupOf(r.branch) == Issue(n) ==> Undrawn(r, drawn) == 0
  {
    if rs != [] {
      hide GroupOf, Undrawn;
      var front, r := rs[..|rs| - 1], rs[|rs| - 1];
      assert rs == front + [r];
      NothingUndrawn(front, drawn, n);
    }
  }

  /** The rows of `drawn` among the listed. */
  function DrawnOf(rs: seq<Response>, drawn: Rows): seq<Response> {
    if rs == [] then []
    else
      var i := rs[|rs| - 1].id;
      DrawnOf(rs[..|rs| - 1], drawn) + if i in drawn then [drawn[i]] else []
  }

  lemma GroupSumSnoc(rs: seq<Response>, r: Response, key: Group)
    ensures GroupSum(rs + [r], key) == GroupSum(rs, key) + if GroupOf(r.branch) == key then r.counts.out else 0
  {
    assert (rs + [r])[..|rs|] == rs;
  }

  lemma {:induction false} GroupSumSplits(rs: seq<Response>, drawn: Rows, n: nat)
    requires forall r :: r in rs && r.id in drawn ==> GroupOf(drawn[r.id].branch) == GroupOf(r.branch)
    ensures GroupSum(rs, Issue(n)) == GroupSum(DrawnOf(rs, drawn), Issue(n)) + UndrawnOut(rs, drawn, n)
  {
    if rs != [] {
      hide GroupOf;
      var front, r := rs[..|rs| - 1], rs[|rs| - 1];
      assert rs == front + [r];
      GroupSumSplits(front, drawn, n);
      if r.id in drawn {
        GroupSumSnoc(DrawnOf(front, drawn), drawn[r.id], Issue(n));
      } else {
        assert DrawnOf(rs, drawn) == DrawnOf(front, drawn);
      }
    }
  }

  lemma DrawnOfSnoc(rs: seq<Response>, r: Response, drawn: Rows)
    ensures DrawnOf(rs + [r], drawn) == if r.id in drawn then DrawnOf(rs, drawn) + [drawn[r.id]] else DrawnOf(rs, drawn)
  {
    assert (rs + [r])[..|rs|] == rs;
    assert DrawnOf(rs, drawn) + [] == DrawnOf(rs, drawn);
  }

  lemma ListedAt(listed: seq<Response>, seen: map<Id, nat>, rows: Rows, k: nat, i: Id)
    requires Listed(listed, seen, rows) && k < |listed|
    ensures i in seen && seen[i] == k <==> listed[k].id == i
  {
  }

  lemma KeyedAt(rows: Rows, i: Id)
    requires WellKeyed(rows)
    ensures i in rows ==> rows[i].id == i
  {
  }

  lemma {:induction false} DrawnOfCount(listed: seq<Response>, seen: map<Id, nat>, rows: Rows, drawn: Rows, n: nat,
                                        r: Response)
    requires Listed(listed, seen, rows) && n <= |listed| && WellKeyed(drawn)
    ensures multiset(DrawnOf(listed[..n], drawn))[r]
         == if r.id in seen && seen[r.id] < n && r.id in drawn && drawn[r.id] == r then 1 else 0
  {
    hide Listed, WellKeyed;
    if n > 0 {
      hide *;
      ListedAt(listed, seen, rows, n - 1, r.id);
      KeyedAt(drawn, listed[n - 1].id);
      DrawnOfCount(listed, seen, rows, drawn, n - 1, r);
      assert listed[..n] == listed[..n - 1] + [listed[n - 1]];
      DrawnOfSnoc(listed[..n - 1], listed[n - 1], drawn);
    }
  }

  /** The credited responses are the drawn rows of the listed ones. */
  lemma CreditedAreDrawn(listed: seq<Response>, seen: map<Id, nat>, rows: Rows, c: Credits, drawn: Rows)
    requires Listed(listed, seen, rows) && Listed(c.folded, c.index, drawn) && drawn.Keys <= rows.Keys
    ensures multiset(DrawnOf(listed, drawn)) == multiset(c.folded)
  {
    assert WellKeyed(drawn);
    assert listed[..|listed|] == listed && c.folded[..|c.folded|] == c.folded;
    forall r: Response
      ensures multiset(DrawnOf(listed, drawn))[r] == multiset(c.folded)[r]
    {
      hide DrawnOf;
      DrawnOfCount(listed, seen, rows, drawn, |listed|, r);
      ListedCount(c.folded, c.index, drawn, |c.folded|, r);
    }
  }

  /** The figure the Sessions page shows for an issue: its group's, or nothing when it has none. */
  function GroupFigure(groups: seq<SessionGroup>, n: nat): nat {
    if groups == [] then 0
    else if groups[0].key == Issue(n) then groups[0].out
    else GroupFigure(groups[1..], n)
  }

  lemma {:induction false} GroupFigureIs(groups: seq<SessionGroup>, n: nat)
    ensures (exists g :: g in groups && g.key == Issue(n) && g.out == GroupFigure(groups, n))
         || (GroupFigure(groups, n) == 0 && forall g :: g in groups ==> g.key != Issue(n))
  {
    if groups != [] && groups[0].key != Issue(n) {
      GroupFigureIs(groups[1..], n);
      assert groups == [groups[0]] + groups[1..];
    } else if groups != [] {
      assert groups[0] in groups;
    }
  }

  lemma GroupFigureIsSum(groups: seq<SessionGroup>, c: Credits, n: nat)
    requires AccountsFor(groups, c)
    ensures GroupFigure(groups, n) == GroupSum(c.folded, Issue(n))
  {
    hide GroupFigure, GroupSum, ResponseGroups, SubtreeOuts;
    GroupFigureIs(groups, n);
    if forall g :: g in groups ==> g.key != Issue(n) {
      GroupSumSkips(c.folded, Issue(n));
    }
  }

  /** Crediting a forest's cards keeps the rows its responses fold to. */
  lemma CreditedFromCards(parse: Reader.EntryParser, part: History.Files, roots: seq<Card>)
    requires CardsHold(roots, parse, part)
    ensures Consistent(NO_CREDITS)
    ensures var c := CreditCards(NO_CREDITS, roots); Listed(c.folded, c.index, UpsertAll(map[], ResponsesOf(roots)))
  {
    hide UpsertAll, ResponsesOf, CreditCards, Listed, CardsHold;
    NothingIsLargest();
    NothingCredited();
    CardWindowsKnown(parse, part, roots);
    CreditCardsIsUpsertAll(NO_CREDITS, roots, map[]);
  }

  /** What the two pages do with one reading of the files: what each shows. */
  ghost predicate BothPages(parse: Reader.EntryParser, final: History.Files, sessions: seq<Session>,
                            roots: seq<Card>, listing: seq<File>, listed: seq<Response>,
                            groups: seq<SessionGroup>, byIssue: map<nat, Spend>, off: Unattributed) {
    && (exists trees :: IsForest(parse, final, sessions, trees, roots))
    && History.Lists(listing, final)
    && (exists seen :: Listed(listed, seen, ScannedRows(parse, listing)))
    && IsTally(byIssue, off, listed, IssueOfBranch)
    && AccountsFor(groups, CreditCards(NO_CREDITS, roots))
  }

  lemma PagesRead(parse: Reader.EntryParser, final: History.Files, sessions: seq<Session>,
                  roots: seq<Card>, listing: seq<File>, listed: seq<Response>,
                  groups: seq<SessionGroup>, byIssue: map<nat, Spend>, off: Unattributed)
    returns (trees: seq<Tree>, seen: map<Id, nat>)
    requires BothPages(parse, final, sessions, roots, listing, listed, groups, byIssue, off)
    ensures IsForest(parse, final, sessions, trees, roots) && History.Lists(listing, final)
    ensures Listed(listed, seen, ScannedRows(parse, listing)) && IsTally(byIssue, off, listed, IssueOfBranch)
    ensures Consistent(NO_CREDITS) && AccountsFor(groups, CreditCards(NO_CREDITS, roots))
  {
    hide IsForest, Listed, ScannedRows, IsTally, CreditCards, AccountsFor, History.Lists, IssueOfBranch;
    NothingCredited();
    trees :| IsForest(parse, final, sessions, trees, roots);
    seen :| Listed(listed, seen, ScannedRows(parse, listing));
  }

  /** Both figures of an issue, by what is on the cards. */
  lemma TotalsDifferByUndrawn(parse: Reader.EntryParser, final: History.Files, sessions: seq<Session>,
                              roots: seq<Card>, listing: seq<File>, listed: seq<Response>,
                              groups: seq<SessionGroup>, byIssue: map<nat, Spend>, off: Unattributed, n: nat)
    requires BothPages(parse, final, sessions, roots, listing, listed, groups, byIssue, off)
    requires forall name :: name in final ==> History.Stable(Reader.UsageOf(parse), final[name])
    requires OneGroupEach(parse, final)
    ensures CardsHold(roots, parse, DrawnPart(parse, final, sessions))
    ensures Under(UpsertAll(map[], ResponsesOf(roots)), ScannedRows(parse, listing))
    ensures UsageFigure(byIssue, n)
         == GroupFigure(groups, n) + UndrawnOut(listed, UpsertAll(map[], ResponsesOf(roots)), n)
  {
    NothingCredited();
    var trees, seen := PagesRead(parse, final, sessions, roots, listing, listed, groups, byIssue, off);
    hide *;
    var part, c := DrawnPart(parse, final, sessions), CreditCards(NO_CREDITS, roots);
    var drawn := UpsertAll(map[], ResponsesOf(roots));
    DrawnPartIsPart(parse, final, sessions);
    CardsHoldDrawnPart(parse, final, sessions, trees, roots);
    CardsUnderScanned(parse, final, part, roots, listing);
    CreditedFromCards(parse, part, roots);
    UnderListed(listed, seen, drawn, ScannedRows(parse, listing));
    CreditedAreDrawn(listed, seen, ScannedRows(parse, listing), c, drawn);
    GroupSumSplits(listed, drawn, n);
    GroupSumOrderFree(DrawnOf(listed, drawn), c.folded, n);
    GroupFigureIsSum(groups, c, n);
    FigureIsGroupSum(listed, byIssue, off, n);
  }

  lemma UnderListed(listed: seq<Response>, seen: map<Id, nat>, drawn: Rows, rows: Rows)
    requires Listed(listed, seen, rows) && Under(drawn, rows)
    ensures drawn.Keys <= rows.Keys
    ensures forall r :: r in listed ==> r.id in rows && rows[r.id] == r && Undrawn(r, drawn) >= 0
    ensures forall r :: r in listed && r.id in drawn ==> GroupOf(drawn[r.id].branch) == GroupOf(r.branch)
  {
    hide GroupOf;
  }

  /**
    Both pages' figures, for any reading: the Usage page shows for an issue what the Sessions
    page does and, on top of it, what a scan of everything stores of the issue's responses
    beyond a scan of nothing but the files on drawn cards.
    */
  lemma TotalsDifferByHidden(parse: Reader.EntryParser, final: History.Files, sessions: seq<Session>,
                             roots: seq<Card>, listing: seq<File>, listed: seq<Response>,
                             groups: seq<SessionGroup>, byIssue: map<nat, Spend>, off: Unattributed,
                             shown: seq<File>, n: nat)
    requires BothPages(parse, final, sessions, roots, listing, listed, groups, byIssue, off)
    requires forall name :: name in final ==> History.Stable(Reader.UsageOf(parse), final[name])
    requires OneGroupEach(parse, final)
    requires History.Lists(shown, DrawnPart(parse, final, sessions))
    ensures UsageFigure(byIssue, n) == GroupFigure(groups, n) + UndrawnOut(listed, ScannedRows(parse, shown), n)
    ensures forall r :: r in listed ==> Undrawn(r, ScannedRows(parse, shown)) >= 0
  {
    hide *;
    var part, drawn := DrawnPart(parse, final, sessions), UpsertAll(map[], ResponsesOf(roots));
    TotalsDifferByUndrawn(parse, final, sessions, roots, listing, listed, groups, byIssue, off, n);
    DrawnPartIsPart(parse, final, sessions);
    StablePart(parse, final, part);
    CardsFoldToScannedCounts(parse, part, roots, shown);
    UndrawnOutOfCounts(listed, drawn, ScannedRows(parse, shown), n);
    var trees, seen := PagesRead(parse, final, sessions, roots, listing, listed, groups, byIssue, off);
    UnderListed(listed, seen, drawn, ScannedRows(parse, listing));
  }

  lemma StablePart(parse: Reader.EntryParser, final: History.Files, part: History.Files)
    requires PartOf(part, final)
    requires forall name :: name in final ==> History.Stable(Reader.UsageOf(parse), final[name])
    ensures forall name :: name in part ==> History.Stable(Reader.UsageOf(parse), part[name])
  {
    hide History.Stable;
  }

  /** A file on a drawn card has all the output stored of `r`. */
  ghost predicate ShownInFull(parse: Reader.EntryParser, final: History.Files, sessions: seq<Session>, r: Response) {
    || r.counts.out == 0
    || exists name :: name in final && OnDrawnCard(parse, final, sessions, name)
                   && r.id in FileRows(parse, final, name)
                   && FileRows(parse, final, name)[r.id].counts.out == r.counts.out
  }

  lemma UndrawnIff(parse: Reader.EntryParser, final: History.Files, sessions: seq<Session>, roots: seq<Card>,
                   r: Response)
    requires CardsHold(roots, parse, DrawnPart(parse, final, sessions))
    requires Undrawn(r, UpsertAll(map[], ResponsesOf(roots))) >= 0
    ensures Undrawn(r, UpsertAll(map[], ResponsesOf(roots))) == 0 <==> ShownInFull(parse, final, sessions, r)
  {
    hide FileRows, UpsertAll, ResponsesOf, CardsHold, OnDrawnCard, PartOf;
    var part, drawn := DrawnPart(parse, final, sessions), UpsertAll(map[], ResponsesOf(roots));
    DrawnPartIsPart(parse, final, sessions);
    if Undrawn(r, drawn) == 0 && r.id in drawn {
      var name := CardsInSomeFile(parse, part, roots, r.id);
      SameInPart(parse, part, final, name);
    }
    if r.counts.out != 0 && ShownInFull(parse, final, sessions, r) {
      var name :| name in final && OnDrawnCard(parse, final, sessions, name)
               && r.id in FileRows(parse, final, name)
               && FileRows(parse, final, name)[r.id].counts.out == r.counts.out;
      SameInPart(parse, part, final, name);
      RowWithinCards(parse, part, roots, name, r.id);
    }
  }

  /**
    Two computations come to one total for every issue exactly when each response of an
    issue's is in a file on a drawn card with all the output the scan stores of it.
    */
  lemma OneTotalIffNothingHidden(parse: Reader.EntryParser, final: History.Files, sessions: seq<Session>,
                                 roots: seq<Card>, listing: seq<File>, listed: seq<Response>,
                                 groups: seq<SessionGroup>, byIssue: map<nat, Spend>, off: Unattributed)
    requires BothPages(parse, final, sessions, roots, listing, listed, groups, byIssue, off)
    requires forall name :: name in final ==> History.Stable(Reader.UsageOf(parse), final[name])
    requires OneGroupEach(parse, final)
    ensures (forall n :: UsageFigure(byIssue, n) == GroupFigure(groups, n))
       <==> (forall r :: r in listed && GroupOf(r.branch).Issue? ==> ShownInFull(parse, final, sessions, r))
  {
    hide *;
    var drawn := UpsertAll(map[], ResponsesOf(roots));
    var trees, seen := PagesRead(parse, final, sessions, roots, listing, listed, groups, byIssue, off);
    TotalsDifferByUndrawn(parse, final, sessions, roots, listing, listed, groups, byIssue, off, 0);
    UnderListed(listed, seen, drawn, ScannedRows(parse, listing));
    forall n: nat
      ensures UsageFigure(byIssue, n) == GroupFigure(groups, n) + UndrawnOut(listed, drawn, n)
      ensures UndrawnOut(listed, drawn, n) == 0
         <==> forall r :: r in listed && GroupOf(r.branch) == Issue(n) ==> Undrawn(r, drawn) == 0
    {
      TotalsDifferByUndrawn(parse, final, sessions, roots, listing, listed, groups, byIssue, off, n);
      NothingUndrawn(listed, drawn, n);
    }
    forall r | r in listed
      ensures Undrawn(r, drawn) == 0 <==> ShownInFull(parse, final, sessions, r)
    {
      UndrawnIff(parse, final, sessions, roots, r);
    }
    ForEveryIssue(listed, drawn);
  }

  lemma ForEveryIssue(rs: seq<Response>, drawn: Rows)
    ensures (forall n: nat, r :: r in rs && GroupOf(r.branch) == Issue(n) ==> Undrawn(r, drawn) == 0)
       <==> (forall r :: r in rs && GroupOf(r.branch).Issue? ==> Undrawn(r, drawn) == 0)
  {
    hide GroupOf, Undrawn;
    if forall n: nat, r :: r in rs && GroupOf(r.branch) == Issue(n) ==> Undrawn(r, drawn) == 0 {
      forall r | r in rs && GroupOf(r.branch).Issue?
        ensures Undrawn(r, drawn) == 0
      {
        assert GroupOf(r.branch) == Issue(GroupOf(r.branch).issue);
      }
    }
  }

  /**
    The Sessions page's total for an issue is the Usage page's, when every response is on a
    card the page draws: every group of an issue shows the figure the Usage page tallies for it,
    and an issue with no group is one the Usage page shows nothing for.
    */
  lemma OneTotal(parse: Reader.EntryParser, final: History.Files, sessions: seq<Session>,
                 roots: seq<Card>, listing: seq<File>, listed: seq<Response>,
                 groups: seq<SessionGroup>, byIssue: map<nat, Spend>, off: Unattributed)
    requires BothPages(parse, final, sessions, roots, listing, listed, groups, byIssue, off)
    requires forall name :: name in final ==> History.Stable(Reader.UsageOf(parse), final[name])
    requires OneGroupEach(parse, final)
    requires EveryResponseDrawn(parse, final, sessions)
    ensures forall n :: UsageFigure(byIssue, n) == GroupFigure(groups, n)
    ensures forall g :: g in groups && g.key.Issue? ==> g.out == UsageFigure(byIssue, g.key.issue)
  {
    hide *;
    var trees, seen := PagesRead(parse, final, sessions, roots, listing, listed, groups, byIssue, off);
    forall r | r in listed
      ensures ShownInFull(parse, final, sessions, r)
    {
      AllShown(parse, final, sessions, listing, listed, seen, r);
    }
    OneTotalIffNothingHidden(parse, final, sessions, roots, listing, listed, groups, byIssue, off);
    GroupsShowFigures(groups, CreditCards(NO_CREDITS, roots), byIssue);
  }

  lemma AllShown(parse: Reader.EntryParser, final: History.Files, sessions: seq<Session>, listing: seq<File>,
                 listed: seq<Response>, seen: map<Id, nat>, r: Response)
    requires History.Lists(listing, final) && Listed(listed, seen, ScannedRows(parse, listing)) && r in listed
    requires forall name :: name in final ==> History.Stable(Reader.UsageOf(parse), final[name])
    requires EveryResponseDrawn(parse, final, sessions)
    ensures ShownInFull(parse, final, sessions, r)
  {
    hide ScannedRows, History.Stable, History.Lists, FileRows, OnDrawnCard, Reader.UsageOf;
    assert r.id in ScannedRows(parse, listing) && ScannedRows(parse, listing)[r.id] == r;
    var name := ScannedInSomeFile(parse, final, listing, r.id);
  }

  lemma GroupsShowFigures(groups: seq<SessionGroup>, c: Credits, byIssue: map<nat, Spend>)
    requires AccountsFor(groups, c)
    requires forall n :: UsageFigure(byIssue, n) == GroupFigure(groups, n)
    ensures forall g :: g in groups && g.key.Issue? ==> g.out == UsageFigure(byIssue, g.key.issue)
  {
    hide UsageFigure, GroupFigure, AccountsFor;
    forall g | g in groups && g.key.Issue?
      ensures g.out == UsageFigure(byIssue, g.key.issue)
    {
      GroupFigureIs(groups, g.key.issue);
      OneOfEachKey(groups, c, g);
    }
  }

  lemma OneOfEachKey(groups: seq<SessionGroup>, c: Credits, g: SessionGroup)
    requires AccountsFor(groups, c) && g in groups
    ensures forall h :: h in groups && h.key == g.key ==> h == g
  {
    hide GroupSum, SubtreeOuts, ResponseGroups;
    forall h | h in groups && h.key == g.key
      ensures h == g
    {
      var j :| 0 <= j < |groups| && groups[j] == h;
      var k :| 0 <= k < |groups| && groups[k] == g;
    }
  }

  lemma GroupSumOrderFree(xs: seq<Response>, ys: seq<Response>, n: nat)
    requires multiset(xs) == multiset(ys)
    ensures GroupSum(xs, Issue(n)) == GroupSum(ys, Issue(n))
  {
    hide IssueOfBranch, GroupOf, On;
    assert forall r :: r in xs <==> r in multiset(xs);
    assert forall r :: r in ys <==> r in multiset(ys);
    assert BranchesIn(xs) == BranchesIn(ys);
    var named := Naming(BranchesIn(xs), IssueOfBranch, n);
    GroupSumIsTally(xs, BranchesIn(xs), n);
    GroupSumIsTally(ys, BranchesIn(xs), n);
    OnMultiset(xs, ys, named);
    SummariseOrderFree(On(xs, named), On(ys, named));
    SumOutIsSummary(On(xs, named));
    SumOutIsSummary(On(ys, named));
  }

  // ------------------------------------------------------- a reading with two totals

  const SESSION_FILE := "s.jsonl"
  const AGENT_A := "s/subagents/agent-a.jsonl"
  const AGENT_B := "s/subagents/agent-b.jsonl"

  const BRANCH := "fix/7-x"

  /** A line that makes one call, on a branch, with usage or without. */
  function Calling(call: string, branch: string, usage: Option<Reader.Usage>): Reader.Parsed {
    Reader.Parsed(Reader.Entry(None, None, None, Some(branch), None, "",
      Some(Reader.Message("m", "", None, [Reader.ToolUse(call, None, [], None)], usage))))
  }

  /** Subagent `a`'s one line makes the call that started `b`, and `b`'s the one that started `a`. */
  function RingParse(): Reader.EntryParser {
    (text: Bytes) =>
      if text == [97] then Calling("b", BRANCH, Some(Reader.Usage(0, 0, 0, 10)))
      else if text == [98] then Calling("a", BRANCH, None)
      else Reader.Bad
  }

  const RING_FILES: History.Files := map[SESSION_FILE := [], AGENT_A := [97], AGENT_B := [98]]

  const RING := Session("s", SESSION_FILE, 0,
                        [Meta("a", Some("a"), AGENT_A, false, 0), Meta("b", Some("b"), AGENT_B, false, 0)], [])

  /** What subagent `a` spent. */
  function RingRow(): Response {
    Response(Message("m"), None, Some(BRANCH), None, Counts(10, 0, Some(10)), Some(AGENT_A))
  }

  lemma OneLine(parse: Reader.EntryParser, file: string, text: Bytes)
    requires forall k :: 0 <= k < |text| ==> text[k] != NEWLINE
    ensures Reader.WholeFacts(parse, file, text)
         == Reader.Fed(Reader.StartFacts(file), Reader.ParsedLine(parse, text), 1, false)
  {
    hide Reader.Fed, Reader.ParsedLine;
    Reader.FedLinesOfTail(Reader.StartFacts(file), parse, text);
    assert Complete(text) == 0 && text[0..] == text;
  }

  lemma CallOnly(f: Reader.Facts, call: string, branch: string, usage: Option<Reader.Usage>)
    requires f == Reader.StartFacts(f.file)
    requires branch != ""
    ensures var after := Reader.Fed(f, Calling(call, branch, usage), 1, false);
      && after.calls == [call] && after.branch == Some(branch)
      && (usage.None? ==> after.responses == map[])
      && (usage.Some? ==>
            var r := Response(Message("m"), None, Some(branch), None, Reader.CountsOf(usage.value), Some(f.file));
            after.responses == map[r.id := r])
  {
    var use := Reader.ToolUse(call, None, [], None);
    var placed := f.(branch := Some(branch));
    assert [use][..0] == [];
    assert Reader.FedUses(placed, []) == placed;
    assert Reader.FedUses(placed, [use]) == placed.(calls := [call]);
  }

  lemma NamesDiffer()
    ensures SESSION_FILE != AGENT_A && SESSION_FILE != AGENT_B && AGENT_A != AGENT_B
  {
    assert |SESSION_FILE| != |AGENT_A| && |SESSION_FILE| != |AGENT_B|;
    assert AGENT_A[|AGENT_A| - 7] == 'a' && AGENT_B[|AGENT_B| - 7] == 'b';
  }

  /** A file of one line, which makes one call. */
  lemma OneCall(parse: Reader.EntryParser, file: string, text: Bytes, call: string, branch: string,
                usage: Option<Reader.Usage>)
    requires text != [] && forall k :: 0 <= k < |text| ==> text[k] != NEWLINE
    requires branch != "" && parse(text) == Calling(call, branch, usage)
    ensures var facts := Reader.WholeFacts(parse, file, text);
      && facts.calls == [call] && facts.branch == Some(branch)
      && (usage.None? ==> facts.responses == map[])
      && (usage.Some? ==>
            var r := Response(Message("m"), None, Some(branch), None, Reader.CountsOf(usage.value), Some(file));
            facts.responses == map[r.id := r])
  {
    OneLine(parse, file, text);
    CallOnly(Reader.StartFacts(file), call, branch, usage);
    hide Reader.WholeFacts, Reader.Fed, Calling, Reader.CountsOf;
  }

  lemma RingReadSession()
    ensures FactsIn(RingParse(), RING_FILES, SESSION_FILE) == Reader.StartFacts(SESSION_FILE)
    ensures FileRows(RingParse(), RING_FILES, SESSION_FILE) == map[]
  {
    NamesDiffer();
    OneLine(RingParse(), SESSION_FILE, []);
    hide Reader.WholeFacts, Calling, RingParse;
  }

  lemma RingReadA()
    ensures var facts := FactsIn(RingParse(), RING_FILES, AGENT_A); facts.calls == ["b"] && facts.branch == Some(BRANCH)
    ensures FileRows(RingParse(), RING_FILES, AGENT_A) == map[Message("m") := RingRow()]
  {
    NamesDiffer();
    OneCall(RingParse(), AGENT_A, [97], "b", BRANCH, Some(Reader.Usage(0, 0, 0, 10)));
    hide Reader.WholeFacts, Calling, RingParse;
  }

  lemma RingReadB()
    ensures var facts := FactsIn(RingParse(), RING_FILES, AGENT_B); facts.calls == ["a"] && facts.branch == Some(BRANCH)
    ensures FileRows(RingParse(), RING_FILES, AGENT_B) == map[]
  {
    NamesDiffer();
    OneCall(RingParse(), AGENT_B, [98], "a", BRANCH, None);
    hide Reader.WholeFacts, Calling, RingParse;
  }

  lemma RingRead()
    ensures var parse := RingParse();
      && FactsIn(parse, RING_FILES, SESSION_FILE) == Reader.StartFacts(SESSION_FILE)
      && FactsIn(parse, RING_FILES, AGENT_A).calls == ["b"] && FactsIn(parse, RING_FILES, AGENT_B).calls == ["a"]
      && FactsIn(parse, RING_FILES, AGENT_A).branch == Some(BRANCH) == FactsIn(parse, RING_FILES, AGENT_B).branch
    ensures var parse := RingParse();
      && FileRows(parse, RING_FILES, SESSION_FILE) == map[] == FileRows(parse, RING_FILES, AGENT_B)
      && FileRows(parse, RING_FILES, AGENT_A) == map[Message("m") := RingRow()]
  {
    RingReadSession();
    RingReadA();
    RingReadB();
    hide *;
  }

  lemma ShortIsStable(p: Parser, bytes: Bytes)
    requires |bytes| <= 1 && forall k :: 0 <= k < |bytes| ==> bytes[k] != NEWLINE
    ensures History.Stable(p, bytes)
  {
  }

  lemma NoRowsNoOffers(parse: Reader.EntryParser, final: History.Files, name: string, i: Id)
    requires name in final && i !in FileRows(parse, final, name)
    ensures FirstOf(History.Whole(Reader.UsageOf(parse), final, name), i).None?
  {
    hide Reader.UsageOf, FileRows, FirstOf, Attained;
    var whole := History.Whole(Reader.UsageOf(parse), final, name);
    FileRowsFold(parse, final, name);
    FirstOfMember(whole, i);
    if FirstOf(whole, i).Some? {
      BoundedIn(FileRows(parse, final, name), Elements(whole), FirstOf(whole, i).value);
      assert false;
    }
  }

  /** The files are as the theorem on both totals asks: each line whole, each response in one file. */
  lemma RingIsPlain()
    ensures forall name :: name in RING_FILES ==> History.Stable(Reader.UsageOf(RingParse()), RING_FILES[name])
    ensures History.OneFileEach(Reader.UsageOf(RingParse()), RING_FILES)
  {
    ShortLines();
    OnlyAHasRows();
    hide *;
    ShortFiles(Reader.UsageOf(RingParse()), RING_FILES);
    OneFileHasAll(RingParse(), RING_FILES, AGENT_A);
  }

  lemma ShortLines()
    ensures forall name :: name in RING_FILES ==>
              |RING_FILES[name]| <= 1 && forall k :: 0 <= k < |RING_FILES[name]| ==> RING_FILES[name][k] != NEWLINE
  {
  }

  lemma ShortFiles(p: Parser, final: History.Files)
    requires forall name :: name in final ==>
               |final[name]| <= 1 && forall k :: 0 <= k < |final[name]| ==> final[name][k] != NEWLINE
    ensures forall name :: name in final ==> History.Stable(p, final[name])
  {
    hide *;
    forall name | name in final
      ensures History.Stable(p, final[name])
    {
      ShortIsStable(p, final[name]);
    }
  }

  lemma OneFileHasAll(parse: Reader.EntryParser, final: History.Files, a: string)
    requires forall name, i :: name in final && i in FileRows(parse, final, name) ==> name == a
    ensures History.OneFileEach(Reader.UsageOf(parse), final)
  {
    hide Reader.UsageOf, FileRows, FirstOf, History.Whole;
    forall name, i | name in final && name != a
      ensures FirstOf(History.Whole(Reader.UsageOf(parse), final, name), i).None?
    {
      NoRowsNoOffers(parse, final, name, i);
    }
  }

  lemma RingIsDetached()
    ensures !OnDrawnCard(RingParse(), RING_FILES, [RING], AGENT_A)
    ensures !EveryResponseDrawn(RingParse(), RING_FILES, [RING])
  {
    OnlyAHasRows();
    hide *;
    RingNodes();
    CallsDiffer();
    PairIsDetached(NodesOf(RingParse(), RING_FILES, RING), "a", "b");
    NotOnDrawn();
    OneNotDrawn(RingParse(), RING_FILES, [RING], AGENT_A);
  }

  lemma CallsDiffer()
    ensures "a" != "b"
  {
    assert "a"[0] != "b"[0];
  }

  lemma OneNotDrawn(parse: Reader.EntryParser, final: History.Files, sessions: seq<Session>, name: string)
    requires name in final && FileRows(parse, final, name) != map[] && !OnDrawnCard(parse, final, sessions, name)
    ensures !EveryResponseDrawn(parse, final, sessions)
  {
    hide FileRows, OnDrawnCard;
  }

  lemma RingNodes()
    ensures var nodes := NodesOf(RingParse(), RING_FILES, RING);
      && |nodes| == 3 && nodes[0].calls == [] && nodes[1].calls == ["b"] && nodes[2].calls == ["a"]
      && nodes[1].toolUseId == Some("a") && nodes[2].toolUseId == Some("b")
      && nodes[0].id == "s" && nodes[1].id == "a" && nodes[2].id == "b"
  {
    RingRead();
    hide RingParse, FactsIn, FileRows;
    var nodes := NodesOf(RingParse(), RING_FILES, RING);
    assert CallsIn(RingParse(), RING_FILES, []) == [];
    assert nodes[0].calls == [] + [];
  }

  lemma NotOnDrawn()
    requires !Rooted(NodesOf(RingParse(), RING_FILES, RING), 1) && !Rooted(NodesOf(RingParse(), RING_FILES, RING), 2)
    ensures !OnDrawnCard(RingParse(), RING_FILES, [RING], AGENT_A)
  {
    NamesDiffer();
    hide Rooted, RingParse, NodesOf;
    assert FilesOf(RING, 0) == [SESSION_FILE];
    assert AGENT_A !in FilesOf(RING, 0);
    forall k, i: nat | 0 <= k < 1 && DrawnIn(RingParse(), RING_FILES, [RING][k], i)
      ensures i == 0
    {
    }
  }

  /** What the scan stores of the ring: what subagent `a` spent, and nothing else. */
  lemma RingScanned(listing: seq<File>)
    requires History.Lists(listing, RING_FILES)
    ensures var rows := ScannedRows(RingParse(), listing);
      && rows.Keys == {Message("m")}
      && rows[Message("m")].branch == Some(BRANCH) && rows[Message("m")].counts.out == 10
  {
    var parse, i := RingParse(), Message("m");
    RingIsPlain();
    OnlyAHasRows();
    hide *;
    RowWithinScanned(parse, RING_FILES, listing, AGENT_A, i);
    forall j | j in ScannedRows(parse, listing)
      ensures j == i
    {
      var name := ScannedBranch(parse, RING_FILES, listing, j);
    }
    var name := ScannedBranch(parse, RING_FILES, listing, i);
    var most := ScannedInSomeFile(parse, RING_FILES, listing, i);
  }

  lemma OnlyAHasRows()
    ensures AGENT_A in RING_FILES && Message("m") in FileRows(RingParse(), RING_FILES, AGENT_A)
    ensures var row := FileRows(RingParse(), RING_FILES, AGENT_A)[Message("m")];
      row.branch == Some(BRANCH) && row.counts.out == 10
    ensures forall name, j :: name in RING_FILES && j in FileRows(RingParse(), RING_FILES, name) ==>
              name == AGENT_A && j == Message("m")
  {
    RowSays();
    RingRead();
    RingNames();
    hide *;
    OneHasRows(RingParse(), RING_FILES, SESSION_FILE, AGENT_A, AGENT_B, Message("m"));
  }

  lemma RowSays()
    ensures RingRow().branch == Some(BRANCH) && RingRow().counts.out == 10
  {
  }

  lemma RingNames()
    ensures RING_FILES.Keys == {SESSION_FILE, AGENT_A, AGENT_B}
  {
  }

  lemma OneHasRows(parse: Reader.EntryParser, final: History.Files, s: string, a: string, b: string, i: Id)
    requires final.Keys == {s, a, b} && FileRows(parse, final, a).Keys == {i}
    requires FileRows(parse, final, s) == map[] == FileRows(parse, final, b)
    ensures forall name, j :: name in final && j in FileRows(parse, final, name) ==> name == a && j == i
  {
    hide FileRows;
  }

  lemma ListedOne(listed: seq<Response>, seen: map<Id, nat>, rows: Rows, i: Id)
    requires Listed(listed, seen, rows) && rows.Keys == {i}
    ensures listed == [rows[i]] && rows[i].id == i
  {
    assert i in seen && listed[seen[i]] == rows[i];
    forall k | 0 <= k < |listed|
      ensures listed[k].id == i && seen[i] == k
    {
      assert listed[k].id in seen.Keys;
    }
    var last := |listed| - 1;
    assert listed[0].id == i && listed[last].id == i;
  }

  lemma BranchNamesSeven()
    ensures IssueOfBranch(BRANCH) == Some(7) && GroupOf(Some(BRANCH)) == Issue(7)
  {
    assert DigitsEnd(BRANCH, 4) == 5;
    assert BRANCH[4..5] == "7" && Decimal("7") == 7;
    assert IssueFrom(BRANCH, 3) == Some(7);
    assert IssueFrom(BRANCH, 2) == Some(7);
    assert IssueFrom(BRANCH, 1) == Some(7);
    assert |BRANCH| == 7 && BRANCH[0] == 'f';
    assert BRANCH != "develop" by {
      assert "develop"[0] == 'd';
    }
  }

  /**
    The claim fails here: two subagents each started by the other's call are on no drawn card,
    so what one of them spent the Usage page shows and the Sessions page does not.
    */
  lemma RingTotalsDiffer(roots: seq<Card>, listing: seq<File>, listed: seq<Response>,
                         groups: seq<SessionGroup>, byIssue: map<nat, Spend>, off: Unattributed)
    requires BothPages(RingParse(), RING_FILES, [RING], roots, listing, listed, groups, byIssue, off)
    ensures UsageFigure(byIssue, 7) == 10 && GroupFigure(groups, 7) == 0
  {
    var parse, i := RingParse(), Message("m");
    RingIsPlain();
    OneFileIsOneGroup(parse, RING_FILES);
    RingScanned(listing);
    BranchNamesSeven();
    TotalsDifferByUndrawn(parse, RING_FILES, [RING], roots, listing, listed, groups, byIssue, off, 7);
    var drawn := UpsertAll(map[], ResponsesOf(roots));
    if i in drawn {
      RingNotDrawn(roots, i);
      assert false;
    }
    hide *;
    var trees, seen := PagesRead(parse, RING_FILES, [RING], roots, listing, listed, groups, byIssue, off);
    ListedOne(listed, seen, ScannedRows(parse, listing), i);
    FigureIsGroupSum(listed, byIssue, off, 7);
    OneSum(listed[0], drawn, 7);
  }

  lemma OneSum(r: Response, drawn: Rows, n: nat)
    requires GroupOf(r.branch) == Issue(n) && r.id !in drawn
    ensures GroupSum([r], Issue(n)) == r.counts.out == UndrawnOut([r], drawn, n)
  {
    hide GroupOf;
    assert [r][..0] == [];
  }

  /** No card drawn holds what `a` spent. */
  lemma RingNotDrawn(roots: seq<Card>, i: Id)
    requires CardsHold(roots, RingParse(), DrawnPart(RingParse(), RING_FILES, [RING]))
    ensures i !in UpsertAll(map[], ResponsesOf(roots))
  {
    RingRead();
    RingIsDetached();
    hide UpsertAll, ResponsesOf, RingParse, OnDrawnCard, FileRows, CardsHold, RingRow, PartOf;
    var part := DrawnPart(RingParse(), RING_FILES, [RING]);
    DrawnPartIsPart(RingParse(), RING_FILES, [RING]);
    if i in UpsertAll(map[], ResponsesOf(roots)) {
      var name := CardsBranch(RingParse(), part, roots, i);
      SameInPart(RingParse(), part, RING_FILES, name);
      assert false;
    }
  }

  /** And such a reading there is. */
  lemma RingDrawn() returns (roots: seq<Card>, trees: seq<Tree>)
    ensures IsForest(RingParse(), RING_FILES, [RING], trees, roots) && DistinctRefs(Preorder(roots))
  {
    var t := Tree([Card(0, "s", None, [], []), Card(1, "a", Some(BRANCH), [RingRow()], []),
                   Card(2, "b", Some(BRANCH), [], [])], [[], [2], [1]]);
    RingIsTree(t);
    RefsApart(t);
    hide *;
    trees, roots := [t], [RootOf(RingParse(), RING_FILES, RING, t)];
    OneSession(RingParse(), RING_FILES, RING, t);
    CardsAreApart(RingParse(), RING_FILES, [RING], trees, roots);
  }

  lemma OneSession(parse: Reader.EntryParser, final: History.Files, s: Session, t: Tree)
    requires IsTree(parse, final, s, t)
    ensures IsForest(parse, final, [s], [t], [RootOf(parse, final, s, t)])
  {
    hide IsTree, RootOf;
  }

  lemma RefsApart(t: Tree)
    requires |t.leaves| == 3 && forall i :: 0 <= i < 3 ==> t.leaves[i].ref == i
    ensures ApartLeaves([t])
  {
  }

  lemma RingIsTree(t: Tree)
    requires t == Tree([Card(0, "s", None, [], []), Card(1, "a", Some(BRANCH), [RingRow()], []),
                        Card(2, "b", Some(BRANCH), [], [])], [[], [2], [1]])
    ensures IsTree(RingParse(), RING_FILES, RING, t)
  {
    var nodes := NodesOf(RingParse(), RING_FILES, RING);
    RingNodes();
    RingRead();
    PairIsDetached(nodes, "a", "b");
    PairIsArranged(nodes);
    RingHolds();
    hide RingParse, FactsIn, FileRows, RingRow, Arranged, NodesOf, KeptIn, Rooted, Parent;
    RingLeaves(t);
  }

  lemma RingLeaves(t: Tree)
    requires t == Tree([Card(0, "s", None, [], []), Card(1, "a", Some(BRANCH), [RingRow()], []),
                        Card(2, "b", Some(BRANCH), [], [])], [[], [2], [1]])
    ensures forall i: nat :: i <= 2 ==> IsLeaf(RingParse(), RING_FILES, RING, i, t.leaves[i])
  {
    RingNodes();
    RingRead();
    RingHolds();
    hide RingParse, FactsIn, FileRows, RingRow, NodesOf, KeptIn;
    assert FilesOf(RING, 0)[0] == SESSION_FILE;
    assert IsLeaf(RingParse(), RING_FILES, RING, 0, t.leaves[0]);
    assert IsLeaf(RingParse(), RING_FILES, RING, 1, t.leaves[1]);
    assert IsLeaf(RingParse(), RING_FILES, RING, 2, t.leaves[2]);
  }

  lemma PairIsArranged(nodes: seq<Node>)
    requires |nodes| == 3 && Parent(nodes, 1) == 2 && Parent(nodes, 2) == 1
    ensures Arranged(nodes, [[], [2], [1]])
  {
    hide Parent;
  }

  lemma KeptInOne(parse: Reader.EntryParser, final: History.Files, name: string, r: Response)
    requires name in final
    ensures KeptIn(parse, final, [name], r) <==> r in FileRows(parse, final, name).Values
  {
    hide FileRows;
    assert name in [name];
  }

  lemma RingHolds()
    ensures forall r :: !KeptIn(RingParse(), RING_FILES, FilesOf(RING, 0), r)
    ensures forall r :: KeptIn(RingParse(), RING_FILES, FilesOf(RING, 1), r) <==> r in [RingRow()]
    ensures forall r :: !KeptIn(RingParse(), RING_FILES, FilesOf(RING, 2), r)
  {
    RingRead();
    RingNames();
    RingFilesOf();
    hide *;
    KeptInSome(RingParse(), RING_FILES, SESSION_FILE, AGENT_A, AGENT_B, Message("m"), RingRow());
  }

  lemma RingFilesOf()
    ensures FilesOf(RING, 0) == [SESSION_FILE] && FilesOf(RING, 1) == [AGENT_A] && FilesOf(RING, 2) == [AGENT_B]
  {
  }

  lemma KeptInSome(parse: Reader.EntryParser, final: History.Files, s: string, a: string, b: string, i: Id,
                   row: Response)
    requires final.Keys == {s, a, b} && FileRows(parse, final, a) == map[i := row]
    requires FileRows(parse, final, s) == map[] == FileRows(parse, final, b)
    ensures forall r :: !KeptIn(parse, final, [s], r) && !KeptIn(parse, final, [b], r)
    ensures forall r :: KeptIn(parse, final, [a], r) <==> r in [row]
  {
    hide FileRows, KeptIn;
    assert i in map[i := row];
    forall r
      ensures !KeptIn(parse, final, [s], r) && !KeptIn(parse, final, [b], r)
      ensures KeptIn(parse, final, [a], r) <==> r in [row]
    {
      KeptInOne(parse, final, s, r);
      KeptInOne(parse, final, a, r);
      KeptInOne(parse, final, b, r);
    }
  }
}
