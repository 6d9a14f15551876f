/**
  One response in two transcripts, on the branches of two issues: a reading in which everything
  is on a drawn card and each page counts the response for the branch of the copy it reads first.
  */
module TwoBranches {
  import opened Options
  import opened Responses
  import opened Transcripts
  import opened Tally
  import opened SessionGroups
  import opened SessionTree
  import opened CardForest
  import opened PageTotals
  import History = UsageHistory
  import Reader = SessionsReader

  const OTHER_FILE := "t.jsonl"
  const OTHER_BRANCH := "fix/8-x"

  /** Both files' one line is a copy of the response, on a branch of its own. */
  function TwinParse(): Reader.EntryParser {
    (text: Bytes) =>
      if text == [97] then Calling("x", BRANCH, Some(Reader.Usage(0, 0, 0, 10)))
      else if text == [98] then Calling("x", OTHER_BRANCH, Some(Reader.Usage(0, 0, 0, 10)))
      else Reader.Bad
  }

  const TWIN_FILES: History.Files := map[SESSION_FILE := [97], OTHER_FILE := [98]]

  const FIRST := Session("s", SESSION_FILE, 0, [], [])
  const SECOND := Session("t", OTHER_FILE, 0, [], [])

  function Copy(branch: string, file: string): Response {
    Response(Message("m"), None, Some(branch), None, Counts(10, 0, Some(10)), Some(file))
  }

  lemma CopyIs(branch: string, file: string)
    ensures var r := Copy(branch, file); r.id == Message("m") && r.branch == Some(branch) && r.counts.out == 10
  {
  }

  lemma TwinsDiffer()
    ensures SESSION_FILE != OTHER_FILE && TWIN_FILES.Keys == {SESSION_FILE, OTHER_FILE}
    ensures TWIN_FILES[SESSION_FILE] == [97] && TWIN_FILES[OTHER_FILE] == [98]
  {
    assert SESSION_FILE[0] == 's' && OTHER_FILE[0] == 't';
  }

  lemma FirstRead()
    ensures FileRows(TwinParse(), TWIN_FILES, SESSION_FILE) == map[Message("m") := Copy(BRANCH, SESSION_FILE)]
  {
    TwinsDiffer();
    OneCall(TwinParse(), SESSION_FILE, [97], "x", BRANCH, Some(Reader.Usage(0, 0, 0, 10)));
    hide Reader.WholeFacts, Calling, TwinParse;
  }

  lemma SecondRead()
    ensures FileRows(TwinParse(), TWIN_FILES, OTHER_FILE) == map[Message("m") := Copy(OTHER_BRANCH, OTHER_FILE)]
  {
    TwinsDiffer();
    OneCall(TwinParse(), OTHER_FILE, [98], "x", OTHER_BRANCH, Some(Reader.Usage(0, 0, 0, 10)));
    hide Reader.WholeFacts, Calling, TwinParse;
  }

  /** What each file keeps: one row, of one id, with ten of output. */
  lemma RowsOfTwins(name: string)
    requires name in TWIN_FILES
    ensures FileRows(TwinParse(), TWIN_FILES, name).Keys == {Message("m")}
    ensures var row := FileRows(TwinParse(), TWIN_FILES, name)[Message("m")];
      row == Copy(if name == SESSION_FILE then BRANCH else OTHER_BRANCH, name) && row.counts.out == 10
  {
    TwinsDiffer();
    FirstRead();
    SecondRead();
    hide FileRows;
  }

  // ------------------------------------------------------------------ what the Usage page counts

  /** What the first file listed has, the scan offers first as that file does. */
  lemma {:induction false} ScanFirstFile(p: Parser, final: History.Files, dir: seq<File>, i: Id)
    requires dir != [] && dir[0].name in final && dir[0].content == final[dir[0].name]
    requires FirstOf(History.Whole(p, final, dir[0].name), i).Some?
    ensures FirstOf(ScanOffers(p, dir, map[]), i) == FirstOf(History.Whole(p, final, dir[0].name), i)
  {
    hide FileOffers, Offers, FirstOf;
    var front, f := dir[..|dir| - 1], dir[|dir| - 1];
    FirstOfConcat(ScanOffers(p, front, map[]), FileOffers(p, f, None), i);
    WholeIsRead(p, f);
    if |dir| > 1 {
      ScanFirstFile(p, final, front, i);
    } else {
      NothingFirst(i);
    }
  }

  lemma NothingFirst(i: Id)
    ensures FirstOf([], i).None?
  {
  }

  /** A response of the first file listed is stored under that file's branch. */
  lemma ScannedAsFirstFile(parse: Reader.EntryParser, final: History.Files, listing: seq<File>, i: Id)
    requires History.Lists(listing, final) && listing != []
    requires listing[0].name in final && i in FileRows(parse, final, listing[0].name)
    ensures i in ScannedRows(parse, listing)
    ensures ScannedRows(parse, listing)[i].branch == FileRows(parse, final, listing[0].name)[i].branch
  {
    hide Reader.UsageOf, UpsertAll, FileRows, ScanOffers, FirstOf, FirstWindow, History.Whole;
    var p, name := Reader.UsageOf(parse), listing[0].name;
    NothingIsLargest();
    FileRowIs(parse, final, name, i);
    ScanFirstFile(p, final, listing, i);
    KeptFromFirst(map[], ScanOffers(p, listing, map[]), i);
  }

  lemma TwinScanned(listing: seq<File>)
    requires History.Lists(listing, TWIN_FILES) && listing != [] && listing[0].name == OTHER_FILE
    ensures var rows := ScannedRows(TwinParse(), listing);
      rows.Keys == {Message("m")} && rows[Message("m")].branch == Some(OTHER_BRANCH)
  {
    hide *;
    TwinsDiffer();
    RowsOfTwins(OTHER_FILE);
    CopyIs(OTHER_BRANCH, OTHER_FILE);
    ScannedAsFirstFile(TwinParse(), TWIN_FILES, listing, Message("m"));
    forall i | i in ScannedRows(TwinParse(), listing)
      ensures i == Message("m")
    {
      var name := ScannedBranch(TwinParse(), TWIN_FILES, listing, i);
      RowsOfTwins(name);
    }
  }

  // ------------------------------------------------------------------ what the Sessions page counts

  /** The first session's card holds its own copy, and nothing else. */
  lemma FirstHolds(t: Tree, r: Response)
    requires IsTree(TwinParse(), TWIN_FILES, FIRST, t)
    ensures r in ResponsesOf([RootOf(TwinParse(), TWIN_FILES, FIRST, t)]) <==> r == Copy(BRANCH, SESSION_FILE)
  {
    TwinsDiffer();
    FirstRead();
    assert FilesOf(FIRST, 0) == [SESSION_FILE] && |FIRST.metas| == 0;
    OwnCard(TwinParse(), TWIN_FILES, FIRST);
    hide *;
    RootHolds(TwinParse(), TWIN_FILES, FIRST, t, r);
    KeptInOne(TwinParse(), TWIN_FILES, SESSION_FILE, r);
    OneValue(Message("m"), Copy(BRANCH, SESSION_FILE), r);
  }

  lemma OneValue(i: Id, row: Response, r: Response)
    ensures r in map[i := row].Values <==> r == row
  {
    assert i in map[i := row];
  }

  lemma OwnCard(parse: Reader.EntryParser, final: History.Files, s: Session)
    requires s.metas == []
    ensures forall i: nat :: DrawnIn(parse, final, s, i) <==> i == 0
  {
    assert IsDepth(NodesOf(parse, final, s), 0, 0);
  }

  lemma CopyFirst(rs: seq<Response>, r: Response)
    requires forall x :: x in rs <==> x == r
    ensures FirstOf(rs, r.id) == Some(r)
  {
    assert r in rs;
    assert rs[0] in rs;
  }

  lemma TwinFirst(trees: seq<Tree>, roots: seq<Card>)
    requires IsForest(TwinParse(), TWIN_FILES, [FIRST, SECOND], trees, roots)
    ensures FirstOf(ResponsesOf(roots), Message("m")) == Some(Copy(BRANCH, SESSION_FILE))
  {
    assert IsTree(TwinParse(), TWIN_FILES, FIRST, trees[0])
        && roots[0] == RootOf(TwinParse(), TWIN_FILES, FIRST, trees[0]) by {
      hide IsTree, RootOf;
      assert [FIRST, SECOND][0] == FIRST;
    }
    hide *;
    forall r
      ensures r in ResponsesOf([roots[0]]) <==> r == Copy(BRANCH, SESSION_FILE)
    {
      FirstHolds(trees[0], r);
    }
    CopyIs(BRANCH, SESSION_FILE);
    CopyFirst(ResponsesOf([roots[0]]), Copy(BRANCH, SESSION_FILE));
    ResponsesConcat([roots[0]], roots[1..]);
    assert roots == [roots[0]] + roots[1..];
    FirstOfConcat(ResponsesOf([roots[0]]), ResponsesOf(roots[1..]), Message("m"));
  }

  /** The cards fold to the first session's copy. */
  lemma TwinCredited(trees: seq<Tree>, roots: seq<Card>)
    requires IsForest(TwinParse(), TWIN_FILES, [FIRST, SECOND], trees, roots)
    ensures var drawn := UpsertAll(map[], ResponsesOf(roots));
      && drawn.Keys == {Message("m")} && drawn[Message("m")].branch == Some(BRANCH)
      && drawn[Message("m")].counts.out == 10
    ensures CardsHold(roots, TwinParse(), DrawnPart(TwinParse(), TWIN_FILES, [FIRST, SECOND]))
  {
    hide *;
    var parse, i, drawn := TwinParse(), Message("m"), UpsertAll(map[], ResponsesOf(roots));
    var part := DrawnPart(parse, TWIN_FILES, [FIRST, SECOND]);
    DrawnPartIsPart(parse, TWIN_FILES, [FIRST, SECOND]);
    CardsHoldDrawnPart(parse, TWIN_FILES, [FIRST, SECOND], trees, roots);
    TwinFirst(trees, roots);
    CopyIs(BRANCH, SESSION_FILE);
    NothingIsLargest();
    KeptFromFirst(map[], ResponsesOf(roots), i);
    SameBranch(drawn[i], Copy(BRANCH, SESSION_FILE));
    forall j | j in drawn
      ensures j == i && drawn[j].counts.out == 10
    {
      var name := CardsInSomeFile(parse, part, roots, j);
      SameInPart(parse, part, TWIN_FILES, name);
      InTwins(part, name);
      RowsOfTwins(name);
    }
  }

  lemma SameBranch(a: Response, b: Response)
    requires Origin(a) == Origin(b)
    ensures a.branch == b.branch
  {
  }

  lemma InTwins(part: History.Files, name: string)
    requires PartOf(part, TWIN_FILES) && name in part
    ensures name in TWIN_FILES
  {
  }

  lemma BranchNamesEight()
    ensures GroupOf(Some(OTHER_BRANCH)) == Issue(8)
  {
    assert DigitsEnd(OTHER_BRANCH, 4) == 5;
    assert OTHER_BRANCH[4..5] == "8" && Decimal("8") == 8;
    assert IssueFrom(OTHER_BRANCH, 3) == Some(8);
    assert IssueFrom(OTHER_BRANCH, 2) == Some(8);
    assert IssueFrom(OTHER_BRANCH, 1) == Some(8);
    assert |OTHER_BRANCH| == 7 && OTHER_BRANCH[0] == 'f';
    assert OTHER_BRANCH != "develop" by {
      assert "develop"[0] == 'd';
    }
  }

  lemma OneRowSum(r: Response, key: Group)
    ensures GroupSum([r], key) == if GroupOf(r.branch) == key then r.counts.out else 0
  {
    hide GroupOf;
    assert [r][..0] == [];
  }

  /**
    Nothing is hidden, and yet with the second file listed first and the first session drawn
    first the Sessions page shows the response under one issue and the Usage page under another.
    */
  lemma TwinTotalsDiffer(roots: seq<Card>, listing: seq<File>, listed: seq<Response>,
                         groups: seq<SessionGroup>, byIssue: map<nat, Spend>, off: Unattributed)
    requires BothPages(TwinParse(), TWIN_FILES, [FIRST, SECOND], roots, listing, listed, groups, byIssue, off)
    requires listing != [] && listing[0].name == OTHER_FILE
    ensures UsageFigure(byIssue, 7) == 0 && GroupFigure(groups, 7) == 10
  {
    hide *;
    var i := Message("m");
    var parse, sessions := TwinParse(), [FIRST, SECOND];
    var trees, seen := PagesRead(parse, TWIN_FILES, sessions, roots, listing, listed, groups, byIssue, off);
    BranchNamesSeven();
    BranchNamesEight();
    TwinScanned(listing);
    ListedOne(listed, seen, ScannedRows(parse, listing), i);
    FigureIsGroupSum(listed, byIssue, off, 7);
    OneRowSum(listed[0], Issue(7));
    TwinCredited(trees, roots);
    CreditedFromCards(parse, DrawnPart(parse, TWIN_FILES, sessions), roots);
    var c := CreditCards(NO_CREDITS, roots);
    ListedOne(c.folded, c.index, UpsertAll(map[], ResponsesOf(roots)), i);
    GroupFigureIsSum(groups, c, 7);
    OneRowSum(c.folded[0], Issue(7));
  }

  /** A session without subagents, drawn with the one response of its transcript. */
  lemma LoneTree(parse: Reader.EntryParser, final: History.Files, s: Session, ref: nat, row: Response)
    requires s.metas == [] && s.loose == [] && s.file in final
    requires FileRows(parse, final, s.file) == map[row.id := row] && FactsIn(parse, final, s.file).branch == row.branch
    ensures IsTree(parse, final, s, Tree([Card(ref, s.id, row.branch, [row], [])], [[]]))
  {
    var nodes := NodesOf(parse, final, s);
    assert nodes[0] == RootNode(parse, final, s);
    assert FilesOf(s, 0) == [s.file];
    assert Arranged(nodes, [[]]);
    hide FileRows, KeptIn, FactsIn, CallsIn;
    forall r
      ensures r in [row] <==> KeptIn(parse, final, FilesOf(s, 0), r)
    {
      KeptInOne(parse, final, s.file, r);
      OneValue(row.id, row, r);
    }
  }

  lemma OnOwnCard(parse: Reader.EntryParser, final: History.Files, sessions: seq<Session>, k: nat)
    requires k < |sessions|
    ensures OnDrawnCard(parse, final, sessions, sessions[k].file)
  {
    assert IsDepth(NodesOf(parse, final, sessions[k]), 0, 0);
    assert DrawnIn(parse, final, sessions[k], 0) && sessions[k].file in FilesOf(sessions[k], 0);
  }

  lemma BranchesRead()
    ensures FactsIn(TwinParse(), TWIN_FILES, SESSION_FILE).branch == Some(BRANCH)
    ensures FactsIn(TwinParse(), TWIN_FILES, OTHER_FILE).branch == Some(OTHER_BRANCH)
  {
    TwinsDiffer();
    OneCall(TwinParse(), SESSION_FILE, [97], "x", BRANCH, Some(Reader.Usage(0, 0, 0, 10)));
    OneCall(TwinParse(), OTHER_FILE, [98], "x", OTHER_BRANCH, Some(Reader.Usage(0, 0, 0, 10)));
    hide Reader.WholeFacts, Calling, TwinParse;
  }

  /** The session's tree, its file's copy on its one card. */
  function LoneOf(s: Session, ref: nat, branch: string): Tree {
    Tree([Card(ref, s.id, Some(branch), [Copy(branch, s.file)], [])], [[]])
  }

  lemma FirstIsTree()
    ensures IsTree(TwinParse(), TWIN_FILES, FIRST, LoneOf(FIRST, 0, BRANCH))
    ensures SESSION_FILE in TWIN_FILES && FIRST.file == SESSION_FILE
  {
    TwinsDiffer();
    FirstRead();
    BranchesRead();
    CopyIs(BRANCH, SESSION_FILE);
    hide FileRows, FactsIn, TwinParse, Copy, IsTree;
    LoneTree(TwinParse(), TWIN_FILES, FIRST, 0, Copy(BRANCH, SESSION_FILE));
  }

  lemma SecondIsTree()
    ensures IsTree(TwinParse(), TWIN_FILES, SECOND, LoneOf(SECOND, 1, OTHER_BRANCH))
    ensures OTHER_FILE in TWIN_FILES && SECOND.file == OTHER_FILE
  {
    TwinsDiffer();
    SecondRead();
    BranchesRead();
    CopyIs(OTHER_BRANCH, OTHER_FILE);
    hide FileRows, FactsIn, TwinParse, Copy, IsTree;
    LoneTree(TwinParse(), TWIN_FILES, SECOND, 1, Copy(OTHER_BRANCH, OTHER_FILE));
  }

  lemma TwoSessions(parse: Reader.EntryParser, final: History.Files, s: Session, t: Session, a: Tree, b: Tree)
    requires IsTree(parse, final, s, a) && IsTree(parse, final, t, b)
    ensures IsForest(parse, final, [s, t], [a, b], [RootOf(parse, final, s, a), RootOf(parse, final, t, b)])
  {
    hide IsTree, RootOf;
  }

  lemma BothOnOwnCards(parse: Reader.EntryParser, final: History.Files, s: Session, t: Session)
    requires final.Keys == {s.file, t.file}
    ensures EveryResponseDrawn(parse, final, [s, t])
  {
    hide OnDrawnCard, FileRows;
    OnOwnCard(parse, final, [s, t], 0);
    OnOwnCard(parse, final, [s, t], 1);
  }

  lemma TwoRefs()
    ensures ApartLeaves([LoneOf(FIRST, 0, BRANCH), LoneOf(SECOND, 1, OTHER_BRANCH)])
  {
  }

  /** And such a reading there is, with every response on a drawn card. */
  lemma TwinsDrawn() returns (roots: seq<Card>, trees: seq<Tree>)
    ensures IsForest(TwinParse(), TWIN_FILES, [FIRST, SECOND], trees, roots)
    ensures EveryResponseDrawn(TwinParse(), TWIN_FILES, [FIRST, SECOND]) && DistinctRefs(Preorder(roots))
  {
    TwoRefs();
    hide *;
    var parse, a, b := TwinParse(), LoneOf(FIRST, 0, BRANCH), LoneOf(SECOND, 1, OTHER_BRANCH);
    TwinsDiffer();
    FirstIsTree();
    SecondIsTree();
    trees, roots := [a, b], [RootOf(parse, TWIN_FILES, FIRST, a), RootOf(parse, TWIN_FILES, SECOND, b)];
    TwoSessions(parse, TWIN_FILES, FIRST, SECOND, a, b);
    BothOnOwnCards(parse, TWIN_FILES, FIRST, SECOND);
    CardsAreApart(parse, TWIN_FILES, [FIRST, SECOND], trees, roots);
  }
}
