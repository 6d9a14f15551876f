/**
  A transcript directory as the two pages find it: which files the Usage scan reads, which
  sessions the Sessions page makes of them, and which of those files no session holds.
  */
module Directory {
  import opened Options
  import opened Responses
  import opened Transcripts
  import opened Tally
  import opened SessionGroups
  import opened SessionTree
  import opened CardForest
  import opened PageTotals
  import History = UsageHistory
  import Reader = SessionsReader

  const TRANSCRIPT_SUFFIX := ".jsonl"
  const META_PREFIX := "agent-"
  const META_SUFFIX := ".meta.json"
  const SUBAGENTS := "/subagents/"

  /**
    A file and when it was written, or a folder with the names of the files in its `subagents`
    folder, sorted, when it has one.
    */
  datatype Item = FileItem(name: string, writtenMs: int) | FolderItem(name: string, inner: Option<seq<string>>)

  /** What a usable meta file says, and when it or the transcript beside it was last written. */
  datatype Said = Said(toolUseId: Option<Call>, finished: bool, writtenMs: int)

  /** The meta files that can be used, by path. */
  type Metas = map<string, Said>

  predicate Ends(name: string, suffix: string) {
    |suffix| <= |name| && name[|name| - |suffix|..] == suffix
  }

  predicate IsTranscript(name: string) {
    Ends(name, TRANSCRIPT_SUFFIX)
  }

  function Without(name: string, suffix: string): string
    requires Ends(name, suffix)
  {
    name[..|name| - |suffix|]
  }

  function Path(folder: string, name: string): string {
    folder + SUBAGENTS + name
  }

  predicate EndsLine(c: char) {
    c == '\n' || c == '\r' || c == '\U{2028}' || c == '\U{2029}'
  }

  /** The subagent a file's name says it is the meta file of. */
  function AgentOf(name: string): Option<string> {
    if |META_PREFIX| + |META_SUFFIX| < |name| && META_PREFIX <= name && Ends(name, META_SUFFIX)
       && forall k :: |META_PREFIX| <= k < |name| - |META_SUFFIX| ==> !EndsLine(name[k])
    then Some(Without(name, META_SUFFIX)[|META_PREFIX|..])
    else None
  }

  /** The names are a file system's: each once in its folder, and none with a slash in it. */
  ghost predicate Plain(dir: seq<Item>) {
    && (forall j, k :: 0 <= j < k < |dir| ==> dir[j].name != dir[k].name)
    && (forall e :: e in dir ==> '/' !in e.name)
    && (forall e :: e in dir && e.FolderItem? && e.inner.Some? ==>
          (forall n :: n in e.inner.value ==> '/' !in n) && NamesApart(e.inner.value))
  }

  ghost predicate NamesApart(names: seq<string>) {
    forall j, k :: 0 <= j < k < |names| ==> names[j] != names[k]
  }

  // ------------------------------------------------------------------ what the Usage scan reads

  function TranscriptsAmong(folder: string, names: seq<string>): seq<string> {
    if names == [] then []
    else
      TranscriptsAmong(folder, names[..|names| - 1])
      + if IsTranscript(names[|names| - 1]) then [Path(folder, names[|names| - 1])] else []
  }

  function TranscriptsAt(e: Item): seq<string> {
    if e.FileItem? then if IsTranscript(e.name) then [e.name] else []
    else if e.inner.Some? then TranscriptsAmong(e.name, e.inner.value)
    else []
  }

  function TranscriptsIn(dir: seq<Item>): seq<string> {
    if dir == [] then [] else TranscriptsIn(dir[..|dir| - 1]) + TranscriptsAt(dir[|dir| - 1])
  }

  method ListTranscripts(dir: seq<Item>) returns (files: seq<string>)
    ensures files == TranscriptsIn(dir)
  {
    files := [];
    assert dir[..0] == [];
    for i := 0 to |dir|
      invariant files == TranscriptsIn(dir[..i])
    {
      assert dir[..i + 1][..i] == dir[..i];
      var e := dir[i];
      if e.FileItem? && IsTranscript(e.name) {
        files := files + [e.name];
      } else if e.FolderItem? && e.inner.Some? {
        var names := e.inner.value;
        assert names[..0] == [];
        for j := 0 to |names|
          invariant files == TranscriptsIn(dir[..i]) + TranscriptsAmong(e.name, names[..j])
        {
          assert names[..j + 1][..j] == names[..j];
          if IsTranscript(names[j]) {
            files := files + [Path(e.name, names[j])];
          }
        }
        assert names[..|names|] == names;
      }
    }
    assert dir[..|dir|] == dir;
  }

  lemma {:induction false} AmongIs(folder: string, names: seq<string>, name: string)
    ensures name in TranscriptsAmong(folder, names)
       <==> exists n :: n in names && IsTranscript(n) && name == Path(folder, n)
  {
    if names != [] {
      hide Path, IsTranscript;
      var front, last := names[..|names| - 1], names[|names| - 1];
      assert names == front + [last];
      AmongIs(folder, front, name);
    }
  }

  /** The scan reads just the transcripts at the top and in `subagents` folders. */
  lemma {:induction false} ListedIs(dir: seq<Item>, name: string)
    ensures name in TranscriptsIn(dir) <==> exists e :: e in dir && name in TranscriptsAt(e)
  {
    if dir != [] {
      hide TranscriptsAt;
      var front, last := dir[..|dir| - 1], dir[|dir| - 1];
      assert dir == front + [last];
      ListedIs(front, name);
    }
  }

  // ------------------------------------------------------------------ what the Sessions page reads

  /** The folder beside a session's transcript, which is also the session's id. */
  function FolderOf(file: string): string
    requires IsTranscript(file)
  {
    Without(file, TRANSCRIPT_SUFFIX)
  }

  predicate Usable(folder: string, name: string, metas: Metas) {
    AgentOf(name).Some? && Path(folder, name) in metas
  }

  /** The transcript beside a meta file. */
  function Beside(name: string): string
    requires AgentOf(name).Some?
  {
    Without(name, META_SUFFIX) + TRANSCRIPT_SUFFIX
  }

  function MetaOf(folder: string, name: string, metas: Metas): Meta
    requires Usable(folder, name, metas)
  {
    var said := metas[Path(folder, name)];
    Meta(AgentOf(name).value, said.toolUseId, Path(folder, Beside(name)), said.finished, said.writtenMs)
  }

  function MetasAmong(folder: string, names: seq<string>, metas: Metas): seq<Meta> {
    if names == [] then []
    else
      var last := names[|names| - 1];
      MetasAmong(folder, names[..|names| - 1], metas)
      + if Usable(folder, last, metas) then [MetaOf(folder, last, metas)] else []
  }

  function Claimed(folder: string, names: seq<string>, metas: Metas): set<string> {
    set n | n in names && Usable(folder, n, metas) :: Beside(n)
  }

  function LooseAmong(folder: string, names: seq<string>, claimed: set<string>): seq<string> {
    if names == [] then []
    else
      var last := names[|names| - 1];
      LooseAmong(folder, names[..|names| - 1], claimed)
      + if IsTranscript(last) && last !in claimed then [Path(folder, last)] else []
  }

  function InnerOf(dir: seq<Item>, folder: string): seq<string> {
    if dir == [] then []
    else if dir[0].FolderItem? && dir[0].name == folder && dir[0].inner.Some? then dir[0].inner.value
    else InnerOf(dir[1..], folder)
  }

  function SessionOf(dir: seq<Item>, e: Item, metas: Metas): Session
    requires e.FileItem? && IsTranscript(e.name)
  {
    var id := FolderOf(e.name);
    var names := InnerOf(dir, id);
    Session(id, e.name, e.writtenMs, MetasAmong(id, names, metas), LooseAmong(id, names, Claimed(id, names, metas)))
  }

  /** The sessions of the transcripts among `items`, each with what its folder in `dir` holds. */
  function SessionsAmong(dir: seq<Item>, items: seq<Item>, metas: Metas): seq<Session> {
    if items == [] then []
    else
      var last := items[|items| - 1];
      SessionsAmong(dir, items[..|items| - 1], metas)
      + if last.FileItem? && IsTranscript(last.name) then [SessionOf(dir, last, metas)] else []
  }

  /** One pass for the subagents with a usable meta file, and one for the transcripts left over. */
  method ReadSubagents(folder: string, names: seq<string>, metas: Metas)
    returns (agents: seq<Meta>, loose: seq<string>)
    ensures agents == MetasAmong(folder, names, metas)
    ensures loose == LooseAmong(folder, names, Claimed(folder, names, metas))
  {
    hide Path, IsTranscript, AgentOf, Beside;
    agents, loose := [], [];
    var claimed := {};
    assert names[..0] == [] && names[..|names|] == names;
    for i := 0 to |names|
      invariant agents == MetasAmong(folder, names[..i], metas)
      invariant claimed == Claimed(folder, names[..i], metas)
    {
      assert names[..i + 1][..i] == names[..i] && names[..i + 1] == names[..i] + [names[i]];
      if Usable(folder, names[i], metas) {
        claimed := claimed + {Beside(names[i])};
        agents := agents + [MetaOf(folder, names[i], metas)];
      }
    }
    for i := 0 to |names|
      invariant loose == LooseAmong(folder, names[..i], claimed)
    {
      assert names[..i + 1][..i] == names[..i];
      if IsTranscript(names[i]) && names[i] !in claimed {
        loose := loose + [Path(folder, names[i])];
      }
    }
  }

  method ReadSessions(dir: seq<Item>, metas: Metas) returns (sessions: seq<Session>)
    ensures sessions == SessionsAmong(dir, dir, metas)
  {
    sessions := [];
    assert dir[..0] == [] && dir[..|dir|] == dir;
    for i := 0 to |dir|
      invariant sessions == SessionsAmong(dir, dir[..i], metas)
    {
      assert dir[..i + 1][..i] == dir[..i];
      if dir[i].FileItem? && IsTranscript(dir[i].name) {
        var id := FolderOf(dir[i].name);
        var agents, loose := ReadSubagents(id, InnerOf(dir, id), metas);
        sessions := sessions + [Session(id, dir[i].name, dir[i].writtenMs, agents, loose)];
      }
    }
  }

  // ------------------------------------------------------------------ which session holds a file

  /** A session's transcript, or a subagent's of a session whose transcript is there. */
  ghost predicate HasSession(dir: seq<Item>, name: string) {
    exists e :: e in dir && e.FileItem? && IsTranscript(e.name)
             && (name == e.name || exists n :: name == Path(FolderOf(e.name), n))
  }

  lemma {:induction false} SessionsAre(dir: seq<Item>, items: seq<Item>, metas: Metas, s: Session)
    ensures s in SessionsAmong(dir, items, metas)
       <==> exists e :: e in items && e.FileItem? && IsTranscript(e.name) && s == SessionOf(dir, e, metas)
  {
    if items != [] {
      hide IsTranscript, SessionOf;
      var front, last := items[..|items| - 1], items[|items| - 1];
      assert items == front + [last];
      SessionsAre(dir, front, metas, s);
    }
  }

  lemma {:induction false} LooseAre(folder: string, names: seq<string>, claimed: set<string>, name: string)
    ensures name in LooseAmong(folder, names, claimed)
       <==> exists n :: n in names && IsTranscript(n) && n !in claimed && name == Path(folder, n)
  {
    if names != [] {
      hide Path, IsTranscript;
      var front, last := names[..|names| - 1], names[|names| - 1];
      assert names == front + [last];
      LooseAre(folder, front, claimed, name);
    }
  }

  lemma {:induction false} MetasAre(folder: string, names: seq<string>, metas: Metas, m: Meta)
    ensures m in MetasAmong(folder, names, metas)
       <==> exists n :: n in names && Usable(folder, n, metas) && m == MetaOf(folder, n, metas)
  {
    if names != [] {
      hide Usable, MetaOf;
      var front, last := names[..|names| - 1], names[|names| - 1];
      assert names == front + [last];
      MetasAre(folder, front, metas, m);
    }
  }

  /** Names without a slash make a path in one way. */
  lemma PathsDiffer(a: string, x: string, b: string, y: string)
    requires '/' !in a && '/' !in b && Path(a, x) == Path(b, y)
    ensures a == b && x == y
  {
    var p := Path(a, x);
    assert p[|a|] == '/' == p[|b|] by {
      assert p == a + (SUBAGENTS + x) && p == b + (SUBAGENTS + y);
    }
    assert |a| == |b|;
    assert a == p[..|a|] == b;
    assert x == p[|a| + |SUBAGENTS|..] == y;
  }

  lemma BesideDiffer(x: string, y: string)
    requires AgentOf(x).Some? && AgentOf(y).Some? && Beside(x) == Beside(y)
    ensures x == y
  {
    var a, b := Without(x, META_SUFFIX), Without(y, META_SUFFIX);
    assert a == Beside(x)[..|Beside(x)| - |TRANSCRIPT_SUFFIX|] == b;
    assert x == a + META_SUFFIX && y == b + META_SUFFIX;
  }

  ghost predicate OwnTranscripts(ms: seq<Meta>) {
    forall i, j :: 0 <= i < j < |ms| ==> ms[i].transcript != ms[j].transcript
  }

  /** No two of a session's subagents have one transcript. */
  lemma {:induction false} MetasApart(folder: string, names: seq<string>, metas: Metas)
    requires NamesApart(names) && '/' !in folder
    ensures OwnTranscripts(MetasAmong(folder, names, metas))
  {
    if names != [] {
      hide Path, AgentOf, Beside;
      var front, last := names[..|names| - 1], names[|names| - 1];
      MetasApart(folder, front, metas);
      var before, ms := MetasAmong(folder, front, metas), MetasAmong(folder, names, metas);
      assert before + [] == before;
      if Usable(folder, last, metas) {
        forall m | m in before
          ensures m.transcript != MetaOf(folder, last, metas).transcript
        {
          MetasAre(folder, front, metas, m);
          var n :| n in front && Usable(folder, n, metas) && m == MetaOf(folder, n, metas);
          if m.transcript == MetaOf(folder, last, metas).transcript {
            PathsDiffer(folder, Beside(n), folder, Beside(last));
            BesideDiffer(n, last);
          }
        }
        OneMoreApart(before, MetaOf(folder, last, metas));
        assert ms == before + [MetaOf(folder, last, metas)];
      }
    }
  }

  lemma OneMoreApart(before: seq<Meta>, m: Meta)
    requires OwnTranscripts(before) && forall b :: b in before ==> b.transcript != m.transcript
    ensures OwnTranscripts(before + [m])
  {
  }

  lemma {:induction false} InnerIs(dir: seq<Item>, folder: string)
    requires forall j, k :: 0 <= j < k < |dir| ==> dir[j].name != dir[k].name
    ensures forall e :: e in dir && e.FolderItem? && e.name == folder && e.inner.Some? ==>
              e.inner.value == InnerOf(dir, folder)
    ensures InnerOf(dir, folder) == []
         || exists e :: e in dir && e.FolderItem? && e.name == folder && e.inner == Some(InnerOf(dir, folder))
  {
    if dir != [] {
      assert dir == [dir[0]] + dir[1..];
      assert dir[0] in dir;
      InnerIs(dir[1..], folder);
    }
  }

  /** What a session's card `i` holds: its own transcript, one left over, or a subagent's. */
  lemma HeldBy(dir: seq<Item>, e: Item, metas: Metas, i: nat, name: string)
    requires e.FileItem? && IsTranscript(e.name) && i <= |SessionOf(dir, e, metas).metas|
    ensures var folder := FolderOf(e.name);
      var names := InnerOf(dir, folder);
      name in FilesOf(SessionOf(dir, e, metas), i)
      <==> if i == 0 then name == e.name
                          || exists n :: n in names && IsTranscript(n) && n !in Claimed(folder, names, metas)
                                         && name == Path(folder, n)
           else name == SessionOf(dir, e, metas).metas[i - 1].transcript
  {
    hide IsTranscript, Path, Claimed;
    var folder := FolderOf(e.name);
    LooseAre(folder, InnerOf(dir, folder), Claimed(folder, InnerOf(dir, folder), metas), name);
  }

  lemma SubagentOf(dir: seq<Item>, e: Item, metas: Metas, i: nat) returns (n: string)
    requires e.FileItem? && IsTranscript(e.name) && 0 < i <= |SessionOf(dir, e, metas).metas|
    ensures var folder := FolderOf(e.name);
      && n in InnerOf(dir, folder) && Usable(folder, n, metas)
      && SessionOf(dir, e, metas).metas[i - 1].transcript == Path(folder, Beside(n))
      && Beside(n) in Claimed(folder, InnerOf(dir, folder), metas)
  {
    hide IsTranscript, Path, AgentOf, Beside, MetasAmong;
    var folder := FolderOf(e.name);
    var names, m := InnerOf(dir, folder), SessionOf(dir, e, metas).metas[i - 1];
    MetasAre(folder, names, metas, m);
    n :| n in names && Usable(folder, n, metas) && m == MetaOf(folder, n, metas);
  }

  /** Card `i` of session `s` holds the file `name`. */
  predicate On(s: Session, i: nat, name: string) {
    i <= |s.metas| && name in FilesOf(s, i)
  }

  /** Of the files the scan reads some card holds just those of sessions whose transcript is there. */
  lemma HeldIffHasSession(dir: seq<Item>, metas: Metas, name: string)
    requires Plain(dir) && name in TranscriptsIn(dir)
    ensures HasSession(dir, name) <==> exists s, i: nat :: s in SessionsAmong(dir, dir, metas) && On(s, i, name)
  {
    hide *;
    if HasSession(dir, name) {
      var s, i := CardOf(dir, metas, name);
    }
    if s, i: nat :| s in SessionsAmong(dir, dir, metas) && On(s, i, name) {
      CardHasSession(dir, metas, s, i, name);
    }
  }

  lemma CardHasSession(dir: seq<Item>, metas: Metas, s: Session, i: nat, name: string)
    requires s in SessionsAmong(dir, dir, metas) && On(s, i, name)
    ensures HasSession(dir, name)
  {
    hide IsTranscript, Path, SessionOf, Claimed, InnerOf, FilesOf;
    SessionsAre(dir, dir, metas, s);
    var e :| e in dir && e.FileItem? && IsTranscript(e.name) && s == SessionOf(dir, e, metas);
    HeldBy(dir, e, metas, i, name);
    if i > 0 {
      var n := SubagentOf(dir, e, metas, i);
    }
  }

  lemma PathHasSlash(folder: string, name: string)
    ensures '/' in Path(folder, name)
  {
    assert Path(folder, name)[|folder|] == '/' by {
      assert Path(folder, name) == folder + (SUBAGENTS + name);
    }
  }

  lemma FolderIsPlain(dir: seq<Item>, e: Item)
    requires Plain(dir) && e in dir && IsTranscript(e.name)
    ensures '/' !in FolderOf(e.name)
    ensures NamesApart(InnerOf(dir, FolderOf(e.name)))
  {
    InnerIs(dir, FolderOf(e.name));
  }

  /** A listed file in a folder is one of the names the session of that folder goes by. */
  lemma ListedInFolder(dir: seq<Item>, folder: string, name: string, n: string)
    requires Plain(dir) && '/' !in folder && name in TranscriptsIn(dir) && name == Path(folder, n)
    ensures n in InnerOf(dir, folder) && IsTranscript(n)
  {
    hide IsTranscript, Path, InnerOf, TranscriptsIn, TranscriptsAmong;
    ListedIs(dir, name);
    var e :| e in dir && name in TranscriptsAt(e);
    PathHasSlash(folder, n);
    InnerIs(dir, folder);
    AmongIs(e.name, e.inner.value, name);
    var n' :| n' in e.inner.value && IsTranscript(n') && name == Path(e.name, n');
    PathsDiffer(folder, n, e.name, n');
  }

  lemma InnerCard(dir: seq<Item>, e: Item, metas: Metas, name: string, n: string) returns (i: nat)
    requires Plain(dir) && name in TranscriptsIn(dir)
    requires e in dir && e.FileItem? && IsTranscript(e.name) && name == Path(FolderOf(e.name), n)
    ensures On(SessionOf(dir, e, metas), i, name)
  {
    hide IsTranscript, Path, InnerOf, TranscriptsIn, Plain, AgentOf, Beside, MetasAmong, LooseAmong, FilesOf;
    var folder := FolderOf(e.name);
    var names := InnerOf(dir, folder);
    FolderIsPlain(dir, e);
    ListedInFolder(dir, folder, name, n);
    i := 0;
    if n in Claimed(folder, names, metas) {
      var m :| m in names && Usable(folder, m, metas) && Beside(m) == n;
      MetasAre(folder, names, metas, MetaOf(folder, m, metas));
      var k :| 0 <= k < |MetasAmong(folder, names, metas)|
            && MetasAmong(folder, names, metas)[k] == MetaOf(folder, m, metas);
      i := k + 1;
    }
    HeldBy(dir, e, metas, i, name);
  }

  lemma CardOf(dir: seq<Item>, metas: Metas, name: string) returns (s: Session, i: nat)
    requires Plain(dir) && name in TranscriptsIn(dir) && HasSession(dir, name)
    ensures s in SessionsAmong(dir, dir, metas) && On(s, i, name)
  {
    hide IsTranscript, Path, SessionOf, InnerOf, FilesOf, TranscriptsIn, Plain, Claimed;
    var e :| e in dir && e.FileItem? && IsTranscript(e.name)
          && (name == e.name || exists n :: name == Path(FolderOf(e.name), n));
    s, i := SessionOf(dir, e, metas), 0;
    SessionsAre(dir, dir, metas, s);
    HeldBy(dir, e, metas, 0, name);
    if name != e.name {
      var n :| name == Path(FolderOf(e.name), n);
      i := InnerCard(dir, e, metas, name, n);
    }
  }

  /** Which name of its folder a session's file is, its own transcript being none of them. */
  lemma PlaceOf(dir: seq<Item>, e: Item, metas: Metas, i: nat, name: string) returns (x: Option<string>)
    requires e.FileItem? && IsTranscript(e.name) && On(SessionOf(dir, e, metas), i, name)
    ensures x.None? ==> name == e.name && i == 0
    ensures var folder := FolderOf(e.name);
      x.Some? ==>
        && name == Path(folder, x.value)
        && (i > 0 <==> x.value in Claimed(folder, InnerOf(dir, folder), metas))
        && (i > 0 ==> SessionOf(dir, e, metas).metas[i - 1].transcript == name)
  {
    hide IsTranscript, Path, SessionOf, InnerOf, FilesOf, AgentOf, Beside, MetasAmong, LooseAmong, Claimed, FolderOf;
    var folder := FolderOf(e.name);
    var names := InnerOf(dir, folder);
    HeldBy(dir, e, metas, i, name);
    if i > 0 {
      var n := SubagentOf(dir, e, metas, i);
      x := Some(Beside(n));
    } else if name == e.name {
      x := None;
    } else {
      var n :| n in names && IsTranscript(n) && n !in Claimed(folder, names, metas) && name == Path(folder, n);
      x := Some(n);
    }
  }

  lemma SameItem(dir: seq<Item>, e: Item, f: Item)
    requires Plain(dir) && e in dir && f in dir && e.name == f.name
    ensures e == f
  {
    var j :| 0 <= j < |dir| && dir[j] == e;
    var k :| 0 <= k < |dir| && dir[k] == f;
    assert j == k;
  }

  lemma SameFolder(a: string, b: string)
    requires IsTranscript(a) && IsTranscript(b) && FolderOf(a) == FolderOf(b)
    ensures a == b
  {
    assert a == FolderOf(a) + TRANSCRIPT_SUFFIX && b == FolderOf(b) + TRANSCRIPT_SUFFIX;
  }

  /** One file is of one session. */
  lemma SameOwner(dir: seq<Item>, e: Item, f: Item, name: string, x: Option<string>, y: Option<string>)
    requires Plain(dir) && e in dir && f in dir && IsTranscript(e.name) && IsTranscript(f.name)
    requires name == if x.None? then e.name else Path(FolderOf(e.name), x.value)
    requires name == if y.None? then f.name else Path(FolderOf(f.name), y.value)
    ensures e == f && x == y
  {
    hide IsTranscript, Path, FolderOf;
    FolderIsPlain(dir, e);
    FolderIsPlain(dir, f);
    if x.Some? {
      PathHasSlash(FolderOf(e.name), x.value);
    }
    if y.Some? {
      PathHasSlash(FolderOf(f.name), y.value);
    }
    if x.Some? && y.Some? {
      PathsDiffer(FolderOf(e.name), x.value, FolderOf(f.name), y.value);
      SameFolder(e.name, f.name);
    }
    SameItem(dir, e, f);
  }

  /** And on one card only. */
  lemma HeldOnce(dir: seq<Item>, metas: Metas, name: string, s: Session, i: nat, t: Session, j: nat)
    requires Plain(dir)
    requires s in SessionsAmong(dir, dir, metas) && On(s, i, name)
    requires t in SessionsAmong(dir, dir, metas) && On(t, j, name)
    ensures s == t && i == j
  {
    hide IsTranscript, Path, InnerOf, FilesOf, Plain, AgentOf, Beside, MetasAmong, LooseAmong, Claimed, FolderOf,
         SessionsAmong;
    SessionsAre(dir, dir, metas, s);
    SessionsAre(dir, dir, metas, t);
    var e :| e in dir && e.FileItem? && IsTranscript(e.name) && s == SessionOf(dir, e, metas);
    var f :| f in dir && f.FileItem? && IsTranscript(f.name) && t == SessionOf(dir, f, metas);
    var x := PlaceOf(dir, e, metas, i, name);
    var y := PlaceOf(dir, f, metas, j, name);
    SameOwner(dir, e, f, name, x, y);
    FolderIsPlain(dir, e);
    MetasApart(FolderOf(e.name), InnerOf(dir, FolderOf(e.name)), metas);
    assert s.metas == MetasAmong(FolderOf(e.name), InnerOf(dir, FolderOf(e.name)), metas);
    assert i > 0 ==> s.metas[i - 1].transcript == name;
    assert j > 0 ==> s.metas[j - 1].transcript == name;
  }

  // ------------------------------------------------------------------ one total of a directory

  /** The sessions read of a directory, in whatever order the page lists them. */
  ghost predicate AreSessions(sessions: seq<Session>, dir: seq<Item>, metas: Metas) {
    multiset(sessions) == multiset(SessionsAmong(dir, dir, metas))
  }

  /** The card that holds `name` leads to its session. */
  ghost predicate LeadsHome(parse: Reader.EntryParser, final: History.Files, sessions: seq<Session>, name: string) {
    forall s, i: nat :: s in sessions && On(s, i, name) ==> Rooted(NodesOf(parse, final, s), i)
  }

  /** A listed file is on a drawn card exactly when its session's transcript is there and its own card leads to it. */
  lemma DrawnIffLeadsHome(parse: Reader.EntryParser, final: History.Files, dir: seq<Item>, metas: Metas,
                          sessions: seq<Session>, name: string)
    requires Plain(dir) && AreSessions(sessions, dir, metas) && name in TranscriptsIn(dir)
    ensures OnDrawnCard(parse, final, sessions, name)
       <==> HasSession(dir, name) && LeadsHome(parse, final, sessions, name)
  {
    hide Plain, TranscriptsIn, HasSession, FilesOf, Rooted, NodesOf, SessionsAmong;
    assert forall s :: s in sessions <==> s in multiset(sessions);
    assert forall s :: s in SessionsAmong(dir, dir, metas) <==> s in multiset(SessionsAmong(dir, dir, metas));
    HeldIffHasSession(dir, metas, name);
    if OnDrawnCard(parse, final, sessions, name) {
      var k, i: nat :| 0 <= k < |sessions| && DrawnIn(parse, final, sessions[k], i) && name in FilesOf(sessions[k], i);
      var s := sessions[k];
      assert s in sessions && On(s, i, name);
      forall t, j: nat | t in sessions && On(t, j, name)
        ensures Rooted(NodesOf(parse, final, t), j)
      {
        HeldOnce(dir, metas, name, s, i, t, j);
      }
    }
    if HasSession(dir, name) && LeadsHome(parse, final, sessions, name) {
      var s, i: nat :| s in SessionsAmong(dir, dir, metas) && On(s, i, name);
      var k :| 0 <= k < |sessions| && sessions[k] == s;
      assert DrawnIn(parse, final, sessions[k], i) && name in FilesOf(sessions[k], i);
    }
  }

  /** Every response is on a drawn card exactly when each file with one leads to a session that is there. */
  lemma AllDrawnIffLeadHome(parse: Reader.EntryParser, final: History.Files, dir: seq<Item>, metas: Metas,
                            sessions: seq<Session>)
    requires Plain(dir) && AreSessions(sessions, dir, metas)
    requires forall name :: name in final ==> name in TranscriptsIn(dir)
    ensures EveryResponseDrawn(parse, final, sessions)
       <==> forall name :: name in final && FileRows(parse, final, name) != map[] ==>
              HasSession(dir, name) && LeadsHome(parse, final, sessions, name)
  {
    hide Plain, AreSessions, TranscriptsIn, HasSession, LeadsHome, FileRows, OnDrawnCard;
    forall name | name in final
      ensures OnDrawnCard(parse, final, sessions, name)
         <==> HasSession(dir, name) && LeadsHome(parse, final, sessions, name)
    {
      DrawnIffLeadsHome(parse, final, dir, metas, sessions, name);
    }
  }

  /**
    Both pages over one directory: they show one total for every issue when each file with a
    response has its session's transcript there and is on a card that leads to it.
    */
  lemma OneTotalOfDirectory(parse: Reader.EntryParser, final: History.Files, dir: seq<Item>, metas: Metas,
                            sessions: seq<Session>, roots: seq<Card>, listing: seq<File>, listed: seq<Response>,
                            groups: seq<SessionGroup>, byIssue: map<nat, Spend>, off: Unattributed)
    requires Plain(dir) && AreSessions(sessions, dir, metas)
    requires forall name :: name in final ==> name in TranscriptsIn(dir)
    requires BothPages(parse, final, sessions, roots, listing, listed, groups, byIssue, off)
    requires forall name :: name in final ==> History.Stable(Reader.UsageOf(parse), final[name])
    requires OneGroupEach(parse, final)
    requires forall name :: name in final && FileRows(parse, final, name) != map[] ==>
               HasSession(dir, name) && LeadsHome(parse, final, sessions, name)
    ensures forall n :: UsageFigure(byIssue, n) == GroupFigure(groups, n)
  {
    hide *;
    AllDrawnIffLeadHome(parse, final, dir, metas, sessions);
    OneTotal(parse, final, sessions, roots, listing, listed, groups, byIssue, off);
  }
}
