/**
  The Sessions page's reader of one transcript: facts fed a line at a time, kept with a
  cursor between readings so that the next parses only what was appended.
  */
module SessionsReader {
  import opened Options
  import opened Responses
  import opened Transcripts
  import History = UsageHistory

  const ANCHOR_BYTES: nat := 64
  const SYNTHETIC_MODEL := "<synthetic>"

  datatype Usage = Usage(input: nat, cacheCreation: nat, cacheRead: nat, output: nat)

  function CountsOf(u: Usage): Counts {
    Counts(u.output, u.cacheRead, Some(u.input + u.cacheCreation + u.cacheRead + u.output))
  }

  /** A prompt as its readers read it: its task, its `/chain` arguments, its step marks. */
  datatype Prompt = Prompt(task: Option<Task>, chainArgs: Option<string>, marks: seq<string>)
  datatype Task = Task(text: string, clear: bool)

  /** A call, with the marks it leaves and the worker its input starts, were it a subagent's. */
  datatype ToolUse = ToolUse(id: string, name: Option<string>, marks: seq<string>, worker: Option<Worker>)
  datatype Worker = Worker(name: string, issue: nat)
  datatype WorkerCall = WorkerCall(callId: string, worker: Worker)

  datatype Message = Message(
    id: string, model: string, stop: Option<string>, uses: seq<ToolUse>, usage: Option<Usage>)

  /** A record. A branch, model, id or uuid it does not carry is absent or the empty string. */
  datatype Entry = Entry(
    timestamp: Option<string>,
    ms: Option<int>,
    prompt: Option<Prompt>,
    branch: Option<string>,
    session: Option<string>,
    uuid: string,
    message: Option<Message>)

  datatype Parsed = Blank | Bad | NotAnObject | Parsed(entry: Entry)

  type EntryParser = Bytes -> Parsed

  function ParsedLine(parse: EntryParser, text: Bytes): Parsed {
    if text == [] then Blank else parse(text)
  }

  datatype ToolTally = ToolTally(name: string, calls: nat)

  datatype Facts = Facts(
    file: string,
    lines: nat,
    task: Option<string>,
    taskCleared: bool,
    model: Option<string>,
    first: Option<string>,
    firstMs: Option<int>,
    lastMs: Option<int>,
    lastStop: Option<string>,
    calls: seq<string>,
    chainArgs: Option<string>,
    workerCalls: seq<WorkerCall>,
    marks: seq<string>,
    tools: seq<ToolTally>,
    responses: Rows,
    branch: Option<string>,
    badLines: nat)

  function StartFacts(file: string): Facts {
    Facts(file, 0, None, false, None, None, None, None, None, [], None, [], [], [], map[], None, 0)
  }

  // ------------------------------------------------------------------ one line

  /** Another call under `name`, in the order each name was first called. */
  function Tallied(tools: seq<ToolTally>, name: string): seq<ToolTally> {
    if tools == [] then [ToolTally(name, 1)]
    else if tools[0].name == name then [ToolTally(name, tools[0].calls + 1)] + tools[1..]
    else [tools[0]] + Tallied(tools[1..], name)
  }

  function FedTime(f: Facts, e: Entry): Facts {
    if e.timestamp.None? || e.timestamp.value == "" || e.ms.None? then f
    else
      var earlier := f.firstMs.None? || e.ms.value < f.firstMs.value;
      f.(first := if earlier then e.timestamp else f.first,
         firstMs := if earlier then e.ms else f.firstMs,
         lastMs := if f.lastMs.None? || f.lastMs.value < e.ms.value then e.ms else f.lastMs)
  }

  function FedPrompt(f: Facts, p: Prompt): Facts {
    var task := if f.task.None? || f.taskCleared then p.task else None;
    f.(task := if task.Some? then Some(task.value.text) else f.task,
       taskCleared := if task.Some? then task.value.clear else f.taskCleared,
       chainArgs := Coalesce(f.chainArgs, p.chainArgs),
       marks := f.marks + p.marks)
  }

  function FedUse(f: Facts, u: ToolUse): Facts {
    var called := f.(calls := f.calls + [u.id]);
    if u.name.None? then called
    else
      var named := called.(tools := Tallied(f.tools, u.name.value), marks := f.marks + u.marks);
      if u.name.value !in {"Agent", "Task"} || u.worker.None? then named
      else named.(workerCalls := f.workerCalls + [WorkerCall(u.id, u.worker.value)])
  }

  function FedUses(f: Facts, uses: seq<ToolUse>): Facts {
    if uses == [] then f else FedUse(FedUses(f, uses[..|uses| - 1]), uses[|uses| - 1])
  }

  function RecordOf(e: Entry, m: Message, u: Usage): Record {
    Record(m.id, e.uuid, e.session, e.branch, e.timestamp, CountsOf(u))
  }

  function FedUsage(f: Facts, r: Response, stop: Option<string>): Facts {
    f.(lastStop := stop,
       responses :=
         if r.id !in f.responses then f.responses[r.id := r]
         else if RaisesCounts(f.responses[r.id].counts, r.counts)
         then f.responses[r.id := f.responses[r.id].(counts := LargerCounts(f.responses[r.id].counts, r.counts))]
         else f.responses)
  }

  function FedMessage(f: Facts, e: Entry, m: Message, line: nat): Facts {
    var used := FedUses(f, m.uses);
    var known := if used.model.None? && m.model != "" && m.model != SYNTHETIC_MODEL
                 then used.(model := Some(m.model)) else used;
    if m.usage.None? then known
    else FedUsage(known, ResponseOf(RecordOf(e, m, m.usage.value), f.file, line), m.stop)
  }

  function Fed(f: Facts, parsed: Parsed, line: nat, complete: bool): Facts {
    match parsed
    case Blank => f
    case NotAnObject => f
    case Bad => if complete then f.(badLines := f.badLines + 1) else f
    case Parsed(e) =>
      var timed := FedTime(f, e);
      var prompted := if e.prompt.Some? then FedPrompt(timed, e.prompt.value) else timed;
      var placed := if e.branch.Some? && e.branch.value != "" then prompted.(branch := e.branch) else prompted;
      if e.message.None? then placed else FedMessage(placed, e, e.message.value, line)
  }

  // ------------------------------------------------------------------ all lines

  /** Every complete line of `bytes`, numbered from where `f` stands. */
  function FedLines(f: Facts, parse: EntryParser, bytes: Bytes): Facts
    decreases |bytes|
  {
    var end := LineEnd(bytes);
    if end == |bytes| then f
    else FedLines(Fed(f, ParsedLine(parse, bytes[..end]), f.lines + 1, true).(lines := f.lines + 1),
                  parse, bytes[end + 1..])
  }

  /** The facts of `f` with the unterminated last line, which no cursor moves past. */
  function FactsWith(f: Facts, parse: EntryParser, trailing: Bytes): Facts {
    Fed(f, ParsedLine(parse, trailing), f.lines + 1, false)
  }

  /** What reading the whole file from the top says. */
  function WholeFacts(parse: EntryParser, file: string, content: Bytes): Facts {
    FactsWith(FedLines(StartFacts(file), parse, content), parse, content[Complete(content)..])
  }

  /** The facts after the first line of `bytes`. */
  function FedFirst(f: Facts, parse: EntryParser, bytes: Bytes): Facts {
    Fed(f, ParsedLine(parse, bytes[..LineEnd(bytes)]), f.lines + 1, true).(lines := f.lines + 1)
  }

  lemma FedLinesUnfold(f: Facts, parse: EntryParser, bytes: Bytes)
    ensures FedLines(f, parse, bytes)
         == if LineEnd(bytes) == |bytes| then f
            else FedLines(FedFirst(f, parse, bytes), parse, bytes[LineEnd(bytes) + 1..])
  {
    hide Fed;
  }

  lemma {:induction false} FedLinesSplit(f: Facts, parse: EntryParser, a: Bytes, b: Bytes)
    requires History.EndsLine(a)
    ensures FedLines(f, parse, a + b) == FedLines(FedLines(f, parse, a), parse, b)
    decreases |a|
  {
    hide Fed, FedLines, LineEnd;
    FedLinesUnfold(f, parse, a);
    if a == [] {
      assert a + b == b;
    } else {
      History.LineEndConcat(a, b);
      FedLinesUnfold(f, parse, a + b);
      FedLinesSplit(FedFirst(f, parse, a), parse, a[LineEnd(a) + 1..], b);
    }
  }

  /** An unterminated tail is no complete line. */
  lemma FedLinesOfTail(f: Facts, parse: EntryParser, tail: Bytes)
    requires forall k :: 0 <= k < |tail| ==> tail[k] != NEWLINE
    ensures FedLines(f, parse, tail) == f
  {
    History.LineEndAt(tail, |tail|);
  }

  // ------------------------------------------------------------------ the cursor

  datatype ReaderCursor = ReaderCursor(size: nat, mtimeMs: int, offset: nat, anchor: Bytes, facts: Facts,
                                       trailing: Bytes)

  /** The file as one reading finds it. */
  datatype Stat = Stat(content: Bytes, mtimeMs: int)

  function SameStat(c: ReaderCursor, now: Stat): bool {
    c.size == |now.content| && c.mtimeMs == now.mtimeMs
  }

  function AnchorStart(c: ReaderCursor): int {
    c.offset - |c.anchor|
  }

  /** The anchored bytes are where the cursor left them. */
  predicate StillAnchored(c: ReaderCursor, content: Bytes) {
    && 0 <= AnchorStart(c)
    && c.offset <= |content|
    && content[AnchorStart(c)..c.offset] == c.anchor
  }

  /** What reading on leaves: `bytes` is the file from `base` on, of which the first `skip` were read before. */
  function Advanced(facts: Facts, parse: EntryParser, bytes: Bytes, base: nat, skip: nat, mtimeMs: int): ReaderCursor
    requires skip <= |bytes|
  {
    var end := skip + Complete(bytes[skip..]);
    ReaderCursor(base + |bytes|, mtimeMs, base + end, bytes[Sub(end, ANCHOR_BYTES)..end],
           FedLines(facts, parse, bytes[skip..]), bytes[end..])
  }

  function Sub(a: nat, b: nat): nat {
    if a < b then 0 else a - b
  }

  function NextCursor(parse: EntryParser, file: string, before: Option<ReaderCursor>, now: Stat): ReaderCursor {
    if before.Some? && SameStat(before.value, now) then before.value
    else if before.Some? && StillAnchored(before.value, now.content)
    then Advanced(before.value.facts, parse, now.content[AnchorStart(before.value)..],
                  AnchorStart(before.value), |before.value.anchor|, now.mtimeMs)
    else Advanced(StartFacts(file), parse, now.content, 0, 0, now.mtimeMs)
  }

  function ReadingOf(parse: EntryParser, c: ReaderCursor): Facts {
    FactsWith(c.facts, parse, c.trailing)
  }

  // ------------------------------------------------------------------ imperatively

  /** The facts as the reader keeps them: one object, written to a line at a time. */
  class FactsSoFar {
    const file: string
    var lines: nat
    var task: Option<string>
    var taskCleared: bool
    var model: Option<string>
    var first: Option<string>
    var firstMs: Option<int>
    var lastMs: Option<int>
    var lastStop: Option<string>
    var calls: seq<string>
    var chainArgs: Option<string>
    var workerCalls: seq<WorkerCall>
    var marks: seq<string>
    var tools: seq<ToolTally>
    var responses: Rows
    var branch: Option<string>
    var badLines: nat

    function View(): Facts
      reads this
    {
      Facts(file, lines, task, taskCleared, model, first, firstMs, lastMs, lastStop, calls, chainArgs,
            workerCalls, marks, tools, responses, branch, badLines)
    }

    constructor (name: string)
      ensures View() == StartFacts(name)
    {
      file, lines, task, taskCleared, model := name, 0, None, false, None;
      first, firstMs, lastMs, lastStop := None, None, None, None;
      calls, chainArgs, workerCalls, marks, tools := [], None, [], [], [];
      responses, branch, badLines := map[], None, 0;
    }

    /** Another object with the same facts. */
    constructor Copy(f: FactsSoFar)
      ensures View() == f.View()
    {
      file, lines, task, taskCleared, model := f.file, f.lines, f.task, f.taskCleared, f.model;
      first, firstMs, lastMs, lastStop := f.first, f.firstMs, f.lastMs, f.lastStop;
      calls, chainArgs, workerCalls, marks, tools := f.calls, f.chainArgs, f.workerCalls, f.marks, f.tools;
      responses, branch, badLines := f.responses, f.branch, f.badLines;
    }

    method FeedUse(u: ToolUse)
      modifies this
      ensures View() == FedUse(old(View()), u)
    {
      calls := calls + [u.id];
      if u.name.None? {
        return;
      }
      tools := Tallied(tools, u.name.value);
      marks := marks + u.marks;
      if u.name.value !in {"Agent", "Task"} {
        return;
      }
      if u.worker.Some? {
        workerCalls := workerCalls + [WorkerCall(u.id, u.worker.value)];
      }
    }

    method FeedMessage(e: Entry, m: Message, lineNo: nat)
      modifies this
      ensures View() == FedMessage(old(View()), e, m, lineNo)
    {
      ghost var before := View();
      for i := 0 to |m.uses|
        invariant View() == FedUses(before, m.uses[..i])
      {
        FeedUse(m.uses[i]);
        assert m.uses[..i + 1][..i] == m.uses[..i];
      }
      assert m.uses[..|m.uses|] == m.uses;
      if model.None? && m.model != "" && m.model != SYNTHETIC_MODEL {
        model := Some(m.model);
      }
      if m.usage.None? {
        return;
      }
      lastStop := m.stop;
      var r := ResponseOf(RecordOf(e, m, m.usage.value), file, lineNo);
      if r.id !in responses {
        responses := responses[r.id := r];
      } else if RaisesCounts(responses[r.id].counts, r.counts) {
        responses := responses[r.id := responses[r.id].(counts := LargerCounts(responses[r.id].counts, r.counts))];
      }
    }

    method FeedTime(e: Entry)
      modifies this
      ensures View() == FedTime(old(View()), e)
    {
      if e.timestamp.None? || e.timestamp.value == "" || e.ms.None? {
        return;
      }
      if firstMs.None? || e.ms.value < firstMs.value {
        firstMs, first := e.ms, e.timestamp;
      }
      if lastMs.None? || lastMs.value < e.ms.value {
        lastMs := e.ms;
      }
    }

    method FeedPrompt(p: Prompt)
      modifies this
      ensures View() == FedPrompt(old(View()), p)
    {
      if (task.None? || taskCleared) && p.task.Some? {
        task, taskCleared := Some(p.task.value.text), p.task.value.clear;
      }
      if chainArgs.None? {
        chainArgs := p.chainArgs;
      }
      marks := marks + p.marks;
    }

    /** One line into these facts. */
    method Feed(parsed: Parsed, lineNo: nat, complete: bool)
      modifies this
      ensures View() == Fed(old(View()), parsed, lineNo, complete)
    {
      hide FedMessage, FedTime, FedPrompt;
      match parsed
      case Blank =>
      case NotAnObject =>
      case Bad =>
        if complete {
          badLines := badLines + 1;
        }
      case Parsed(e) =>
        FeedTime(e);
        if e.prompt.Some? {
          FeedPrompt(e.prompt.value);
        }
        if e.branch.Some? && e.branch.value != "" {
          branch := e.branch;
        }
        if e.message.Some? {
          FeedMessage(e, e.message.value, lineNo);
        }
    }

    /** Every whole line of `bytes` goes into these facts; `used` is where the last of them ends. */
    method FeedBytes(parse: EntryParser, bytes: Bytes) returns (used: nat)
      modifies this
      ensures View() == FedLines(old(View()), parse, bytes)
      ensures used == Complete(bytes)
    {
      hide Fed, FedLines, Tallied, FedUses;
      used := 0;
      var rest := bytes;
      while LineEnd(rest) < |rest|
        invariant FedLines(old(View()), parse, bytes) == FedLines(View(), parse, rest)
        invariant Complete(bytes) == used + Complete(rest)
        decreases |rest|
      {
        var end := LineEnd(rest);
        FedLinesUnfold(View(), parse, rest);
        FedKeepsPlace(View(), ParsedLine(parse, rest[..end]), lines + 1, true);
        Feed(ParsedLine(parse, rest[..end]), lines + 1, true);
        lines := lines + 1;
        used, rest := used + end + 1, rest[end + 1..];
      }
      FedLinesUnfold(View(), parse, rest);
    }
  }

  lemma {:induction false} FedUsesKeepsPlace(f: Facts, uses: seq<ToolUse>)
    ensures FedUses(f, uses).lines == f.lines && FedUses(f, uses).file == f.file
    ensures FedUses(f, uses).responses == f.responses
  {
    if uses != [] {
      FedUsesKeepsPlace(f, uses[..|uses| - 1]);
    }
  }

  lemma FedMessageKeepsPlace(f: Facts, e: Entry, m: Message, line: nat)
    ensures var after := FedMessage(f, e, m, line);
      after.lines == f.lines && after.file == f.file
  {
    FedUsesKeepsPlace(f, m.uses);
  }

  lemma FedKeepsPlace(f: Facts, parsed: Parsed, line: nat, complete: bool)
    ensures Fed(f, parsed, line, complete).lines == f.lines && Fed(f, parsed, line, complete).file == f.file
  {
    hide FedMessage;
    if parsed.Parsed? && parsed.entry.message.Some? {
      var e := parsed.entry;
      var timed := FedTime(f, e);
      var prompted := if e.prompt.Some? then FedPrompt(timed, e.prompt.value) else timed;
      var placed := if e.branch.Some? && e.branch.value != "" then prompted.(branch := e.branch) else prompted;
      FedMessageKeepsPlace(placed, e, e.message.value, line);
    }
  }

  /** A cursor as the reader keeps it, its facts an object that later readings write to. */
  class KeptCursor {
    const size: nat
    const mtimeMs: int
    const offset: nat
    const anchor: Bytes
    const facts: FactsSoFar
    const trailing: Bytes

    constructor (size: nat, mtimeMs: int, offset: nat, anchor: Bytes, facts: FactsSoFar, trailing: Bytes)
      ensures this.size == size && this.mtimeMs == mtimeMs && this.offset == offset
      ensures this.anchor == anchor && this.facts == facts && this.trailing == trailing
    {
      this.size, this.mtimeMs, this.offset := size, mtimeMs, offset;
      this.anchor, this.facts, this.trailing := anchor, facts, trailing;
    }

    function View(): ReaderCursor
      reads this, facts
    {
      ReaderCursor(size, mtimeMs, offset, anchor, facts.View(), trailing)
    }
  }

  /** The reader of one transcript, kept between readings. */
  class TranscriptReader {
    const file: string
    var cursor: KeptCursor?

    constructor (name: string)
      ensures file == name && cursor == null
    {
      file, cursor := name, null;
    }

    function View(): Option<ReaderCursor>
      reads this, cursor, if cursor == null then {} else {cursor.facts}
    {
      if cursor == null then None else Some(cursor.View())
    }

    /** What a reading answers: `f` and its unfinished line, `f` itself left alone. */
    method FactsOf(parse: EntryParser, f: FactsSoFar, trailing: Bytes) returns (facts: Facts)
      ensures facts == FactsWith(f.View(), parse, trailing)
    {
      hide Fed;
      var copy := new FactsSoFar.Copy(f);
      copy.Feed(ParsedLine(parse, trailing), f.lines + 1, false);
      facts := copy.View();
    }

    /** Reads on: what follows the first `skip` of `bytes` goes into `into`, and a new cursor stands behind it. */
    method Advance(parse: EntryParser, into: FactsSoFar, bytes: Bytes, base: nat, skip: nat, mtimeMs: int)
      returns (next: KeptCursor)
      requires skip <= |bytes|
      modifies into
      ensures fresh(next) && next.facts == into
      ensures next.View() == Advanced(old(into.View()), parse, bytes, base, skip, mtimeMs)
    {
      hide FedLines, Complete, FactsSoFar.View;
      var used := into.FeedBytes(parse, bytes[skip..]);
      var end := skip + used;
      next := new KeptCursor(base + |bytes|, mtimeMs, base + end,
                             bytes[Sub(end, ANCHOR_BYTES)..end], into, bytes[end..]);
    }

    /** One reading: nothing when the file has not moved, what was appended, or the whole file. */
    method Read(parse: EntryParser, now: Stat) returns (facts: Facts)
      modifies this, if cursor == null then {} else {cursor.facts}
      ensures View() == Some(NextCursor(parse, file, old(View()), now))
      ensures facts == ReadingOf(parse, NextCursor(parse, file, old(View()), now))
      ensures fresh(cursor) || cursor == old(cursor)
      ensures fresh(cursor.facts) || (old(cursor) != null && cursor.facts == old(cursor.facts))
    {
      hide Advanced, FactsWith, FactsSoFar.View, StartFacts;
      if cursor != null && cursor.size == |now.content| && cursor.mtimeMs == now.mtimeMs {
        facts := FactsOf(parse, cursor.facts, cursor.trailing);
        return;
      }
      if cursor != null && StillAnchored(cursor.View(), now.content) {
        var base := cursor.offset - |cursor.anchor|;
        cursor := Advance(parse, cursor.facts, now.content[base..], base, |cursor.anchor|, now.mtimeMs);
      } else {
        var start := new FactsSoFar(file);
        cursor := Advance(parse, start, now.content, 0, 0, now.mtimeMs);
      }
      facts := FactsOf(parse, cursor.facts, cursor.trailing);
    }
  }

  // ------------------------------------------------------------------ resumed equals whole

  /** `c` is the cursor a from-scratch reading of `content` would leave. */
  ghost predicate StandsFor(c: ReaderCursor, parse: EntryParser, file: string, content: Bytes) {
    && c.size == |content|
    && c.offset == Complete(content)
    && c.anchor == content[Sub(c.offset, ANCHOR_BYTES)..c.offset]
    && c.facts == FedLines(StartFacts(file), parse, content[..c.offset])
    && c.trailing == content[c.offset..]
  }

  lemma FedLinesOfComplete(f: Facts, parse: EntryParser, bytes: Bytes)
    ensures FedLines(f, parse, bytes) == FedLines(f, parse, bytes[..Complete(bytes)])
  {
    hide FedLines;
    var whole, tail := bytes[..Complete(bytes)], bytes[Complete(bytes)..];
    assert bytes == whole + tail;
    FedLinesSplit(f, parse, whole, tail);
    FedLinesOfTail(FedLines(f, parse, whole), parse, tail);
  }

  lemma StandingCursorReadsWhole(c: ReaderCursor, parse: EntryParser, file: string, content: Bytes)
    requires StandsFor(c, parse, file, content)
    ensures ReadingOf(parse, c) == WholeFacts(parse, file, content)
  {
    hide FedLines;
    FedLinesOfComplete(StartFacts(file), parse, content);
  }

  lemma WholeReadingStands(parse: EntryParser, file: string, content: Bytes, mtimeMs: int)
    ensures StandsFor(Advanced(StartFacts(file), parse, content, 0, 0, mtimeMs), parse, file, content)
  {
    hide FedLines;
    assert content[0..] == content;
    FedLinesOfComplete(StartFacts(file), parse, content);
  }

  /** A slice of the bytes from `from` on is a slice of the whole. */
  lemma SliceOfRest(content: Bytes, from: nat, lo: nat, hi: nat)
    requires from <= |content| && lo <= hi <= |content| - from
    ensures content[from..][lo..hi] == content[from + lo..from + hi]
    ensures content[from..][hi..] == content[from + hi..]
  {
  }

  /** Where the slice begins does not show in the cursor, so long as it holds the anchor. */
  lemma AdvancedFrom(facts: Facts, parse: EntryParser, content: Bytes, from: nat, skip: nat, mtimeMs: int)
    requires from + skip <= |content| && (from == 0 || ANCHOR_BYTES <= skip)
    ensures var offset := from + skip + Complete(content[from + skip..]);
      Advanced(facts, parse, content[from..], from, skip, mtimeMs)
      == ReaderCursor(|content|, mtimeMs, offset, content[Sub(offset, ANCHOR_BYTES)..offset],
                      FedLines(facts, parse, content[from + skip..]), content[offset..])
  {
    hide FedLines, Complete;
    var bytes := content[from..];
    SliceOfRest(content, from, skip, |bytes|);
    assert bytes[skip..] == content[from + skip..];
    var end := skip + Complete(bytes[skip..]);
    SliceOfRest(content, from, Sub(end, ANCHOR_BYTES), end);
  }

  lemma CompleteFrom(f: Facts, parse: EntryParser, content: Bytes, offset: nat)
    requires offset <= |content| && History.EndsLine(content[..offset])
    ensures offset + Complete(content[offset..]) == Complete(content)
    ensures FedLines(FedLines(f, parse, content[..offset]), parse, content[offset..])
         == FedLines(f, parse, content[..Complete(content)])
  {
    hide FedLines, Complete;
    var whole, rest := content[..offset], content[offset..];
    assert whole + rest == content;
    History.LinesSplit(whole, rest);
    FedLinesSplit(f, parse, whole, rest);
    FedLinesOfComplete(f, parse, content);
  }

  lemma ResumedReadingStands(c: ReaderCursor, parse: EntryParser, file: string, was: Bytes, content: Bytes,
                             mtimeMs: int)
    requires StandsFor(c, parse, file, was)
    requires c.offset <= |content| && content[..c.offset] == was[..c.offset]
    ensures StandsFor(Advanced(c.facts, parse, content[AnchorStart(c)..], AnchorStart(c), |c.anchor|, mtimeMs),
                      parse, file, content)
  {
    hide FedLines, Complete, Advanced;
    AdvancedFrom(c.facts, parse, content, AnchorStart(c), |c.anchor|, mtimeMs);
    CompleteFrom(StartFacts(file), parse, content, c.offset);
  }

  /**
    What a reading may be shown without being misled: an unmoved size and time mean
    unmoved bytes, and the anchor's bytes in place mean everything before them is.
    */
  ghost predicate Undeceived(c: ReaderCursor, was: Bytes, now: Stat) {
    && (SameStat(c, now) ==> now.content == was)
    && (!SameStat(c, now) && StillAnchored(c, now.content) ==>
          c.offset <= |was| && now.content[..c.offset] == was[..c.offset])
  }

  lemma NextCursorStands(parse: EntryParser, file: string, before: Option<ReaderCursor>, was: Bytes, now: Stat)
    requires before.Some? ==> StandsFor(before.value, parse, file, was) && Undeceived(before.value, was, now)
    ensures StandsFor(NextCursor(parse, file, before, now), parse, file, now.content)
  {
    hide Advanced, FedLines, Complete;
    if before.Some? && SameStat(before.value, now) {
    } else if before.Some? && StillAnchored(before.value, now.content) {
      ResumedReadingStands(before.value, parse, file, was, now.content, now.mtimeMs);
    } else {
      WholeReadingStands(parse, file, now.content, now.mtimeMs);
    }
  }

  /** A file that grew, or did not move, misleads no reading. */
  lemma GrowthIsUndeceiving(c: ReaderCursor, parse: EntryParser, file: string, was: Bytes, now: Stat)
    requires StandsFor(c, parse, file, was) && was <= now.content
    ensures Undeceived(c, was, now)
  {
  }

  /** The cursor after some readings of one file. */
  function CursorAfter(parse: EntryParser, file: string, readings: seq<Stat>): Option<ReaderCursor> {
    if readings == [] then None
    else Some(NextCursor(parse, file, CursorAfter(parse, file, readings[..|readings| - 1]), readings[|readings| - 1]))
  }

  lemma {:induction false} ReadingsStand(parse: EntryParser, file: string, readings: seq<Stat>)
    requires readings != []
    requires forall j, k :: 0 <= j < k < |readings| ==> readings[j].content <= readings[k].content
    ensures StandsFor(CursorAfter(parse, file, readings).value, parse, file, readings[|readings| - 1].content)
  {
    hide NextCursor, StandsFor, Undeceived;
    var before, now := readings[..|readings| - 1], readings[|readings| - 1];
    var c := CursorAfter(parse, file, before);
    if before == [] {
      NextCursorStands(parse, file, None, [], now);
    } else {
      ReadingsStand(parse, file, before);
      var was := before[|before| - 1].content;
      GrowthIsUndeceiving(c.value, parse, file, was, now);
      NextCursorStands(parse, file, c, was, now);
    }
  }

  /**
    Polling is reading from scratch: after any readings of a file that only grows — cut
    anywhere, in the middle of a line too — what the last one answers is what feeding the
    whole file from the top would.
    */
  lemma PollingReadsWhole(parse: EntryParser, file: string, readings: seq<Stat>)
    requires readings != []
    requires forall j, k :: 0 <= j < k < |readings| ==> readings[j].content <= readings[k].content
    ensures ReadingOf(parse, CursorAfter(parse, file, readings).value)
         == WholeFacts(parse, file, readings[|readings| - 1].content)
  {
    ReadingsStand(parse, file, readings);
    StandingCursorReadsWhole(CursorAfter(parse, file, readings).value, parse, file,
                             readings[|readings| - 1].content);
  }

  /** A replaced file is read whole the moment its size, or the anchored bytes, give it away. */
  lemma ReplacedFileReadsWhole(parse: EntryParser, file: string, c: ReaderCursor, was: Bytes, now: Stat)
    requires StandsFor(c, parse, file, was) && !SameStat(c, now) && !StillAnchored(c, now.content)
    ensures ReadingOf(parse, NextCursor(parse, file, Some(c), now)) == WholeFacts(parse, file, now.content)
  {
    hide WholeFacts, ReadingOf, NextCursor;
    NextCursorStands(parse, file, Some(c), was, now);
    StandingCursorReadsWhole(NextCursor(parse, file, Some(c), now), parse, file, now.content);
  }

  // ------------------------------------------------------- the same responses as the Usage scan

  /** The Usage scan's reading of a line, off the same parse. */
  function UsageOf(parse: EntryParser): Parser {
    text =>
      match parse(text)
      case Parsed(e) =>
        if e.message.Some? && e.message.value.usage.Some?
        then Some(RecordOf(e, e.message.value, e.message.value.usage.value))
        else None
      case _ => None
  }

  /** Every response's context and window are known, as a reader's always are. */
  ghost predicate AllKnown(rows: Rows) {
    forall i :: i in rows ==> rows[i].counts.context.Some? && rows[i].window.Some?
  }

  lemma FedUsageIsUpsert(f: Facts, r: Response, stop: Option<string>)
    requires AllKnown(f.responses) && r.counts.context.Some? && r.window.Some?
    ensures FedUsage(f, r, stop).responses == Upsert(f.responses, r)
    ensures AllKnown(Upsert(f.responses, r))
  {
    if r.id in f.responses {
      GuardedFoldExact(f.responses[r.id].counts, r.counts);
    }
  }

  lemma FedMessageResponses(f: Facts, e: Entry, m: Message, line: nat)
    requires AllKnown(f.responses)
    ensures FedMessage(f, e, m, line).responses
         == if m.usage.None? then f.responses
            else Upsert(f.responses, ResponseOf(RecordOf(e, m, m.usage.value), f.file, line))
    ensures AllKnown(FedMessage(f, e, m, line).responses)
  {
    hide FedUsage, Upsert;
    FedUsesKeepsPlace(f, m.uses);
    var used := FedUses(f, m.uses);
    var known := if used.model.None? && m.model != "" && m.model != SYNTHETIC_MODEL
                 then used.(model := Some(m.model)) else used;
    if m.usage.Some? {
      FedUsageIsUpsert(known, ResponseOf(RecordOf(e, m, m.usage.value), f.file, line), m.stop);
    }
  }

  lemma FedResponses(f: Facts, parse: EntryParser, text: Bytes, line: nat, complete: bool)
    requires AllKnown(f.responses)
    ensures var after := Fed(f, ParsedLine(parse, text), line, complete);
      && after.responses == UpsertAll(f.responses, OfferOf(UsageOf(parse), f.file, line, text))
      && AllKnown(after.responses)
  {
    hide FedMessage, Upsert;
    var parsed := ParsedLine(parse, text);
    UpsertAllNothing(f.responses);
    if parsed.Parsed? && parsed.entry.message.Some? {
      var e := parsed.entry;
      var timed := FedTime(f, e);
      var prompted := if e.prompt.Some? then FedPrompt(timed, e.prompt.value) else timed;
      var placed := if e.branch.Some? && e.branch.value != "" then prompted.(branch := e.branch) else prompted;
      FedMessageResponses(placed, e, e.message.value, line);
      if e.message.value.usage.Some? {
        var r := ResponseOf(RecordOf(e, e.message.value, e.message.value.usage.value), f.file, line);
        UpsertAllSnoc(f.responses, [], r);
        assert OfferOf(UsageOf(parse), f.file, line, text) == [] + [r];
      }
    }
  }

  lemma {:induction false} ReadingFoldsOffers(f: Facts, parse: EntryParser, bytes: Bytes)
    requires AllKnown(f.responses)
    ensures var last := FactsWith(FedLines(f, parse, bytes), parse, bytes[Complete(bytes)..]);
      last.responses == UpsertAll(f.responses, Offers(UsageOf(parse), f.file, bytes, f.lines))
    decreases |bytes|
  {
    hide Fed, UpsertAll, Offers, OfferOf, UsageOf, FedLines;
    var end := LineEnd(bytes);
    FedLinesUnfold(f, parse, bytes);
    OffersStep(UsageOf(parse), f.file, bytes, f.lines, f.responses);
    if end == |bytes| {
      FedResponses(f, parse, bytes, f.lines + 1, false);
      assert bytes[..end] == bytes == bytes[Complete(bytes)..];
    } else {
      FedResponses(f, parse, bytes[..end], f.lines + 1, true);
      FedKeepsPlace(f, ParsedLine(parse, bytes[..end]), f.lines + 1, true);
      var next := FedFirst(f, parse, bytes);
      ReadingFoldsOffers(next, parse, bytes[end + 1..]);
      assert bytes[Complete(bytes)..] == bytes[end + 1..][Complete(bytes[end + 1..])..];
    }
  }

  /**
    Two readers written apart keep the same responses: what the Sessions page reads of a
    file is what the Usage scan stores of it, each response at the same counts under the
    same branch, guard or no guard.
    */
  lemma ReadersAgree(parse: EntryParser, file: string, content: Bytes)
    ensures WholeFacts(parse, file, content).responses
         == UpsertAll(map[], Offers(UsageOf(parse), file, content, 0))
  {
    ReadingFoldsOffers(StartFacts(file), parse, content);
  }
}
