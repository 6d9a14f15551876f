/**
  The test runner behind the dev tools page: one suite at a time, the rest queued, and a
  bounded log of every run replayed to each page that connects.
  */
module SuiteQueue {
  import opened Options

  type Suite = string

  const MAX_REPLAY := 4000

  datatype RunEvent =
    | Began
    | Line(text: string)
    | Case(name: string, ok: bool)
    | Fault(message: string)
    | Ended(ok: bool, cancelled: bool)

  /** A run kept by the server. `run` numbers the runs in the order they began; it is bookkeeping. */
  datatype Stored = Stored(run: nat, events: seq<RunEvent>, dropped: nat, finished: bool, handle: bool, cancelled: bool)

  datatype Message =
    | OfRun(suite: Suite, run: nat, event: RunEvent)
    | Shortened(suite: Suite, dropped: nat)
    | Told(active: Option<Suite>, queued: seq<Suite>)

  /** A page on the stream. `from` is bookkeeping: where in each run begun by then its view starts. */
  datatype Page = Page(connected: bool, received: seq<Message>, from: seq<nat>)

  /**
    What the plugin holds, `runs` in the order its keys were added. `history` is every event
    of every run, and `begun` the suites started, in order; neither is the program's.
    */
  datatype State = State(
    known: set<Suite>, active: Option<Suite>, queue: seq<Suite>, order: seq<Suite>, runs: map<Suite, Stored>,
    pages: seq<Page>, history: seq<seq<RunEvent>>, begun: seq<Suite>)

  // ------------------------------------------------------------------ telling the pages

  function Sent(pages: seq<Page>, m: Message): seq<Page> {
    if pages == [] then []
    else
      [if pages[0].connected then pages[0].(received := pages[0].received + [m]) else pages[0]] + Sent(pages[1..], m)
  }

  function Broadcast(s: State, m: Message): State {
    s.(pages := Sent(s.pages, m))
  }

  function PublishState(s: State): State {
    Broadcast(s, Told(s.active, s.queue))
  }

  /** The newest `MAX_REPLAY` of a log. */
  function Kept(events: seq<RunEvent>): seq<RunEvent> {
    if |events| > MAX_REPLAY then events[|events| - MAX_REPLAY..] else events
  }

  function Stretched(stored: Stored, event: RunEvent): Stored {
    var events := stored.events + [event];
    if |events| > MAX_REPLAY then
      stored.(dropped := stored.dropped + (|events| - MAX_REPLAY), events := events[|events| - MAX_REPLAY..])
    else stored.(events := events)
  }

  function Record(s: State, suite: Suite, event: RunEvent): State
    requires suite in s.runs ==> s.runs[suite].run < |s.history|
  {
    if suite !in s.runs then s
    else
      var stored := s.runs[suite];
      Broadcast(
        s.(runs := s.runs[suite := Stretched(stored, event)],
           history := s.history[stored.run := s.history[stored.run] + [event]]),
        OfRun(suite, stored.run, event))
  }

  // ------------------------------------------------------------------ the queue

  /** A run of `suite` beginning, before anybody is told. */
  function Fresh(s: State, suite: Suite): State {
    s.(runs := s.runs[suite := Stored(|s.history|, [], 0, false, true, false)],
       order := if suite in s.runs then s.order else s.order + [suite],
       active := Some(suite), history := s.history + [[]], begun := s.begun + [suite])
  }

  function Opened(s: State, suite: Suite): State {
    PublishState(Fresh(s, suite))
  }

  function StartRun(s: State, suite: Suite): State {
    if suite !in s.known then s else Record(Opened(s, suite), suite, Began)
  }

  function Drain(s: State): State {
    if s.active.Some? then s
    else if s.queue == [] then PublishState(s)
    else StartRun(s.(queue := s.queue[1..]), s.queue[0])
  }

  function Others(requested: seq<Suite>, active: Option<Suite>): seq<Suite> {
    if requested == [] then []
    else (if active == Some(requested[0]) then [] else [requested[0]]) + Others(requested[1..], active)
  }

  /** Refused: a request that is empty, names an unknown suite or one that is unavailable. */
  predicate Refused(s: State, requested: seq<Suite>, unavailable: set<Suite>) {
    requested == [] || exists id :: id in requested && (id !in s.known || id in unavailable)
  }

  function Started(s: State, requested: seq<Suite>, unavailable: set<Suite>): State {
    if Refused(s, requested, unavailable) then s else Drain(s.(queue := Others(requested, s.active)))
  }

  const CANCEL_NOTE := "\U{2014} cancelled from the dev tools page \U{2014}"

  /** The handle's `cancel`: once, and only a note in the log; the end comes from the process. */
  function HandleCancelled(s: State, suite: Suite): State
    requires suite in s.runs && s.runs[suite].run < |s.history|
  {
    if s.runs[suite].cancelled then s
    else
      var marked := s.(runs := s.runs[suite := s.runs[suite].(cancelled := true)]);
      Record(Record(marked, suite, Line("")), suite, Line(CANCEL_NOTE))
  }

  function Cancelled(s: State): State
    requires forall x :: x in s.runs ==> s.runs[x].run < |s.history|
  {
    var emptied := s.(queue := []);
    if s.active.Some? && s.active.value in s.runs && s.runs[s.active.value].handle
    then HandleCancelled(emptied, s.active.value)
    else PublishState(emptied)
  }

  function Cleared(s: State, suite: Suite): State {
    if s.active == Some(suite) then s
    else s.(runs := s.runs - {suite}, order := Dropped(s.order, suite))
  }

  function Dropped(order: seq<Suite>, suite: Suite): seq<Suite> {
    if order == [] then []
    else (if order[0] == suite then [] else [order[0]]) + Dropped(order[1..], suite)
  }

  /** The run is over and nothing is active. */
  function Settled(s: State, suite: Suite): State
    requires suite in s.runs
  {
    s.(runs := s.runs[suite := s.runs[suite].(finished := true, handle := false)], active := None)
  }

  /** The process of the active run ends. */
  function Finished(s: State, exitedWell: bool): State
    requires s.active.Some? && s.active.value in s.runs && s.runs[s.active.value].run < |s.history|
  {
    var suite := s.active.value;
    var stored := s.runs[suite];
    var told := Record(s, suite, Ended(exitedWell && !stored.cancelled, stored.cancelled));
    Drain(Settled(told, suite))
  }

  // ------------------------------------------------------------------ connecting

  function AsMessages(suite: Suite, run: nat, events: seq<RunEvent>): seq<Message> {
    if events == [] then [] else [OfRun(suite, run, events[0])] + AsMessages(suite, run, events[1..])
  }

  function Replay(suite: Suite, stored: Stored): seq<Message> {
    (if stored.dropped > 0 then [Shortened(suite, stored.dropped)] else [])
    + AsMessages(suite, stored.run, stored.events)
  }

  function Backlog(order: seq<Suite>, runs: map<Suite, Stored>): seq<Message>
    requires forall x :: x in order ==> x in runs
  {
    if order == [] then [] else Replay(order[0], runs[order[0]]) + Backlog(order[1..], runs)
  }

  /** What a page has been shown of one run. */
  function ShownOf(received: seq<Message>, run: nat): seq<RunEvent> {
    if received == [] then []
    else
      ShownOf(received[..|received| - 1], run)
      + match received[|received| - 1] case OfRun(_, r, event) => (if r == run then [event] else []) case _ => []
  }

  /** Where a page that has been shown `received` of the runs so far comes in on each. */
  function Entries(received: seq<Message>, history: seq<seq<RunEvent>>): seq<nat> {
    if history == [] then []
    else
      var last := |history| - 1;
      var shown := |ShownOf(received, last)|;
      Entries(received, history[..last]) + [if shown <= |history[last]| then |history[last]| - shown else 0]
  }

  function Connected(s: State): State
    requires forall x :: x in s.order ==> x in s.runs
  {
    var replay := Backlog(s.order, s.runs);
    s.(pages := s.pages + [Page(true, replay + [Told(s.active, s.queue)], Entries(replay, s.history))])
  }

  function Closed(s: State, page: nat): State
    requires page < |s.pages|
  {
    s.(pages := s.pages[page := s.pages[page].(connected := false)])
  }

  // ------------------------------------------------------------------ steps

  datatype Step =
    | Start(requested: seq<Suite>, unavailable: set<Suite>)
    | Emit(event: RunEvent)
    | End(exitedWell: bool)
    | Cancel
    | Clear(suite: Suite)
    | Connect
    | Close(page: nat)

  /** Runs have numbers of their own, and `order` lists the suites there is a run of. */
  ghost predicate Numbered(s: State) {
    && (forall x :: x in s.runs ==> s.runs[x].run < |s.history|)
    && (forall x, y :: x in s.runs && y in s.runs && x != y ==> s.runs[x].run != s.runs[y].run)
    && (forall x :: x in s.order <==> x in s.runs)
    && Once(s.order)
  }

  /** At most one run is unfinished, and it is the active one; with none, nothing waits. */
  ghost predicate OneActive(s: State) {
    && (s.active.Some? ==> s.active.value in s.runs && !s.runs[s.active.value].finished)
    && (forall x :: x in s.runs ==> (s.runs[x].handle <==> !s.runs[x].finished))
    && (forall x :: x in s.runs && !s.runs[x].finished ==> s.active == Some(x))
    && (s.active.None? ==> s.queue == [])
    && (forall x :: x in s.queue ==> x in s.known)
  }

  /** A run's log is the newest `MAX_REPLAY` of all it said, and `dropped` counts the rest. */
  ghost predicate KeepsTail(stored: Stored, history: seq<seq<RunEvent>>) {
    && stored.run < |history|
    && stored.events == Kept(history[stored.run])
    && stored.dropped + |stored.events| == |history[stored.run]|
  }

  ghost predicate Logs(s: State) {
    forall x :: x in s.runs ==> KeepsTail(s.runs[x], s.history)
  }

  function From(p: Page, n: nat): nat {
    if n < |p.from| then p.from[n] else 0
  }

  /** Run `n` as the page has seen it: from where it came in, no gap and no repeat, to the end while connected. */
  ghost predicate Follows(p: Page, history: seq<seq<RunEvent>>, n: nat) {
    var shown := ShownOf(p.received, n);
    if n < |history| then
      && From(p, n) <= |history[n]| && shown <= history[n][From(p, n)..]
      && (p.connected ==> shown == history[n][From(p, n)..])
    else shown == [] && n >= |p.from|
  }

  ghost predicate AllFollow(s: State) {
    forall i, n: nat :: 0 <= i < |s.pages| ==> Follows(s.pages[i], s.history, n)
  }

  /** The last state a page was told. */
  function LastTold(received: seq<Message>): (told: Option<Message>)
    ensures told.Some? ==> told.value.Told?
  {
    if received == [] then None
    else if received[|received| - 1].Told? then Some(received[|received| - 1])
    else LastTold(received[..|received| - 1])
  }

  /** Every connected page was last told which suite is active, and with none that nothing waits. */
  ghost predicate Informed(s: State) {
    forall p :: p in s.pages && p.connected ==>
      && LastTold(p.received).Some? && LastTold(p.received).value.active == s.active
      && (s.active.None? ==> LastTold(p.received).value.queued == [])
  }

  ghost predicate Inv(s: State) {
    Numbered(s) && OneActive(s) && Logs(s) && AllFollow(s) && Informed(s)
  }

  /** What the running process may do: say anything but its start, and end once. */
  ghost predicate Can(s: State, e: Step) {
    match e
    case Emit(event) => s.active.Some? && !event.Began? && !event.Ended?
    case End(_) => s.active.Some?
    case Close(page) => page < |s.pages|
    case _ => true
  }

  ghost function After(s: State, e: Step): State
    requires Inv(s) && Can(s, e)
  {
    match e
    case Start(requested, unavailable) => Started(s, requested, unavailable)
    case Emit(event) => Record(s, s.active.value, event)
    case End(exitedWell) => Finished(s, exitedWell)
    case Cancel => Cancelled(s)
    case Clear(suite) => Cleared(s, suite)
    case Connect => Connected(s)
    case Close(page) => Closed(s, page)
  }

  // ------------------------------------------------------------------ pages and messages

  lemma {:induction false} SentEach(pages: seq<Page>, m: Message)
    ensures |Sent(pages, m)| == |pages|
    ensures forall i :: 0 <= i < |pages| ==>
              Sent(pages, m)[i]
              == if pages[i].connected then pages[i].(received := pages[i].received + [m]) else pages[i]
  {
    if pages != [] {
      SentEach(pages[1..], m);
    }
  }

  lemma ShownMore(received: seq<Message>, m: Message, n: nat)
    ensures ShownOf(received + [m], n) == ShownOf(received, n) + if m.OfRun? && m.run == n then [m.event] else []
  {
    assert (received + [m])[..|received + [m]| - 1] == received;
  }

  lemma ToldMore(received: seq<Message>, m: Message)
    ensures LastTold(received + [m]) == if m.Told? then Some(m) else LastTold(received)
  {
    assert (received + [m])[..|received + [m]| - 1] == received;
  }

  lemma PublishFollows(s: State)
    requires AllFollow(s)
    ensures AllFollow(PublishState(s))
  {
    var m := Told(s.active, s.queue);
    SentEach(s.pages, m);
    var t := PublishState(s);
    forall i, n: nat | 0 <= i < |t.pages|
      ensures Follows(t.pages[i], t.history, n)
    {
      assert Follows(s.pages[i], s.history, n);
      ShownMore(s.pages[i].received, m, n);
    }
  }

  lemma PublishInforms(s: State)
    requires s.active.None? ==> s.queue == []
    ensures Informed(PublishState(s))
  {
    var m := Told(s.active, s.queue);
    SentEach(s.pages, m);
    var t := PublishState(s);
    forall p | p in t.pages && p.connected
      ensures LastTold(p.received) == Some(m)
    {
      var i :| 0 <= i < |t.pages| && t.pages[i] == p;
      ToldMore(s.pages[i].received, m);
    }
  }

  lemma RecordFollows(s: State, suite: Suite, event: RunEvent)
    requires Numbered(s) && AllFollow(s)
    ensures AllFollow(Record(s, suite, event))
  {
    if suite in s.runs {
      var run := s.runs[suite].run;
      var m := OfRun(suite, run, event);
      SentEach(s.pages, m);
      var t := Record(s, suite, event);
      forall i, n: nat | 0 <= i < |t.pages|
        ensures Follows(t.pages[i], t.history, n)
      {
        assert Follows(s.pages[i], s.history, n);
        ShownMore(s.pages[i].received, m, n);
        RunGrew(s.pages[i], t.pages[i], s.history, run, event, n);
      }
    }
  }

  lemma RunGrew(p: Page, q: Page, history: seq<seq<RunEvent>>, run: nat, event: RunEvent, n: nat)
    requires Follows(p, history, n) && run < |history| && q.from == p.from && q.connected == p.connected
    requires ShownOf(q.received, n)
          == ShownOf(p.received, n) + if p.connected && n == run then [event] else []
    ensures Follows(q, history[run := history[run] + [event]], n)
  {
    if n == run {
      assert (history[run] + [event])[From(p, n)..] == history[run][From(p, n)..] + [event];
    }
  }

  lemma RecordInforms(s: State, suite: Suite, event: RunEvent)
    requires Numbered(s) && Informed(s)
    ensures Informed(Record(s, suite, event))
  {
    if suite in s.runs {
      var m := OfRun(suite, s.runs[suite].run, event);
      SentEach(s.pages, m);
      var t := Record(s, suite, event);
      forall p | p in t.pages && p.connected
        ensures exists q :: q in s.pages && q.connected && LastTold(p.received) == LastTold(q.received)
      {
        var i :| 0 <= i < |t.pages| && t.pages[i] == p;
        ToldMore(s.pages[i].received, m);
        assert s.pages[i] in s.pages;
      }
    }
  }

  // ------------------------------------------------------------------ logs

  /** Keeping the tail as events come keeps the tail of them all. */
  lemma KeptAsItGrows(full: seq<RunEvent>, event: RunEvent)
    ensures Kept(Kept(full) + [event]) == Kept(full + [event])
  {
    if |full| >= MAX_REPLAY {
      var tail := Kept(full);
      assert full == full[..|full| - MAX_REPLAY] + tail;
      assert full + [event] == full[..|full| - MAX_REPLAY] + (tail + [event]);
    }
  }

  lemma StretchedKeepsTail(stored: Stored, history: seq<seq<RunEvent>>, event: RunEvent)
    requires KeepsTail(stored, history)
    ensures KeepsTail(Stretched(stored, event), history[stored.run := history[stored.run] + [event]])
    ensures Stretched(stored, event).run == stored.run
  {
    KeptAsItGrows(history[stored.run], event);
    StretchedIs(stored, event);
    hide Stretched, Kept;
  }

  lemma StretchedIs(stored: Stored, event: RunEvent)
    ensures var stretched := Stretched(stored, event);
      && stretched.run == stored.run && stretched.events == Kept(stored.events + [event])
      && |stretched.events| + stretched.dropped == |stored.events| + 1 + stored.dropped
  {
  }

  lemma RecordNumbered(s: State, suite: Suite, event: RunEvent)
    requires Numbered(s)
    ensures Numbered(Record(s, suite, event))
  {
    hide Sent;
  }

  lemma RecordLogs(s: State, suite: Suite, event: RunEvent)
    requires Numbered(s) && Logs(s)
    ensures Logs(Record(s, suite, event))
  {
    if suite in s.runs {
      StretchedKeepsTail(s.runs[suite], s.history, event);
      hide Kept, Sent, Stretched;
      var t := Record(s, suite, event);
      forall x | x in t.runs
        ensures KeepsTail(t.runs[x], t.history)
      {
        if x != suite {
          assert KeepsTail(s.runs[x], s.history);
        }
      }
    }
  }

  // ------------------------------------------------------------------ what every step keeps

  /** All of `Inv` that does not depend on what is active. */
  ghost predicate Steady(s: State) {
    Numbered(s) && Logs(s) && AllFollow(s)
  }

  lemma RecordSteady(s: State, suite: Suite, event: RunEvent)
    requires Steady(s)
    ensures Steady(Record(s, suite, event))
  {
    hide Numbered, Logs, AllFollow;
    RecordNumbered(s, suite, event);
    RecordLogs(s, suite, event);
    RecordFollows(s, suite, event);
  }

  lemma PublishSteady(s: State)
    requires Steady(s)
    ensures Steady(PublishState(s))
  {
    PublishFollows(s);
    hide AllFollow, Sent;
  }

  lemma NewRunFollows(s: State, t: State)
    requires AllFollow(s) && t.pages == s.pages && t.history == s.history + [[]]
    ensures AllFollow(t)
  {
    forall i, n: nat | 0 <= i < |t.pages|
      ensures Follows(t.pages[i], t.history, n)
    {
      assert Follows(s.pages[i], s.history, n);
      assert n == |s.history| ==> From(t.pages[i], n) == 0;
    }
  }

  lemma FreshNumbered(s: State, suite: Suite)
    requires Numbered(s)
    ensures Numbered(Fresh(s, suite))
  {
  }

  lemma FreshLogs(s: State, suite: Suite)
    requires Logs(s)
    ensures Logs(Fresh(s, suite))
  {
    var t := Fresh(s, suite);
    forall x | x in t.runs
      ensures KeepsTail(t.runs[x], t.history)
    {
      if x != suite {
        assert KeepsTail(s.runs[x], s.history);
      }
    }
  }

  lemma OpenedSteady(s: State, suite: Suite)
    requires Steady(s)
    ensures Steady(Opened(s, suite))
  {
    hide AllFollow, Numbered, Logs, PublishState;
    var t := Fresh(s, suite);
    NewRunFollows(s, t);
    FreshNumbered(s, suite);
    FreshLogs(s, suite);
    PublishSteady(t);
  }

  /** The active run is the one unfinished run. */
  ghost predicate RunsAlone(s: State, suite: Suite) {
    && s.active == Some(suite) && suite in s.runs && !s.runs[suite].finished && s.runs[suite].handle
    && forall x :: x in s.runs && x != suite ==> s.runs[x].finished && !s.runs[x].handle
  }

  ghost predicate AllFinished(s: State) {
    s.active.None? && forall x :: x in s.runs ==> s.runs[x].finished && !s.runs[x].handle
  }

  ghost predicate KnownQueue(s: State) {
    forall x :: x in s.queue ==> x in s.known
  }

  lemma OneActiveIs(s: State)
    ensures OneActive(s) <==>
            KnownQueue(s) && (if s.active.Some? then RunsAlone(s, s.active.value) else AllFinished(s) && s.queue == [])
  {
  }

  lemma RecordAlone(s: State, suite: Suite, event: RunEvent)
    requires Numbered(s) && RunsAlone(s, suite)
    ensures RunsAlone(Record(s, suite, event), suite) && Record(s, suite, event).queue == s.queue
    ensures Record(s, suite, event).known == s.known && Record(s, suite, event).begun == s.begun
    ensures Record(s, suite, event).runs[suite].cancelled == s.runs[suite].cancelled
  {
    hide Sent, Numbered;
  }

  lemma StartRunKeeps(s: State, suite: Suite)
    requires Steady(s) && AllFinished(s) && KnownQueue(s) && suite in s.known
    ensures Inv(StartRun(s, suite))
    ensures StartRun(s, suite).active == Some(suite) && StartRun(s, suite).queue == s.queue
    ensures StartRun(s, suite).known == s.known && StartRun(s, suite).begun == s.begun + [suite]
  {
    hide Steady, Numbered, Logs, AllFollow, Informed, Sent, Record;
    var t := Opened(s, suite);
    OpenedSteady(s, suite);
    OpenedInforms(s, suite);
    assert RunsAlone(t, suite);
    SteadyIs(t);
    RecordAlone(t, suite, Began);
    RecordInforms(t, suite, Began);
    RecordSteady(t, suite, Began);
    hide StartRun;
    var u := Record(t, suite, Began);
    SteadyIs(u);
    OneActiveIs(u);
    StartRunIs(s, suite);
  }

  lemma StartRunIs(s: State, suite: Suite)
    requires Steady(s) && suite in s.known
    ensures var t := Opened(s, suite);
      Numbered(t) && suite in t.runs && StartRun(s, suite) == Record(t, suite, Began)
  {
    OpenedSteady(s, suite);
    hide Numbered, Record, Sent;
  }

  lemma SteadyIs(s: State)
    ensures Steady(s) <==> Numbered(s) && Logs(s) && AllFollow(s)
  {
    hide Numbered, Logs, AllFollow;
  }

  lemma OpenedInforms(s: State, suite: Suite)
    ensures Informed(Opened(s, suite))
  {
    PublishInforms(Fresh(s, suite));
  }

  lemma DrainKeeps(s: State)
    requires Steady(s) && AllFinished(s) && KnownQueue(s)
    ensures Inv(Drain(s)) && Drain(s).known == s.known
    ensures Drain(s).begun + Drain(s).queue == s.begun + s.queue
  {
    hide Steady, Numbered, Logs, AllFollow, Informed, StartRun, Sent;
    if s.queue == [] {
      PublishSteady(s);
      PublishInforms(s);
      SteadyIs(PublishState(s));
      OneActiveIs(PublishState(s));
    } else {
      var t := s.(queue := s.queue[1..]);
      SameLogs(s, t);
      assert s.queue[0] in s.queue;
      StartRunKeeps(t, s.queue[0]);
      assert s.queue == [s.queue[0]] + s.queue[1..];
    }
  }

  /** What is queued or active does not touch the logs and the pages. */
  lemma SameLogs(s: State, t: State)
    requires Steady(s) && t == s.(queue := t.queue, active := t.active)
    ensures Steady(t)
  {
  }

  lemma {:induction false} OthersOf(requested: seq<Suite>, active: Option<Suite>)
    ensures forall x :: x in Others(requested, active) <==> x in requested && active != Some(x)
  {
    if requested != [] {
      OthersOf(requested[1..], active);
      assert requested == [requested[0]] + requested[1..];
    }
  }

  lemma StartedKeeps(s: State, requested: seq<Suite>, unavailable: set<Suite>)
    requires Inv(s)
    ensures Inv(Started(s, requested, unavailable))
  {
    hide Steady, Numbered, Logs, AllFollow, Informed, Drain, OneActive;
    if !Refused(s, requested, unavailable) {
      OthersOf(requested, s.active);
      var t := s.(queue := Others(requested, s.active));
      SteadyIs(s);
      SameLogs(s, t);
      OneActiveIs(s);
      if s.active.Some? {
        ActiveStays(s, t);
        SteadyIs(t);
        DrainIdle(t);
      } else {
        DrainKeeps(t);
      }
    }
  }

  lemma DrainIdle(s: State)
    requires s.active.Some?
    ensures Drain(s) == s
  {
  }

  lemma ActiveStays(s: State, t: State)
    requires OneActive(s) && Informed(s) && s.active.Some? && t == s.(queue := t.queue) && KnownQueue(t)
    ensures OneActive(t) && Informed(t)
  {
  }

  lemma EmitKeeps(s: State, event: RunEvent)
    requires Inv(s) && s.active.Some?
    ensures Inv(Record(s, s.active.value, event))
  {
    var suite := s.active.value;
    assert suite in s.runs && s.runs[suite].run < |s.history|;
    hide Steady, Numbered, Logs, AllFollow, Informed, Record;
    SteadyIs(s);
    OneActiveIs(s);
    RecordSteady(s, suite, event);
    RecordAlone(s, suite, event);
    RecordInforms(s, suite, event);
    SteadyIs(Record(s, suite, event));
    OneActiveIs(Record(s, suite, event));
  }

  lemma SettledIs(s: State, suite: Suite)
    requires Steady(s) && RunsAlone(s, suite) && KnownQueue(s)
    ensures Steady(Settled(s, suite)) && AllFinished(Settled(s, suite)) && KnownQueue(Settled(s, suite))
  {
    FlagsSteady(s, Settled(s, suite), suite);
    hide Steady;
  }

  lemma FinishedKeeps(s: State, exitedWell: bool)
    requires Inv(s) && s.active.Some?
    ensures Inv(Finished(s, exitedWell))
    ensures Finished(s, exitedWell).begun + Finished(s, exitedWell).queue == s.begun + s.queue
  {
    var suite := s.active.value;
    assert suite in s.runs && s.runs[suite].run < |s.history|;
    hide Steady, Numbered, Logs, AllFollow, Informed, Record, Drain, Settled, Inv;
    var stored := s.runs[suite];
    var event := Ended(exitedWell && !stored.cancelled, stored.cancelled);
    var told := Record(s, suite, event);
    InvIs(s);
    OneActiveIs(s);
    RecordSteady(s, suite, event);
    RecordAlone(s, suite, event);
    SettledIs(told, suite);
    SettledFrame(told, suite);
    DrainKeeps(Settled(told, suite));
  }

  lemma InvIs(s: State)
    ensures Inv(s) <==> Steady(s) && OneActive(s) && Informed(s)
    ensures Inv(s) ==> Numbered(s)
  {
    hide Numbered, OneActive, Logs, AllFollow, Informed;
  }

  lemma SettledFrame(s: State, suite: Suite)
    requires suite in s.runs
    ensures Settled(s, suite).begun == s.begun && Settled(s, suite).queue == s.queue
    ensures Settled(s, suite).known == s.known
  {
  }

  /** A run's flags do not touch the logs and the pages. */
  lemma FlagsSteady(s: State, t: State, suite: Suite)
    requires Steady(s) && suite in s.runs && suite in t.runs
    requires t == s.(runs := t.runs, active := t.active, queue := t.queue)
    requires t.runs == s.runs[suite := t.runs[suite]]
    requires t.runs[suite].run == s.runs[suite].run && t.runs[suite].events == s.runs[suite].events
    requires t.runs[suite].dropped == s.runs[suite].dropped
    ensures Steady(t)
  {
    hide AllFollow, Kept;
    forall x | x in t.runs
      ensures KeepsTail(t.runs[x], t.history)
    {
      assert KeepsTail(s.runs[x], s.history);
    }
    assert AllFollow(t) by {
      SamePages(s, t);
    }
  }

  lemma SamePages(s: State, t: State)
    requires AllFollow(s) && t.pages == s.pages && t.history == s.history
    ensures AllFollow(t)
  {
    forall i, n: nat | 0 <= i < |t.pages|
      ensures Follows(t.pages[i], t.history, n)
    {
      assert Follows(s.pages[i], s.history, n);
    }
  }

  lemma CancelledKeeps(s: State)
    requires Inv(s)
    ensures Inv(Cancelled(s))
  {
    var emptied := s.(queue := []);
    SteadyIs(s);
    SameLogs(s, emptied);
    OneActiveIs(s);
    if s.active.Some? {
      var suite := s.active.value;
      assert suite in s.runs && s.runs[suite].run < |s.history|;
      hide Steady, Numbered, Logs, AllFollow, OneActive, Informed, Record;
      ActiveStays(s, emptied);
      SteadyIs(emptied);
      if !s.runs[suite].cancelled {
        var marked := emptied.(runs := s.runs[suite := s.runs[suite].(cancelled := true)]);
        FlagsSteady(emptied, marked, suite);
        MarkedStays(emptied, marked);
        SteadyIs(marked);
        EmitKeeps(marked, Line(""));
        var noted := Record(marked, suite, Line(""));
        RecordStaysActive(marked, suite, Line(""));
        EmitKeeps(noted, Line(CANCEL_NOTE));
      }
    } else {
      hide Numbered, Logs, AllFollow, Informed, Record;
      PublishSteady(emptied);
      PublishInforms(emptied);
    }
  }

  lemma MarkedStays(s: State, t: State)
    requires OneActive(s) && Informed(s) && s.active.Some? && s.active.value in s.runs
    requires t == s.(runs := s.runs[s.active.value := s.runs[s.active.value].(cancelled := true)])
    ensures OneActive(t) && Informed(t)
  {
  }

  lemma RecordStaysActive(s: State, suite: Suite, event: RunEvent)
    requires Numbered(s) && suite in s.runs
    ensures Record(s, suite, event).active == s.active && suite in Record(s, suite, event).runs
  {
    hide Sent, Numbered;
  }

  lemma {:induction false} DroppedIs(order: seq<Suite>, suite: Suite)
    ensures forall x :: x in Dropped(order, suite) <==> x in order && x != suite
  {
    if order != [] {
      DroppedIs(order[1..], suite);
      assert order == [order[0]] + order[1..];
    }
  }

  ghost predicate Once(order: seq<Suite>) {
    forall j, k :: 0 <= j < k < |order| ==> order[j] != order[k]
  }

  lemma OnceCons(x: Suite, order: seq<Suite>)
    requires Once(order) && x !in order
    ensures Once([x] + order)
  {
  }

  lemma {:induction false} DroppedDistinct(order: seq<Suite>, suite: Suite)
    requires Once(order)
    ensures Once(Dropped(order, suite))
  {
    if order != [] {
      DroppedDistinct(order[1..], suite);
      DroppedIs(order[1..], suite);
      assert order[0] !in order[1..];
      if order[0] != suite {
        OnceCons(order[0], Dropped(order[1..], suite));
      }
    }
  }

  lemma ClearedNumbered(s: State, suite: Suite)
    requires Numbered(s)
    ensures Numbered(s.(runs := s.runs - {suite}, order := Dropped(s.order, suite)))
  {
    DroppedIs(s.order, suite);
    DroppedDistinct(s.order, suite);
    hide Dropped;
  }

  lemma ClearedActive(s: State, t: State, suite: Suite)
    requires OneActive(s) && s.active != Some(suite)
    requires t == s.(runs := s.runs - {suite}, order := t.order)
    ensures OneActive(t)
  {
  }

  lemma ClearedLogs(s: State, t: State, suite: Suite)
    requires Logs(s) && t.runs == s.runs - {suite} && t.history == s.history
    ensures Logs(t)
  {
    hide KeepsTail;
  }

  lemma ClearedKeeps(s: State, suite: Suite)
    requires Inv(s)
    ensures Inv(Cleared(s, suite))
  {
    if s.active != Some(suite) {
      var t := Cleared(s, suite);
      hide AllFollow, Informed, Numbered, Dropped, Logs, OneActive;
      ClearedNumbered(s, suite);
      ClearedActive(s, t, suite);
      ClearedLogs(s, t, suite);
      SamePages(s, t);
      InformedStill(s, t);
    }
  }

  lemma InformedStill(s: State, t: State)
    requires Informed(s) && t.pages == s.pages && t.active == s.active
    ensures Informed(t)
  {
  }

  // ------------------------------------------------------------------ a page connecting

  lemma {:induction false} ShownConcat(a: seq<Message>, b: seq<Message>, n: nat)
    ensures ShownOf(a + b, n) == ShownOf(a, n) + ShownOf(b, n)
  {
    if b == [] {
      assert a + b == a;
    } else {
      assert (a + b)[..|a + b| - 1] == a + b[..|b| - 1];
      ShownConcat(a, b[..|b| - 1], n);
    }
  }

  lemma {:induction false} ReplayShows(suite: Suite, run: nat, events: seq<RunEvent>, n: nat)
    ensures ShownOf(AsMessages(suite, run, events), n) == if n == run then events else []
  {
    if events != [] {
      hide ShownOf;
      var first := OfRun(suite, run, events[0]);
      ReplayShows(suite, run, events[1..], n);
      ShownConcat([first], AsMessages(suite, run, events[1..]), n);
      ShownOne(first, n);
      assert [events[0]] + events[1..] == events;
    }
  }

  lemma ShownOne(m: Message, n: nat)
    ensures ShownOf([m], n) == if m.OfRun? && m.run == n then [m.event] else []
  {
    assert [m][..0] == [];
  }

  lemma EntryShows(suite: Suite, stored: Stored, n: nat)
    ensures ShownOf(Replay(suite, stored), n) == if n == stored.run then stored.events else []
  {
    var note := if stored.dropped > 0 then [Shortened(suite, stored.dropped)] else [];
    ShownConcat(note, AsMessages(suite, stored.run, stored.events), n);
    ReplayShows(suite, stored.run, stored.events, n);
    if stored.dropped > 0 {
      ShownOne(note[0], n);
    }
  }

  /** The replay shows each kept run's log, once, and nothing else. */
  lemma {:induction false} BacklogShows(order: seq<Suite>, runs: map<Suite, Stored>, n: nat)
    requires forall x :: x in order ==> x in runs
    requires Once(order)
    requires forall x, y :: x in runs && y in runs && x != y ==> runs[x].run != runs[y].run
    ensures forall x :: x in order && runs[x].run == n ==> ShownOf(Backlog(order, runs), n) == runs[x].events
    ensures (forall x :: x in order ==> runs[x].run != n) ==> ShownOf(Backlog(order, runs), n) == []
  {
    if order != [] {
      BacklogShows(order[1..], runs, n);
      EntryShows(order[0], runs[order[0]], n);
      ShownConcat(Replay(order[0], runs[order[0]]), Backlog(order[1..], runs), n);
      assert order == [order[0]] + order[1..] && order[0] !in order[1..];
    }
  }

  lemma {:induction false} EntriesAt(received: seq<Message>, history: seq<seq<RunEvent>>, n: nat)
    requires n < |history|
    ensures |Entries(received, history)| == |history|
    ensures var shown := |ShownOf(received, n)|;
      Entries(received, history)[n] == if shown <= |history[n]| then |history[n]| - shown else 0
  {
    var last := |history| - 1;
    if n < last {
      EntriesAt(received, history[..last], n);
    } else {
      EntriesLength(received, history[..last]);
    }
  }

  lemma {:induction false} EntriesLength(received: seq<Message>, history: seq<seq<RunEvent>>)
    ensures |Entries(received, history)| == |history|
  {
    if history != [] {
      EntriesLength(received, history[..|history| - 1]);
    }
  }

  lemma NewPageFollows(s: State, n: nat)
    requires Numbered(s) && Logs(s)
    ensures var replay := Backlog(s.order, s.runs);
      Follows(Page(true, replay + [Told(s.active, s.queue)], Entries(replay, s.history)), s.history, n)
  {
    hide Backlog, ShownOf, Entries, Kept;
    var replay := Backlog(s.order, s.runs);
    BacklogShows(s.order, s.runs, n);
    ShownMore(replay, Told(s.active, s.queue), n);
    EntriesLength(replay, s.history);
    if n < |s.history| {
      EntriesAt(replay, s.history, n);
      if x :| x in s.order && s.runs[x].run == n {
        assert KeepsTail(s.runs[x], s.history);
        KeptIsSuffix(s.history[n]);
      } else {
        assert s.history[n][|s.history[n]|..] == [];
      }
    }
  }

  lemma KeptIsSuffix(events: seq<RunEvent>)
    ensures Kept(events) == events[|events| - |Kept(events)|..]
  {
  }

  lemma ConnectedFollows(s: State)
    requires Numbered(s) && Logs(s) && AllFollow(s)
    ensures AllFollow(Connected(s))
  {
    var t := Connected(s);
    hide Backlog, Entries, Numbered, Logs, Follows;
    forall i, n: nat | 0 <= i < |t.pages|
      ensures Follows(t.pages[i], t.history, n)
    {
      if i < |s.pages| {
        assert Follows(s.pages[i], s.history, n);
      } else {
        NewPageFollows(s, n);
      }
    }
  }

  lemma ConnectedInforms(s: State)
    requires Numbered(s) && OneActive(s) && Informed(s)
    ensures Informed(Connected(s))
  {
    ToldMore(Backlog(s.order, s.runs), Told(s.active, s.queue));
    hide Backlog, Entries, LastTold;
  }

  lemma ConnectedKeeps(s: State)
    requires Inv(s)
    ensures Inv(Connected(s))
  {
    ConnectedFollows(s);
    ConnectedInforms(s);
    OtherPages(s, Connected(s));
    hide *;
    InvOf(Connected(s));
  }

  /** Who listens is nothing to the runs and their logs. */
  lemma OtherPages(s: State, t: State)
    requires Inv(s) && t == s.(pages := t.pages)
    ensures Numbered(t) && OneActive(t) && Logs(t)
  {
    hide AllFollow, Informed;
  }

  lemma InvOf(s: State)
    requires Numbered(s) && OneActive(s) && Logs(s) && AllFollow(s) && Informed(s)
    ensures Inv(s)
  {
  }

  lemma ClosedKeeps(s: State, page: nat)
    requires Inv(s) && page < |s.pages|
    ensures Inv(Closed(s, page))
  {
    var t := Closed(s, page);
    forall i, n: nat | 0 <= i < |t.pages|
      ensures Follows(t.pages[i], t.history, n)
    {
      assert Follows(s.pages[i], s.history, n);
    }
    assert AllFollow(t) && Informed(t);
    hide AllFollow, Informed;
  }

  // ------------------------------------------------------------------ every run of the server

  lemma StepKeeps(s: State, e: Step)
    requires Inv(s) && Can(s, e)
    ensures Inv(After(s, e))
  {
    hide Inv, Started, Record, Finished, Cancelled, Cleared, Connected, Closed;
    match e
    case Start(requested, unavailable) => StartedKeeps(s, requested, unavailable);
    case Emit(event) => EmitKeeps(s, event);
    case End(exitedWell) => FinishedKeeps(s, exitedWell);
    case Cancel => CancelledKeeps(s);
    case Clear(suite) => ClearedKeeps(s, suite);
    case Connect => ConnectedKeeps(s);
    case Close(page) => ClosedKeeps(s, page);
  }

  ghost predicate Valid(s: State, run: seq<Step>)
    requires Inv(s)
    decreases |run|
  {
    run == [] || (Can(s, run[0]) && (StepKeeps(s, run[0]); Valid(After(s, run[0]), run[1..])))
  }

  ghost function Run(s: State, run: seq<Step>): (t: State)
    requires Inv(s) && Valid(s, run)
    ensures Inv(t)
    decreases |run|
  {
    if run == [] then s
    else
      StepKeeps(s, run[0]);
      Run(After(s, run[0]), run[1..])
  }

  function Server(known: set<Suite>): (s: State)
    ensures Inv(s)
  {
    State(known, None, [], [], map[], [], [], [])
  }

  /**
    Whatever pages, requests and processes do: at most one run is unfinished, and it is the
    active one; each log is the newest 4000 of all its run said, and `dropped` the rest.
    */
  lemma OneRunAndItsTail(known: set<Suite>, run: seq<Step>)
    requires Valid(Server(known), run)
    ensures var s := Run(Server(known), run);
      && (forall x, y :: x in s.runs && y in s.runs && !s.runs[x].finished && !s.runs[y].finished ==> x == y)
      && (forall x :: x in s.runs ==> (!s.runs[x].finished <==> s.active == Some(x)))
      && (s.active.Some? ==> s.active.value in s.runs) && (s.active.None? ==> s.queue == [])
      && forall x :: x in s.runs ==> KeepsTail(s.runs[x], s.history)
  {
    hide Run, Valid, KeepsTail, Numbered, AllFollow, Informed;
  }

  /**
    A page that has connected at any point has been shown, of every run, an unbroken stretch of
    what the run said, beginning where the log kept at that moment began: to the very end while
    it stays connected, and from the run's beginning when the run began after the page came.
    */
  lemma PageSeesEverythingAfter(known: set<Suite>, run: seq<Step>, page: nat, n: nat)
    requires Valid(Server(known), run)
    requires page < |Run(Server(known), run).pages| && n < |Run(Server(known), run).history|
    ensures var s := Run(Server(known), run); var p := s.pages[page]; var shown := ShownOf(p.received, n);
      && From(p, n) <= |s.history[n]| && shown <= s.history[n][From(p, n)..]
      && (p.connected ==> shown == s.history[n][From(p, n)..])
      && (n >= |p.from| ==> From(p, n) == 0)
  {
    hide Run, Valid, KeepsTail, Numbered, OneActive, Informed, ShownOf;
    var s := Run(Server(known), run);
    assert Follows(s.pages[page], s.history, n);
  }

  /** A page connecting is shown exactly the log kept of each run there is, and of no other. */
  lemma ConnectingReplaysTheLog(s: State, n: nat)
    requires Inv(s) && n < |s.history|
    ensures var p := Connected(s).pages[|s.pages|];
      && (forall x :: x in s.runs && s.runs[x].run == n ==> ShownOf(p.received, n) == s.runs[x].events)
      && ((forall x :: x in s.runs ==> s.runs[x].run != n) ==> ShownOf(p.received, n) == [])
  {
    var replay := Backlog(s.order, s.runs);
    BacklogShows(s.order, s.runs, n);
    ShownMore(replay, Told(s.active, s.queue), n);
  }

  /** A connected page was last told the suite that is active, whatever the queue has become since. */
  lemma PagesKnowTheActive(known: set<Suite>, run: seq<Step>, page: nat)
    requires Valid(Server(known), run)
    requires page < |Run(Server(known), run).pages| && Run(Server(known), run).pages[page].connected
    ensures var s := Run(Server(known), run); var told := LastTold(s.pages[page].received);
      told.Some? && told.value.active == s.active && (s.active.None? ==> told.value.queued == s.queue == [])
  {
    hide Run, Valid, KeepsTail, Numbered, AllFollow, LastTold;
    var s := Run(Server(known), run);
    assert s.pages[page] in s.pages;
  }

  ghost predicate LeavesQueue(e: Step) {
    !e.Start? && !e.Cancel?
  }

  lemma RecordQueue(s: State, suite: Suite, event: RunEvent)
    requires suite in s.runs ==> s.runs[suite].run < |s.history|
    ensures Record(s, suite, event).begun == s.begun && Record(s, suite, event).queue == s.queue
  {
  }

  lemma QueueStep(s: State, e: Step)
    requires Inv(s) && Can(s, e) && LeavesQueue(e)
    ensures After(s, e).begun + After(s, e).queue == s.begun + s.queue
  {
    hide Inv, Record, Finished;
    InvIs(s);
    if e.End? {
      FinishedKeeps(s, e.exitedWell);
    } else if e.Emit? {
      ActiveNumbered(s);
      RecordQueue(s, s.active.value, e.event);
    }
  }

  lemma ActiveNumbered(s: State)
    requires Inv(s) && s.active.Some?
    ensures s.active.value in s.runs && s.runs[s.active.value].run < |s.history|
  {
  }

  /** Until the next request, what is queued begins in order, each once, and nothing else begins. */
  lemma {:induction false} QueueRunsInOrder(s: State, run: seq<Step>)
    requires Inv(s) && Valid(s, run) && forall e :: e in run ==> LeavesQueue(e)
    ensures Run(s, run).begun + Run(s, run).queue == s.begun + s.queue
    decreases |run|
  {
    hide Inv, After, Can;
    if run != [] {
      InvIs(s);
      StepKeeps(s, run[0]);
      QueueStep(s, run[0]);
      QueueRunsInOrder(After(s, run[0]), run[1..]);
    }
  }

  /**
    A request replaces what waits: with nothing active the first begins at once, and a suite
    active when the request came is not queued by it. While one is active no page is told of the new queue;
    only the answer to the request carries it.
    */
  lemma RequestReplacesQueue(s: State, requested: seq<Suite>, unavailable: set<Suite>)
    requires Inv(s)
    ensures var t := Started(s, requested, unavailable);
      if Refused(s, requested, unavailable) then t == s
      else t.begun + t.queue == s.begun + Others(requested, s.active)
           && (s.active.Some? ==> t.active == s.active && t.begun == s.begun && t.pages == s.pages)
           && (s.active.None? ==> t.active == Some(requested[0]))
  {
    hide Steady, Numbered, Logs, AllFollow, Informed;
    if !Refused(s, requested, unavailable) {
      OthersOf(requested, s.active);
      var t := s.(queue := Others(requested, s.active));
      InvIs(s);
      SameLogs(s, t);
      OneActiveIs(s);
      if s.active.None? {
        hide StartRun;
        StartRunKeepsQueue(t);
        DrainKeeps(t);
      }
    }
  }

  lemma StartRunKeepsQueue(s: State)
    requires Steady(s) && AllFinished(s) && KnownQueue(s) && s.queue != []
    ensures Drain(s).active == Some(s.queue[0])
  {
    hide Steady, StartRun;
    var t := s.(queue := s.queue[1..]);
    SameLogs(s, t);
    assert s.queue[0] in s.queue;
    StartRunKeeps(t, s.queue[0]);
  }

  // ------------------------------------------------------------------ as the program runs it

  datatype Listener = Listener(connected: bool, received: seq<Message>)

  ghost function AsPages(listeners: seq<Listener>, from: seq<seq<nat>>): (pages: seq<Page>)
    requires |listeners| == |from|
    ensures |pages| == |listeners|
  {
    if listeners == [] then []
    else
      AsPages(listeners[..|listeners| - 1], from[..|from| - 1])
      + [Page(listeners[|listeners| - 1].connected, listeners[|listeners| - 1].received, from[|from| - 1])]
  }

  lemma {:induction false} AsPagesEach(listeners: seq<Listener>, from: seq<seq<nat>>)
    requires |listeners| == |from|
    ensures |AsPages(listeners, from)| == |listeners|
    ensures forall i :: 0 <= i < |listeners| ==>
              AsPages(listeners, from)[i] == Page(listeners[i].connected, listeners[i].received, from[i])
  {
    if listeners != [] {
      AsPagesEach(listeners[..|listeners| - 1], from[..|from| - 1]);
    }
  }

  lemma PageAdded(listeners: seq<Listener>, from: seq<seq<nat>>, l: Listener, f: seq<nat>)
    requires |listeners| == |from|
    ensures AsPages(listeners + [l], from + [f]) == AsPages(listeners, from) + [Page(l.connected, l.received, f)]
  {
    assert (listeners + [l])[..|listeners|] == listeners && (from + [f])[..|from|] == from;
  }

  /** `next` is what becomes of `was` when `m` is sent to every listener still connected. */
  ghost predicate ToldEach(was: seq<Listener>, next: seq<Listener>, m: Message) {
    && |next| == |was|
    && forall i :: 0 <= i < |was| ==>
         next[i] == if was[i].connected then was[i].(received := was[i].received + [m]) else was[i]
  }

  lemma ToldEachIsSent(was: seq<Listener>, next: seq<Listener>, from: seq<seq<nat>>, m: Message)
    requires |was| == |from| && ToldEach(was, next, m)
    ensures AsPages(next, from) == Sent(AsPages(was, from), m)
  {
    AsPagesEach(was, from);
    AsPagesEach(next, from);
    SentEach(AsPages(was, from), m);
  }

  class DevTools {
    const known: set<Suite>
    var active: Option<Suite>
    var queue: seq<Suite>
    var order: seq<Suite>
    var runs: map<Suite, Stored>
    var listeners: seq<Listener>
    ghost var history: seq<seq<RunEvent>>
    ghost var begun: seq<Suite>
    ghost var entries: seq<seq<nat>>
    /** Numbers the runs, as `Stored.run` does. */
    var runsBegun: nat

    constructor (suites: set<Suite>)
      ensures Valid() && View() == Server(suites)
    {
      known := suites;
      active, queue, order, runs, listeners, history, begun, entries := None, [], [], map[], [], [], [], [];
      runsBegun := 0;
    }

    ghost predicate Valid()
      reads this
    {
      |listeners| == |entries| && runsBegun == |history|
    }

    ghost function View(): State
      reads this
      requires Valid()
    {
      State(known, active, queue, order, runs, AsPages(listeners, entries), history, begun)
    }

    method Tell(m: Message)
      requires Valid()
      modifies `listeners
      ensures Valid() && View() == Broadcast(old(View()), m)
    {
      ghost var was := listeners;
      var i := 0;
      while i < |listeners|
        invariant 0 <= i <= |listeners| == |was|
        invariant forall k :: i <= k < |was| ==> listeners[k] == was[k]
        invariant forall k :: 0 <= k < i ==>
                    listeners[k] == if was[k].connected then was[k].(received := was[k].received + [m]) else was[k]
      {
        if listeners[i].connected {
          listeners := listeners[i := listeners[i].(received := listeners[i].received + [m])];
        }
        i := i + 1;
      }
      ToldEachIsSent(was, listeners, entries, m);
    }

    method TellState()
      requires Valid()
      modifies `listeners
      ensures Valid() && View() == PublishState(old(View()))
    {
      Tell(Told(active, queue));
    }

    /** One event of a run: into its log, the oldest dropped past the cap, and out to every page. */
    method Log(suite: Suite, event: RunEvent)
      requires Valid() && (suite in runs ==> runs[suite].run < |history|)
      modifies `listeners, `runs, `history
      ensures Valid() && View() == Record(old(View()), suite, event)
    {
      if suite !in runs {
        return;
      }
      var stored := runs[suite];
      stored := stored.(events := stored.events + [event]);
      if |stored.events| > MAX_REPLAY {
        stored := stored.(dropped := stored.dropped + (|stored.events| - MAX_REPLAY));
        stored := stored.(events := stored.events[|stored.events| - MAX_REPLAY..]);
      }
      runs := runs[suite := stored];
      history := history[stored.run := history[stored.run] + [event]];
      Tell(OfRun(suite, stored.run, event));
    }

    method BeginRun(suite: Suite)
      requires Valid() && Steady(View()) && suite in known
      modifies this
      ensures Valid() && View() == StartRun(old(View()), suite)
    {
      hide Sent, KeepsTail, AllFollow, AsPages;
      if suite !in runs {
        order := order + [suite];
      }
      runs := runs[suite := Stored(runsBegun, [], 0, false, true, false)];
      runsBegun := runsBegun + 1;
      history := history + [[]];
      begun := begun + [suite];
      active := Some(suite);
      TellState();
      Log(suite, Began);
    }

    method Advance()
      requires Valid() && Steady(View()) && KnownQueue(View())
      modifies this
      ensures Valid() && View() == Drain(old(View()))
    {
      hide StartRun, PublishState, Steady;
      if active.Some? {
        return;
      }
      if |queue| == 0 {
        TellState();
        return;
      }
      var next := queue[0];
      assert next in queue;
      ghost var was := View();
      queue := queue[1..];
      SameLogs(was, View());
      BeginRun(next);
    }

    /** The active run's process ends. */
    method OnEnd(exitedWell: bool)
      requires Valid() && Inv(View()) && active.Some?
      modifies this
      ensures Valid() && View() == After(old(View()), End(exitedWell))
    {
      ghost var was := View();
      ActiveNumbered(was);
      hide Inv, Record, Steady, Drain, AsPages;
      var suite := active.value;
      var cancelled := runs[suite].cancelled;
      Log(suite, Ended(exitedWell && !cancelled, cancelled));
      EndedSteady(was, View(), Ended(exitedWell && !cancelled, cancelled));
      hide KnownQueue, After, Finished, Settled;
      EndIs(was, exitedWell);
      Settle(suite);
      Advance();
    }

    method Settle(suite: Suite)
      requires Valid() && suite in runs
      modifies `runs, `active
      ensures Valid() && View() == Settled(old(View()), suite)
    {
      runs := runs[suite := runs[suite].(finished := true, handle := false)];
      active := None;
    }

    method OnEvent(event: RunEvent)
      requires Valid() && Inv(View()) && active.Some? && !event.Began? && !event.Ended?
      modifies this
      ensures Valid() && View() == After(old(View()), Emit(event))
    {
      ActiveNumbered(View());
      hide Inv, Record, AsPages;
      Log(active.value, event);
    }

    /** The suites asked for, without the active one. */
    method AllBut(requested: seq<Suite>, active: Option<Suite>) returns (waiting: seq<Suite>)
      ensures waiting == Others(requested, active)
    {
      waiting := [];
      assert requested[0..] == requested;
      for i := 0 to |requested|
        invariant waiting + Others(requested[i..], active) == Others(requested, active)
      {
        assert requested[i..][1..] == requested[i + 1..];
        if active != Some(requested[i]) {
          waiting := waiting + [requested[i]];
        }
      }
      assert waiting + [] == waiting;
    }

    method OnStart(requested: seq<Suite>, unavailable: set<Suite>) returns (ok: bool)
      requires Valid() && Inv(View())
      modifies this
      ensures Valid() && View() == After(old(View()), Start(requested, unavailable))
      ensures ok <==> !Refused(old(View()), requested, unavailable)
    {
      hide Inv, Drain, Steady, AsPages;
      ghost var was := View();
      if |requested| == 0 || exists id :: id in requested && (id !in known || id in unavailable) {
        return false;
      }
      queue := AllBut(requested, active);
      OthersOf(requested, active);
      InvIs(was);
      SameLogs(was, View());
      Advance();
      ok := true;
    }

    method OnCancel()
      requires Valid() && Inv(View())
      modifies this
      ensures Valid() && View() == After(old(View()), Cancel)
    {
      ghost var was := View();
      hide Inv, Record, AsPages, PublishState;
      InvIs(was);
      CancelIs(was);
      queue := [];
      if active.Some? && active.value in runs && runs[active.value].handle {
        var suite := active.value;
        hide After, Cancelled, Numbered;
        CancelHandle(suite);
      } else {
        TellState();
      }
    }

    /** The run's handle: once, and only a note in the log. */
    method CancelHandle(suite: Suite)
      requires Valid() && Numbered(View()) && suite in runs
      modifies `runs, `listeners, `history
      ensures Valid() && runs.Keys == old(runs).Keys
      ensures suite in old(runs) && old(runs)[suite].run < |old(history)|
      ensures View() == HandleCancelled(old(View()), suite)
    {
      hide AsPages, Record;
      if !runs[suite].cancelled {
        runs := runs[suite := runs[suite].(cancelled := true)];
        RecordKeys(View(), suite, Line(""));
        Log(suite, Line(""));
        RecordKeys(View(), suite, Line(CANCEL_NOTE));
        Log(suite, Line(CANCEL_NOTE));
      }
    }

    method OnClear(suite: Suite) returns (ok: bool)
      requires Valid() && Inv(View())
      modifies `runs, `order
      ensures Valid() && View() == After(old(View()), Clear(suite))
      ensures ok <==> old(active) != Some(suite)
    {
      hide Inv;
      if active == Some(suite) {
        return false;
      }
      runs := runs - {suite};
      order := Dropped(order, suite);
      ok := true;
    }

    /** What a page connecting now is handed first. */
    method Replayed() returns (received: seq<Message>)
      requires forall x :: x in order ==> x in runs
      ensures received == Backlog(order, runs)
    {
      hide Replay;
      received := [];
      assert order[0..] == order;
      for i := 0 to |order|
        invariant received + Backlog(order[i..], runs) == Backlog(order, runs)
      {
        assert order[i..][1..] == order[i + 1..];
        received := received + Replay(order[i], runs[order[i]]);
      }
      assert received + [] == received;
    }

    /** Backlog first, then live, with nothing in between. */
    method OnConnect() returns (page: nat)
      requires Valid() && Inv(View())
      modifies `listeners, `entries
      ensures Valid() && View() == After(old(View()), Connect)
      ensures page == |old(listeners)|
    {
      ghost var was := View();
      OrderIsKept(was);
      hide Inv, Backlog, Entries, AsPages;
      var received := Replayed();
      page := |listeners|;
      PageAdded(listeners, entries, Listener(true, received + [Told(active, queue)]), Entries(received, history));
      listeners := listeners + [Listener(true, received + [Told(active, queue)])];
      entries := entries + [Entries(received, history)];
    }

    method OnClose(page: nat)
      requires Valid() && Inv(View()) && page < |listeners|
      modifies `listeners
      ensures Valid() && View() == After(old(View()), Close(page))
    {
      hide Inv;
      ghost var was := View();
      AsPagesEach(listeners, entries);
      listeners := listeners[page := listeners[page].(connected := false)];
      AsPagesEach(listeners, entries);
      assert View().pages == was.pages[page := was.pages[page].(connected := false)];
    }
  }

  /** What a cancel comes to. */
  lemma CancelIs(s: State)
    requires Inv(s)
    ensures forall x :: x in s.runs ==> s.runs[x].run < |s.history|
    ensures After(s, Cancel) == Cancelled(s)
  {
    hide AllFollow, Informed, Logs;
  }

  lemma RecordKeys(s: State, suite: Suite, event: RunEvent)
    requires suite in s.runs && s.runs[suite].run < |s.history|
    ensures var t := Record(s, suite, event);
      t.runs.Keys == s.runs.Keys && t.runs[suite].run == s.runs[suite].run && |t.history| == |s.history|
  {
    hide Sent;
  }

  lemma OrderIsKept(s: State)
    requires Inv(s)
    ensures (forall x :: x in s.order ==> x in s.runs) && After(s, Connect) == Connected(s)
  {
    hide AllFollow, Informed, Logs, Backlog, Entries;
  }

  /** What the end of the active run's process comes to. */
  lemma EndIs(s: State, exitedWell: bool)
    requires Inv(s) && s.active.Some?
    ensures s.active.value in s.runs && s.runs[s.active.value].run < |s.history|
    ensures var stored := s.runs[s.active.value];
      var told := Record(s, s.active.value, Ended(exitedWell && !stored.cancelled, stored.cancelled));
      s.active.value in told.runs && After(s, End(exitedWell)) == Drain(Settled(told, s.active.value))
  {
    hide AllFollow, Informed, Logs, Drain, Sent, Settled;
  }

  lemma EndedSteady(s: State, told: State, event: RunEvent)
    requires Inv(s) && s.active.Some? && Numbered(s) && s.active.value in s.runs
    requires told == Record(s, s.active.value, event)
    ensures s.active.value in told.runs && told.runs[s.active.value].cancelled == s.runs[s.active.value].cancelled
    ensures Steady(Settled(told, s.active.value)) && KnownQueue(Settled(told, s.active.value))
  {
    var suite := s.active.value;
    InvIs(s);
    OneActiveIs(s);
    hide Inv, Record, Steady, Numbered;
    RecordSteady(s, suite, event);
    RecordAlone(s, suite, event);
    SettledIs(told, suite);
  }
}
