/**
  The Sessions page's polling stream: listeners come and go, a clock runs while there are
  any, and a reading of the transcripts may be under way through all of it.
  */
module SessionsStream {
  import opened Options

  /**
    A reading as it is sent. Two with one `key` are the same reading but for their clock.
    `begun` is bookkeeping: how many times the clock had been started when the reading began.
    */
  datatype Reading = Reading(key: string, begun: nat)

  /** One call of `subscribe`: whether it still listens, and what it has been sent. */
  datatype Listener = Listener(listening: bool, got: seq<Reading>)

  /**
    `reading` is set while one is under way, to the `begun` it will carry. The last three are
    bookkeeping: how often the clock was started, what has been sent since it last was, and
    whether a reading was under way at that moment.
    */
  datatype Stream = Stream(
    listeners: seq<Listener>, timer: bool, last: Option<Reading>, reading: Option<nat>,
    starts: nat, changes: seq<Reading>, inherited: bool)

  const IDLE := Stream([], false, None, None, 0, [], false)

  predicate Listening(listeners: seq<Listener>) {
    exists i :: 0 <= i < |listeners| && listeners[i].listening
  }

  /** The part of `tick` before the reading is awaited: one at a time. */
  function Begun(s: Stream): Stream {
    if s.reading.Some? then s else s.(reading := Some(s.starts))
  }

  function SentTo(listeners: seq<Listener>, r: Reading): seq<Listener> {
    if listeners == [] then []
    else
      [if listeners[0].listening then listeners[0].(got := listeners[0].got + [r]) else listeners[0]]
      + SentTo(listeners[1..], r)
  }

  /** The rest of `tick`: nobody is told when everybody has left, or when nothing changed. */
  function Ended(s: Stream, key: string): Stream
    requires s.reading.Some?
  {
    var r := Reading(key, s.reading.value);
    var idle := s.(reading := None);
    if !s.timer || (s.last.Some? && s.last.value.key == key) then idle
    else idle.(last := Some(r), listeners := SentTo(s.listeners, r), changes := s.changes + [r])
  }

  function Subscribed(s: Stream): Stream {
    var joined := s.(listeners := s.listeners + [Listener(true, if s.last.Some? then [s.last.value] else [])]);
    if s.timer then joined
    else Begun(joined.(timer := true, starts := s.starts + 1, changes := [], inherited := s.reading.Some?))
  }

  function Stopped(s: Stream): Stream {
    s.(timer := false, last := None)
  }

  function Left(s: Stream, i: nat): Stream
    requires i < |s.listeners|
  {
    var left := s.(listeners := s.listeners[i := s.listeners[i].(listening := false)]);
    if Listening(left.listeners) then left else Stopped(left)
  }

  function Deaf(listeners: seq<Listener>): seq<Listener> {
    if listeners == [] then [] else [listeners[0].(listening := false)] + Deaf(listeners[1..])
  }

  function Closed(s: Stream): Stream {
    Stopped(s.(listeners := Deaf(s.listeners)))
  }

  datatype Step = Subscribe | Leave(i: nat) | Close | ClockTicks | ReadingEnds(key: string)

  predicate Can(s: Stream, e: Step) {
    match e
    case Leave(i) => i < |s.listeners|
    case ClockTicks => s.timer
    case ReadingEnds(_) => s.reading.Some?
    case _ => true
  }

  function After(s: Stream, e: Step): Stream
    requires Can(s, e)
  {
    match e
    case Subscribe => Subscribed(s)
    case Leave(i) => Left(s, i)
    case Close => Closed(s)
    case ClockTicks => Begun(s)
    case ReadingEnds(key) => Ended(s, key)
  }

  ghost predicate Valid(s: Stream, run: seq<Step>)
    decreases |run|
  {
    run == [] || (Can(s, run[0]) && Valid(After(s, run[0]), run[1..]))
  }

  ghost function Run(s: Stream, run: seq<Step>): Stream
    requires Valid(s, run)
    decreases |run|
  {
    if run == [] then s else Run(After(s, run[0]), run[1..])
  }

  // ------------------------------------------------------------------ what every step keeps

  ghost predicate NoRepeats(got: seq<Reading>) {
    forall k :: 0 <= k < |got| - 1 ==> got[k].key != got[k + 1].key
  }

  /** A listener has been sent the newest of the changes since the clock was started, and no others. */
  ghost predicate InStep(l: Listener, changes: seq<Reading>) {
    && |l.got| <= |changes| && l.got == changes[|changes| - |l.got|..]
    && (changes != [] ==> l.got != [])
  }

  ghost predicate Inv(s: Stream) {
    && (s.timer <==> Listening(s.listeners))
    && (s.last.Some? ==> s.timer)
    && (s.timer ==> s.last == (if s.changes == [] then None else Some(s.changes[|s.changes| - 1])))
    && (s.reading.Some? ==> s.reading.value <= s.starts)
    && NoRepeats(s.changes)
    && (forall i :: 0 <= i < |s.listeners| ==> NoRepeats(s.listeners[i].got))
    && (forall i :: 0 <= i < |s.listeners| && s.listeners[i].listening ==> InStep(s.listeners[i], s.changes))
  }

  /** Readings sent since the clock was started began since then too, but for one that was under way. */
  ghost predicate Dated(s: Stream) {
    && (forall k :: 0 < k < |s.changes| ==> s.changes[k].begun == s.starts)
    && (s.changes != [] ==> (s.changes[0].begun < s.starts <==> s.inherited) && s.changes[0].begun <= s.starts)
    && (s.timer && s.reading.Some? ==> (s.reading.value < s.starts <==> s.inherited && s.changes == []))
    && (s.timer && s.changes == [] && s.inherited ==> s.reading.Some?)
  }

  lemma {:induction false} SentToEach(listeners: seq<Listener>, r: Reading)
    ensures |SentTo(listeners, r)| == |listeners|
    ensures forall i :: 0 <= i < |listeners| ==>
              SentTo(listeners, r)[i]
              == if listeners[i].listening then listeners[i].(got := listeners[i].got + [r]) else listeners[i]
  {
    if listeners != [] {
      SentToEach(listeners[1..], r);
    }
  }

  lemma {:induction false} DeafEach(listeners: seq<Listener>)
    ensures |Deaf(listeners)| == |listeners|
    ensures forall i :: 0 <= i < |listeners| ==> Deaf(listeners)[i] == listeners[i].(listening := false)
  {
    if listeners != [] {
      DeafEach(listeners[1..]);
    }
  }

  lemma SubscribedKeeps(s: Stream)
    requires Inv(s)
    ensures Inv(Subscribed(s))
  {
    var t := Subscribed(s);
    var n := |s.listeners|;
    assert t.listeners[n].listening;
    if s.timer {
      assert InStep(t.listeners[n], s.changes) by {
        if s.changes != [] {
          assert s.changes[|s.changes| - 1..] == [s.changes[|s.changes| - 1]];
        }
      }
    }
  }

  lemma EndedKeeps(s: Stream, key: string)
    requires Inv(s) && s.reading.Some?
    ensures Inv(Ended(s, key))
  {
    var t := Ended(s, key);
    if t.changes != s.changes {
      var r := Reading(key, s.reading.value);
      SentToEach(s.listeners, r);
      assert NoRepeats(t.changes);
      forall i | 0 <= i < |t.listeners|
        ensures NoRepeats(t.listeners[i].got)
        ensures t.listeners[i].listening ==> InStep(t.listeners[i], t.changes)
      {
        if s.listeners[i].listening {
          SentInStep(s.listeners[i], s.changes, r);
        }
      }
      var i :| 0 <= i < |s.listeners| && s.listeners[i].listening;
      assert t.listeners[i].listening;
    }
  }

  lemma SentInStep(l: Listener, changes: seq<Reading>, r: Reading)
    requires InStep(l, changes) && NoRepeats(changes + [r])
    ensures InStep(l.(got := l.got + [r]), changes + [r]) && NoRepeats(l.got + [r])
  {
    var got, all := l.got + [r], changes + [r];
    assert got == all[|all| - |got|..];
    forall k | 0 <= k < |got| - 1
      ensures got[k].key != got[k + 1].key
    {
      var from := |all| - |got|;
      assert got[k] == all[from + k] && got[k + 1] == all[from + k + 1];
    }
  }

  lemma LeftKeeps(s: Stream, i: nat)
    requires Inv(s) && i < |s.listeners|
    ensures Inv(Left(s, i))
  {
    var t := Left(s, i);
    if Listening(t.listeners) {
      var k :| 0 <= k < |t.listeners| && t.listeners[k].listening;
      assert s.listeners[k].listening;
    }
  }

  lemma ClosedKeeps(s: Stream)
    requires Inv(s)
    ensures Inv(Closed(s))
  {
    DeafEach(s.listeners);
  }

  lemma StaysInv(s: Stream, e: Step)
    requires Inv(s) && Can(s, e)
    ensures Inv(After(s, e))
  {
    match e
    case Subscribe => SubscribedKeeps(s);
    case Leave(i) => LeftKeeps(s, i);
    case Close => ClosedKeeps(s);
    case ClockTicks =>
    case ReadingEnds(key) => EndedKeeps(s, key);
  }

  lemma StaysDated(s: Stream, e: Step)
    requires Inv(s) && Dated(s) && Can(s, e)
    ensures Dated(After(s, e))
  {
    hide InStep, NoRepeats, Listening, SentTo, Deaf;
  }

  lemma StepKeeps(s: Stream, e: Step)
    requires Inv(s) && Dated(s) && Can(s, e)
    ensures Inv(After(s, e)) && Dated(After(s, e))
  {
    StaysInv(s, e);
    StaysDated(s, e);
  }

  lemma {:induction false} RunKeeps(s: Stream, run: seq<Step>)
    requires Inv(s) && Dated(s) && Valid(s, run)
    ensures Inv(Run(s, run)) && Dated(Run(s, run))
    decreases |run|
  {
    hide Inv, Dated, After, Can;
    if run != [] {
      StepKeeps(s, run[0]);
      RunKeeps(After(s, run[0]), run[1..]);
    }
  }

  lemma IdleKeeps()
    ensures Inv(IDLE) && Dated(IDLE)
  {
  }

  // ------------------------------------------------------------------ what a page can rely on

  /** The clock runs exactly while somebody listens, and nothing is held once nobody does. */
  lemma ClockRunsWhileHeard(run: seq<Step>)
    requires Valid(IDLE, run)
    ensures Run(IDLE, run).timer <==> Listening(Run(IDLE, run).listeners)
    ensures !Run(IDLE, run).timer ==> Run(IDLE, run).last.None?
  {
    IdleKeeps();
    RunKeeps(IDLE, run);
  }

  /**
    Everybody listening has the newest reading, having been sent every change since they
    came, none of them twice running.
    */
  lemma EverybodyIsCurrent(run: seq<Step>, i: nat)
    requires Valid(IDLE, run) && i < |Run(IDLE, run).listeners|
    ensures var s := Run(IDLE, run); var l := s.listeners[i];
      && NoRepeats(l.got)
      && (l.listening ==> InStep(l, s.changes) && s.last == if l.got == [] then None else Some(l.got[|l.got| - 1]))
  {
    IdleKeeps();
    RunKeeps(IDLE, run);
    hide Run, Valid;
    var s := Run(IDLE, run);
    if s.listeners[i].listening {
      assert s.timer;
    }
  }

  lemma StepLeavesAlone(s: Stream, e: Step, i: nat)
    requires Can(s, e) && i < |s.listeners| && !s.listeners[i].listening
    ensures i < |After(s, e).listeners| && After(s, e).listeners[i] == s.listeners[i]
  {
    if e.ReadingEnds? {
      SentToEach(s.listeners, Reading(e.key, s.reading.value));
    } else if e.Close? {
      DeafEach(s.listeners);
    }
  }

  /** Nothing is sent to a listener that has left, however many readings end afterwards. */
  lemma {:induction false} NothingAfterLeaving(s: Stream, run: seq<Step>, i: nat)
    requires Valid(s, run) && i < |s.listeners| && !s.listeners[i].listening
    ensures i < |Run(s, run).listeners| && Run(s, run).listeners[i] == s.listeners[i]
    decreases |run|
  {
    hide After, Can;
    if run != [] {
      StepLeavesAlone(s, run[0], i);
      NothingAfterLeaving(After(s, run[0]), run[1..], i);
    }
  }

  /**
    A reading begun before everybody had left is sent to those who came later exactly when it
    was still under way as the first of them came; it is then the first they are sent, and the
    only one.
    */
  lemma StaleIffUnderWay(run: seq<Step>)
    requires Valid(IDLE, run)
    ensures var s := Run(IDLE, run);
      && (s.changes != [] ==> (s.changes[0].begun < s.starts <==> s.inherited))
      && (forall k :: 0 < k < |s.changes| ==> s.changes[k].begun == s.starts)
      && (forall i, k :: 0 <= i < |s.listeners| && s.listeners[i].listening && 0 <= k < |s.listeners[i].got| ==>
            (s.listeners[i].got[k].begun < s.starts ==> s.inherited && k == 0))
  {
    IdleKeeps();
    RunKeeps(IDLE, run);
    hide Run, Valid;
    var s := Run(IDLE, run);
    forall i, k | 0 <= i < |s.listeners| && s.listeners[i].listening && 0 <= k < |s.listeners[i].got|
      && s.listeners[i].got[k].begun < s.starts
      ensures s.inherited && k == 0
    {
      assert InStep(s.listeners[i], s.changes);
      assert s.listeners[i].got[k] == s.changes[|s.changes| - |s.listeners[i].got| + k];
    }
  }

  lemma RunCons(s: Stream, e: Step, rest: seq<Step>)
    requires Can(s, e) && Valid(After(s, e), rest)
    ensures Valid(s, [e] + rest) && Run(s, [e] + rest) == Run(After(s, e), rest)
  {
    hide Can, After;
    assert ([e] + rest)[1..] == rest;
  }

  lemma StepsThere(key: string)
    ensures After(IDLE, Subscribe) == Stream([Listener(true, [])], true, None, Some(1), 1, [], false)
    ensures After(Stream([Listener(true, [])], true, None, Some(1), 1, [], false), Leave(0))
         == Stream([Listener(false, [])], false, None, Some(1), 1, [], false)
    ensures After(Stream([Listener(false, [])], false, None, Some(1), 1, [], false), Subscribe)
         == Stream([Listener(false, []), Listener(true, [])], true, None, Some(1), 2, [], true)
    ensures After(Stream([Listener(false, []), Listener(true, [])], true, None, Some(1), 2, [], true), ReadingEnds(key))
         == Stream([Listener(false, []), Listener(true, [Reading(key, 1)])], true, Some(Reading(key, 1)), None, 2,
                   [Reading(key, 1)], true)
  {
    assert [Listener(true, [])][0 := Listener(false, [])] == [Listener(false, [])];
    SentToEach([Listener(false, []), Listener(true, [])], Reading(key, 1));
    assert [] + [Reading(key, 1)] == [Reading(key, 1)];
    assert SentTo([Listener(false, []), Listener(true, [])], Reading(key, 1))
        == [Listener(false, []), Listener(true, [Reading(key, 1)])];
  }

  /**
    One page leaves while the first reading is under way and another comes before it ends: it
    is handed a reading from before everybody left.
    */
  lemma HandedOneFromBefore(key: string)
    ensures var run := [Subscribe, Leave(0), Subscribe, ReadingEnds(key)];
      && Valid(IDLE, run)
      && Run(IDLE, run)
      == Stream([Listener(false, []), Listener(true, [Reading(key, 1)])], true, Some(Reading(key, 1)), None, 2,
                [Reading(key, 1)], true)
  {
    StepsThere(key);
    var s1 := After(IDLE, Subscribe);
    var s2 := After(s1, Leave(0));
    var s3 := After(s2, Subscribe);
    hide After;
    RunCons(s3, ReadingEnds(key), []);
    RunCons(s2, Subscribe, [ReadingEnds(key)]);
    RunCons(s1, Leave(0), [Subscribe, ReadingEnds(key)]);
    RunCons(IDLE, Subscribe, [Leave(0), Subscribe, ReadingEnds(key)]);
    assert [ReadingEnds(key)] + [] == [ReadingEnds(key)];
    assert [Subscribe] + [ReadingEnds(key)] == [Subscribe, ReadingEnds(key)];
    assert [Leave(0)] + [Subscribe, ReadingEnds(key)] == [Leave(0), Subscribe, ReadingEnds(key)];
    assert [Subscribe] + [Leave(0), Subscribe, ReadingEnds(key)] == [Subscribe, Leave(0), Subscribe, ReadingEnds(key)];
  }

  // ------------------------------------------------------------------ as the program runs it

  class SessionsStream {
    var listeners: seq<Listener>
    var timer: bool
    var last: Option<Reading>
    var reading: bool
    /** Carried by what is sent, as bookkeeping. */
    var begun: nat
    var starts: nat
    ghost var changes: seq<Reading>
    ghost var inherited: bool

    constructor ()
      ensures View() == IDLE && Inv(View()) && Dated(View())
    {
      listeners, timer, last, reading, begun, starts, changes, inherited := [], false, None, false, 0, 0, [], false;
      new;
      IdleKeeps();
    }

    ghost function View(): Stream
      reads this
    {
      Stream(listeners, timer, last, if reading then Some(begun) else None, starts, changes, inherited)
    }

    method TickBegins()
      modifies `reading, `begun
      ensures View() == Begun(old(View()))
    {
      if reading {
        return;
      }
      reading := true;
      begun := starts;
    }

    method TickEnds(key: string)
      requires reading
      modifies `reading, `last, `listeners, `changes
      ensures View() == Ended(old(View()), key)
    {
      reading := false;
      if !timer {
        return;
      }
      if last.Some? && last.value.key == key {
        return;
      }
      var r := Reading(key, begun);
      last := Some(r);
      changes := changes + [r];
      Send(r);
    }

    method Send(r: Reading)
      modifies `listeners
      ensures listeners == SentTo(old(listeners), r)
    {
      ghost var was := listeners;
      SentToEach(was, r);
      var i := 0;
      while i < |listeners|
        invariant 0 <= i <= |listeners| == |was|
        invariant forall k :: 0 <= k < i ==> listeners[k] == SentTo(was, r)[k]
        invariant forall k :: i <= k < |was| ==> listeners[k] == was[k]
      {
        if listeners[i].listening {
          listeners := listeners[i := listeners[i].(got := listeners[i].got + [r])];
        }
        i := i + 1;
      }
    }

    method OnSubscribe() returns (i: nat)
      modifies this
      ensures View() == Subscribed(old(View())) && i == |old(listeners)|
    {
      i := |listeners|;
      listeners := listeners + [Listener(true, if last.Some? then [last.value] else [])];
      if !timer {
        timer := true;
        inherited := reading;
        starts := starts + 1;
        changes := [];
        TickBegins();
      }
    }

    method OnLeave(i: nat)
      requires i < |listeners|
      modifies `listeners, `timer, `last
      ensures View() == Left(old(View()), i)
    {
      listeners := listeners[i := listeners[i].(listening := false)];
      if !Listening(listeners) {
        Stop();
      }
    }

    method Stop()
      modifies `timer, `last
      ensures View() == Stopped(old(View()))
    {
      timer := false;
      last := None;
    }

    method OnClose()
      modifies `listeners, `timer, `last
      ensures View() == Closed(old(View()))
    {
      listeners := Deaf(listeners);
      Stop();
    }
  }
}
