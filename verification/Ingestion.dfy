/**
  Receiving email while others are being received, tickets are being worked and the
  assistant is answering: lookup, commit and follow-up are separate steps, and any number
  of deliveries take theirs in any order.
  */
module Ingestion {
  import opened Options
  import opened Threading

  datatype Status = New | Processing | Open | Resolved | Closed

  /** `stamped` is whether `autoResolvedAt` is set. */
  datatype Ticket = Ticket(status: Status, stamped: bool, assignee: Option<string>)

  datatype Action = Created | Reopened | AssigneeChanged(from: string, to: Option<string>)
    | StatusChanged(status: Status)

  datatype Entry = Entry(ticket: nat, action: Action)

  datatype OutboundEmail = OutboundEmail(
    ticket: nat, messageId: string, inReplyTo: Option<string>, references: seq<string>, withheld: bool)

  /** The tables. `jobs` are the classification requests. */
  datatype Db = Db(
    messages: seq<Message>, tickets: map<nat, Ticket>, trail: seq<Entry>, jobs: seq<nat>, outbox: seq<OutboundEmail>)

  datatype Outcome = Deduped | Threaded | Opened

  /** How far one delivery has got. */
  datatype Phase =
    | Arrived
    | Unseen
    | Routed(parent: Option<nat>)
    | Reopening(ticket: nat)
    | Settling(ticket: nat)
    | Handing(ticket: nat, from: string, to: Option<string>)
    | Answered(outcome: Outcome, ticket: nat)
    | Failed

  datatype Request = Request(email: InboundEmail, phase: Phase)

  /**
    `classify` is whether a model is configured. `cleared` and `lost` are bookkeeping: the
    tickets whose stamp a reply took away, and those of them whose audit line was never written.
    */
  datatype World = World(
    db: Db, requests: seq<Request>, classify: bool, cleared: multiset<nat>, lost: multiset<nat>)

  datatype Event =
    | Receive(email: InboundEmail)
    | Check(r: nat)
    | Route(r: nat)
    | Commit(r: nat, id: nat, at: nat)
    | RecordReopen(r: nat, ok: bool)
    | Reassign(r: nat, assistant: Option<string>, handoff: Option<string>)
    | RecordHandoff(r: nat, ok: bool)
    | Crash(r: nat)
    | SetStatus(ticket: nat, status: Status)
    | Assign(ticket: nat, assignee: Option<string>)
    | Claim(ticket: nat)
    | Release(ticket: nat, to: Status, assignee: Option<string>)
    | AutoReply(ticket: nat, uuid: string, at: nat)
    | AgentReply(ticket: nat, uuid: string, at: nat, demo: bool)

  function IdOf(email: InboundEmail): string {
    StripAngles(email.messageId)
  }

  function Row(email: InboundEmail, ticket: nat, at: nat, opening: bool): Message {
    Message(IdOf(email), ticket, false, DirectParent(email), at, opening)
  }

  // ------------------------------------------------------------------ transactions

  /** A reply on a thread: the message, and the reopening of a ticket only the machine had resolved. */
  function Append(db: Db, email: InboundEmail, ticket: nat, at: nat): Db
    requires ticket in db.tickets
  {
    var was := db.tickets[ticket];
    db.(messages := db.messages + [Row(email, ticket, at, false)],
        tickets := if was.stamped then db.tickets[ticket := was.(status := Open, stamped := false)] else db.tickets)
  }

  /** A ticket is opened: its message, its `created` line and, with a model, its classification job. */
  function OpenTicket(db: Db, email: InboundEmail, ticket: nat, at: nat, classify: bool): Db {
    db.(messages := db.messages + [Row(email, ticket, at, true)],
        tickets := db.tickets[ticket := Ticket(New, false, None)],
        trail := db.trail + [Entry(ticket, Created)],
        jobs := if classify then db.jobs + [ticket] else db.jobs)
  }

  function LastId(ids: seq<string>): Option<string> {
    if ids == [] then None else Some(ids[|ids| - 1])
  }

  /** A reply from the desk and the email that carries it, or nothing when its id is taken. */
  function Write(db: Db, ticket: nat, uuid: string, at: nat, withheld: bool): Option<Db>
    requires ticket in db.tickets
  {
    var id := NewOutboundMessageId(ticket, uuid);
    var references := Ids(Thread(ticket, db.messages));
    if Stored(id, db.messages) then None
    else Some(db.(
                messages := db.messages + [Message(id, ticket, true, LastId(references), at, false)],
                outbox := db.outbox + [OutboundEmail(ticket, id, LastId(references), references, withheld)]))
  }

  function At(db: Db, ticket: nat, now: Ticket): Db {
    db.(tickets := db.tickets[ticket := now])
  }

  // ------------------------------------------------------------------ steps

  function Moved(w: World, r: nat, phase: Phase): World
    requires r < |w.requests|
  {
    w.(requests := w.requests[r := w.requests[r].(phase := phase)])
  }

  predicate Can(w: World, e: Event) {
    match e
    case Receive(_) => true
    case Check(r) => r < |w.requests| && w.requests[r].phase.Arrived?
    case Route(r) => r < |w.requests| && w.requests[r].phase.Unseen?
    case Commit(r, id, _) =>
      && r < |w.requests| && w.requests[r].phase.Routed?
      && (w.requests[r].phase.parent.Some? ==> w.requests[r].phase.parent.value in w.db.tickets)
      && (w.requests[r].phase.parent.None? ==> id !in w.db.tickets)
    case RecordReopen(r, _) => r < |w.requests| && w.requests[r].phase.Reopening?
    case Reassign(r, _, _) =>
      r < |w.requests| && w.requests[r].phase.Settling? && w.requests[r].phase.ticket in w.db.tickets
    case RecordHandoff(r, _) => r < |w.requests| && w.requests[r].phase.Handing?
    case Crash(r) => r < |w.requests| && !w.requests[r].phase.Answered? && !w.requests[r].phase.Failed?
    case SetStatus(t, _) => t in w.db.tickets
    case Assign(t, _) => t in w.db.tickets
    case Claim(t) => t in w.db.tickets && w.db.tickets[t].status == New && w.db.tickets[t].assignee.None?
    case Release(t, to, _) => t in w.db.tickets && w.db.tickets[t].status == Processing && (to == New || to == Open)
    case AutoReply(t, _, _) => t in w.db.tickets && w.db.tickets[t].status == Processing
    case AgentReply(t, _, _, _) => t in w.db.tickets
  }

  /** The existing-message lookup. */
  function Checked(w: World, r: nat): World
    requires Can(w, Check(r))
  {
    var found := TicketOf(IdOf(w.requests[r].email), w.db.messages);
    Moved(w, r, if found.Some? then Answered(Deduped, found.value) else Unseen)
  }

  /** The transaction, undone whole when the id has been taken since it was looked up. */
  function Committed(w: World, r: nat, id: nat, at: nat): World
    requires Can(w, Commit(r, id, at))
  {
    var email := w.requests[r].email;
    var parent := w.requests[r].phase.parent;
    if Stored(IdOf(email), w.db.messages) then Moved(w, r, Failed)
    else if parent.None? then
      Moved(w.(db := OpenTicket(w.db, email, id, at, w.classify)), r, Answered(Opened, id))
    else if w.db.tickets[parent.value].stamped then
      Moved(w.(db := Append(w.db, email, parent.value, at), cleared := w.cleared + multiset{parent.value}), r,
            Reopening(parent.value))
    else
      Moved(w.(db := Append(w.db, email, parent.value, at)), r, Answered(Threaded, parent.value))
  }

  function Logged(w: World, entry: Entry): World {
    w.(db := w.db.(trail := w.db.trail + [entry]))
  }

  /** The audit line of a reopening; a failure to write it is swallowed. */
  function ReopenRecorded(w: World, r: nat, ok: bool): World
    requires Can(w, RecordReopen(r, ok))
  {
    var ticket := w.requests[r].phase.ticket;
    var next := Moved(w, r, Settling(ticket));
    if ok then Logged(next, Entry(ticket, Reopened)) else next.(lost := next.lost + multiset{ticket})
  }

  /** What the assistant held goes to whoever the handoff names. */
  function Reassigned(w: World, r: nat, assistant: Option<string>, handoff: Option<string>): World
    requires Can(w, Reassign(r, assistant, handoff))
  {
    var ticket := w.requests[r].phase.ticket;
    if assistant.Some? && w.db.tickets[ticket].assignee == assistant then
      Moved(w.(db := At(w.db, ticket, w.db.tickets[ticket].(assignee := handoff))), r,
            Handing(ticket, assistant.value, handoff))
    else Moved(w, r, Answered(Threaded, ticket))
  }

  function HandoffRecorded(w: World, r: nat, ok: bool): World
    requires Can(w, RecordHandoff(r, ok))
  {
    var phase := w.requests[r].phase;
    var next := Moved(w, r, Answered(Threaded, phase.ticket));
    if ok then Logged(next, Entry(phase.ticket, AssigneeChanged(phase.from, phase.to))) else next
  }

  /** The process dies under the request; what it had committed stays. */
  function Crashed(w: World, r: nat): World
    requires Can(w, Crash(r))
  {
    var phase := w.requests[r].phase;
    var next := Moved(w, r, Failed);
    if phase.Reopening? then next.(lost := next.lost + multiset{phase.ticket}) else next
  }

  /** What people and the assistant do beside the deliveries. */
  function Worked(w: World, e: Event): Db
    requires Can(w, e)
    requires e.SetStatus? || e.Assign? || e.Claim? || e.Release? || e.AutoReply? || e.AgentReply?
  {
    var db := w.db;
    var now := db.tickets[e.ticket];
    match e
    case SetStatus(t, status) =>
      var next := At(db, t, now.(status := status));
      if status == now.status then next else next.(trail := db.trail + [Entry(t, StatusChanged(status))])
    case Assign(t, assignee) => At(db, t, now.(assignee := assignee))
    case Claim(t) => At(db, t, now.(status := Processing))
    case Release(t, to, assignee) =>
      At(db, t, now.(status := to, assignee := if to == Open && now.assignee.None? then assignee else now.assignee))
    case AutoReply(t, uuid, at) =>
      var sent := Write(db, t, uuid, at, false);
      if sent.None? then db else At(sent.value, t, now.(status := Resolved, stamped := true))
    case AgentReply(t, uuid, at, demo) =>
      var sent := Write(db, t, uuid, at, demo);
      if sent.None? then db else sent.value
  }

  function After(w: World, e: Event): World
    requires Can(w, e)
  {
    match e
    case Receive(email) => w.(requests := w.requests + [Request(email, Arrived)])
    case Check(r) => Checked(w, r)
    case Route(r) => Moved(w, r, Routed(ParentFor(w.requests[r].email, w.db.messages)))
    case Commit(r, id, at) => Committed(w, r, id, at)
    case RecordReopen(r, ok) => ReopenRecorded(w, r, ok)
    case Reassign(r, assistant, handoff) => Reassigned(w, r, assistant, handoff)
    case RecordHandoff(r, ok) => HandoffRecorded(w, r, ok)
    case Crash(r) => Crashed(w, r)
    case _ => w.(db := Worked(w, e))
  }

  ghost predicate Valid(w: World, run: seq<Event>)
    decreases |run|
  {
    run == [] || (Can(w, run[0]) && Valid(After(w, run[0]), run[1..]))
  }

  function Run(w: World, run: seq<Event>): World
    requires Valid(w, run)
    decreases |run|
  {
    if run == [] then w else Run(After(w, run[0]), run[1..])
  }

  function Start(classify: bool): World {
    World(Db([], map[], [], [], []), [], classify, multiset{}, multiset{})
  }

  // ------------------------------------------------------------------ what the tables keep

  /** The tickets that messages were written together with. */
  function Openings(messages: seq<Message>): multiset<nat> {
    if messages == [] then multiset{}
    else
      var m := messages[|messages| - 1];
      Openings(messages[..|messages| - 1]) + (if m.opening then multiset{m.ticket} else multiset{})
  }

  function OutboundIds(messages: seq<Message>): seq<string> {
    if messages == [] then []
    else
      var m := messages[|messages| - 1];
      OutboundIds(messages[..|messages| - 1]) + (if m.outbound then [m.id] else [])
  }

  function CarriedIds(outbox: seq<OutboundEmail>): seq<string> {
    if outbox == [] then [] else CarriedIds(outbox[..|outbox| - 1]) + [outbox[|outbox| - 1].messageId]
  }

  ghost predicate OnTickets(db: Db) {
    forall m :: m in db.messages ==> m.ticket in db.tickets
  }

  /** A ticket has one opening message, one `created` line and, with a model configured, one request. */
  ghost predicate OpenedOnce(db: Db, classify: bool, t: nat) {
    && Openings(db.messages)[t] == (if t in db.tickets then 1 else 0)
    && multiset(db.trail)[Entry(t, Created)] == (if t in db.tickets then 1 else 0)
    && multiset(db.jobs)[t] == (if t in db.tickets && classify then 1 else 0)
  }

  ghost predicate EachOpenedOnce(db: Db, classify: bool) {
    forall t: nat :: OpenedOnce(db, classify, t)
  }

  /** `row` names its own ticket's messages and no others. */
  ghost predicate Owns(row: OutboundEmail, messages: seq<Message>) {
    && TicketOf(row.messageId, messages) == Some(row.ticket)
    && (forall id :: id in row.references ==> TicketOf(id, messages) == Some(row.ticket))
    && row.inReplyTo == LastId(row.references)
  }

  /** The desk's replies and the emails that carry them are the same ids, in the same order. */
  ghost predicate Carried(db: Db) {
    && CarriedIds(db.outbox) == OutboundIds(db.messages)
    && forall row :: row in db.outbox ==> Owns(row, db.messages)
  }

  ghost predicate Sane(db: Db, classify: bool) {
    UniqueIds(db.messages) && OnTickets(db) && EachOpenedOnce(db, classify) && Carried(db)
  }

  /** Nothing stored is lost or moves to another ticket. */
  ghost predicate Grows(db: Db, next: Db) {
    && (forall id :: Stored(id, db.messages) ==> TicketOf(id, next.messages) == TicketOf(id, db.messages))
    && db.tickets.Keys <= next.tickets.Keys
  }

  lemma {:induction false} TicketOfSnoc(id: string, messages: seq<Message>, m: Message)
    ensures TicketOf(id, messages + [m])
         == if Stored(id, messages) then TicketOf(id, messages)
            else if m.id == id then Some(m.ticket) else None
  {
    if messages == [] {
      assert [] + [m] == [m];
    } else {
      assert (messages + [m])[1..] == messages[1..] + [m];
      TicketOfSnoc(id, messages[1..], m);
    }
  }

  lemma NotStored(m: Message, messages: seq<Message>)
    requires !Stored(m.id, messages) && UniqueIds(messages)
    ensures UniqueIds(messages + [m])
  {
    forall j | 0 <= j < |messages|
      ensures messages[j].id != m.id
    {
      assert messages[j] in messages;
    }
  }

  /** One more message, under an id not yet stored. */
  lemma MessageAdded(db: Db, next: Db, m: Message)
    requires next.messages == db.messages + [m] && !Stored(m.id, db.messages) && UniqueIds(db.messages)
    requires db.tickets.Keys <= next.tickets.Keys
    ensures UniqueIds(next.messages) && Grows(db, next)
    ensures TicketOf(m.id, next.messages) == Some(m.ticket)
    ensures Openings(next.messages) == Openings(db.messages) + (if m.opening then multiset{m.ticket} else multiset{})
    ensures OutboundIds(next.messages) == OutboundIds(db.messages) + (if m.outbound then [m.id] else [])
  {
    NotStored(m, db.messages);
    assert next.messages[..|next.messages| - 1] == db.messages;
    forall id
      ensures TicketOf(id, next.messages)
           == if Stored(id, db.messages) then TicketOf(id, db.messages) else if m.id == id then Some(m.ticket) else None
    {
      TicketOfSnoc(id, db.messages, m);
    }
  }

  lemma StillCarried(db: Db, next: Db)
    requires Carried(db) && next.outbox == db.outbox && Grows(db, next)
    requires OutboundIds(next.messages) == OutboundIds(db.messages)
    ensures Carried(next)
  {
  }

  lemma OnTicketsStill(db: Db, next: Db, m: Message)
    requires OnTickets(db) && next.messages == db.messages + [m]
    requires m.ticket in next.tickets && db.tickets.Keys <= next.tickets.Keys
    ensures OnTickets(next)
  {
  }

  lemma OpenedOnceStill(db: Db, next: Db, classify: bool)
    requires EachOpenedOnce(db, classify) && next.trail == db.trail && next.jobs == db.jobs
    requires Openings(next.messages) == Openings(db.messages) && next.tickets.Keys == db.tickets.Keys
    ensures EachOpenedOnce(next, classify)
  {
    hide Openings;
    forall t: nat
      ensures OpenedOnce(next, classify, t)
    {
      assert OpenedOnce(db, classify, t);
      assert t in next.tickets <==> t in db.tickets;
    }
  }

  lemma OpenedOnceMore(db: Db, next: Db, ticket: nat, classify: bool)
    requires EachOpenedOnce(db, classify) && ticket !in db.tickets
    requires next.tickets.Keys == db.tickets.Keys + {ticket}
    requires Openings(next.messages) == Openings(db.messages) + multiset{ticket}
    requires next.trail == db.trail + [Entry(ticket, Created)]
    requires next.jobs == if classify then db.jobs + [ticket] else db.jobs
    ensures EachOpenedOnce(next, classify)
  {
    hide Openings;
    forall t: nat
      ensures OpenedOnce(next, classify, t)
    {
      assert OpenedOnce(db, classify, t);
      assert t in next.tickets <==> t in db.tickets || t == ticket;
      assert multiset(next.trail)[Entry(t, Created)]
          == multiset(db.trail)[Entry(t, Created)] + if t == ticket then 1 else 0;
      assert multiset(next.jobs)[t] == multiset(db.jobs)[t] + if t == ticket && classify then 1 else 0;
    }
  }

  lemma AppendIsSane(db: Db, email: InboundEmail, ticket: nat, at: nat, classify: bool)
    requires Sane(db, classify) && ticket in db.tickets && !Stored(IdOf(email), db.messages)
    ensures var next := Append(db, email, ticket, at);
      Sane(next, classify) && Grows(db, next) && TicketOf(IdOf(email), next.messages) == Some(ticket)
  {
    hide UniqueIds, Openings, OutboundIds, TicketOf, Stored, Grows, Carried, OnTickets, EachOpenedOnce, IdOf,
         DirectParent;
    var next := Append(db, email, ticket, at);
    var m := Row(email, ticket, at, false);
    assert next.tickets.Keys == db.tickets.Keys;
    MessageAdded(db, next, m);
    assert OutboundIds(db.messages) + [] == OutboundIds(db.messages);
    StillCarried(db, next);
    OnTicketsStill(db, next, m);
    OpenedOnceStill(db, next, classify);
  }

  lemma OpenIsSane(db: Db, email: InboundEmail, ticket: nat, at: nat, classify: bool)
    requires Sane(db, classify) && ticket !in db.tickets && !Stored(IdOf(email), db.messages)
    ensures var next := OpenTicket(db, email, ticket, at, classify);
      Sane(next, classify) && Grows(db, next) && TicketOf(IdOf(email), next.messages) == Some(ticket)
  {
    hide UniqueIds, Openings, OutboundIds, TicketOf, Stored, Grows, Carried, OnTickets, EachOpenedOnce, IdOf,
         DirectParent;
    var next := OpenTicket(db, email, ticket, at, classify);
    var m := Row(email, ticket, at, true);
    assert next.tickets.Keys == db.tickets.Keys + {ticket};
    MessageAdded(db, next, m);
    assert OutboundIds(db.messages) + [] == OutboundIds(db.messages);
    StillCarried(db, next);
    OnTicketsStill(db, next, m);
    OpenedOnceMore(db, next, ticket, classify);
  }

  lemma {:induction false} IdsOfThread(thread: seq<Message>, id: string)
    requires id in Ids(thread)
    ensures exists m :: m in thread && m.id == id
  {
    if thread[0].id == id {
      assert thread[0] in thread;
    } else {
      IdsOfThread(thread[1..], id);
      var m :| m in thread[1..] && m.id == id;
      assert m in thread;
    }
  }

  lemma {:induction false} OfTicketIs(ticket: nat, messages: seq<Message>)
    ensures forall m :: m in OfTicket(ticket, messages) ==> m in messages && m.ticket == ticket
  {
    if messages != [] {
      OfTicketIs(ticket, messages[..|messages| - 1]);
    }
  }

  /** What a reply refers to are messages of the ticket it is written on. */
  lemma ReferencesAreOwn(ticket: nat, messages: seq<Message>)
    requires UniqueIds(messages)
    ensures forall id :: id in Ids(Thread(ticket, messages)) ==> TicketOf(id, messages) == Some(ticket)
  {
    var thread := Thread(ticket, messages);
    ThreadRows(ticket, messages);
    OfTicketIs(ticket, messages);
    forall id | id in Ids(thread)
      ensures TicketOf(id, messages) == Some(ticket)
    {
      IdsOfThread(thread, id);
      var m :| m in thread && m.id == id;
      assert m in multiset(thread);
      assert m in OfTicket(ticket, messages);
      TicketOfStored(m, messages);
    }
  }

  lemma WriteIsSane(db: Db, ticket: nat, uuid: string, at: nat, withheld: bool, classify: bool)
    requires Sane(db, classify) && ticket in db.tickets && Write(db, ticket, uuid, at, withheld).Some?
    ensures var next := Write(db, ticket, uuid, at, withheld).value;
      Sane(next, classify) && Grows(db, next) && next.tickets == db.tickets
  {
    hide UniqueIds, Openings, OutboundIds, TicketOf, Stored, Grows, Carried, OnTickets, EachOpenedOnce;
    hide NewOutboundMessageId, Ids, Thread, LastId;
    var next := Write(db, ticket, uuid, at, withheld).value;
    var id := NewOutboundMessageId(ticket, uuid);
    var references := Ids(Thread(ticket, db.messages));
    var m := Message(id, ticket, true, LastId(references), at, false);
    ReferencesAreOwn(ticket, db.messages);
    MessageAdded(db, next, m);
    WriteCarries(db, next, m, OutboundEmail(ticket, id, LastId(references), references, withheld));
    OnTicketsStill(db, next, m);
    OpenedOnceStill(db, next, classify);
  }

  lemma WriteCarries(db: Db, next: Db, m: Message, row: OutboundEmail)
    requires Carried(db) && Grows(db, next) && next.outbox == db.outbox + [row]
    requires OutboundIds(next.messages) == OutboundIds(db.messages) + [row.messageId]
    requires TicketOf(row.messageId, next.messages) == Some(row.ticket) && row.inReplyTo == LastId(row.references)
    requires forall id :: id in row.references ==> TicketOf(id, db.messages) == Some(row.ticket)
    ensures Carried(next)
  {
    hide OutboundIds, TicketOf;
    assert next.outbox[..|next.outbox| - 1] == db.outbox;
    forall id | id in row.references
      ensures TicketOf(id, next.messages) == Some(row.ticket)
    {
      assert Stored(id, db.messages);
    }
    forall r | r in db.outbox
      ensures Owns(r, next.messages)
    {
      OwnsStill(r, db, next);
    }
  }

  lemma OwnsStill(row: OutboundEmail, db: Db, next: Db)
    requires Owns(row, db.messages) && Grows(db, next)
    ensures Owns(row, next.messages)
  {
    hide TicketOf;
    assert Stored(row.messageId, db.messages);
    forall id | id in row.references
      ensures TicketOf(id, next.messages) == Some(row.ticket)
    {
      assert Stored(id, db.messages);
    }
  }

  /** A ticket's columns and the rest of the trail may change under the messages. */
  lemma SameMessagesSane(db: Db, next: Db, classify: bool)
    requires Sane(db, classify) && next.messages == db.messages && next.outbox == db.outbox && next.jobs == db.jobs
    requires next.tickets.Keys == db.tickets.Keys
    requires next.trail == db.trail || exists e: Entry :: !e.action.Created? && next.trail == db.trail + [e]
    ensures Sane(next, classify) && Grows(db, next)
  {
    hide UniqueIds, Openings, OutboundIds, TicketOf;
    forall t: nat
      ensures OpenedOnce(next, classify, t)
    {
      assert OpenedOnce(db, classify, t);
      assert t in next.tickets <==> t in db.tickets;
      assert multiset(next.trail)[Entry(t, Created)] == multiset(db.trail)[Entry(t, Created)];
    }
    assert Grows(db, next);
    StillCarried(db, next);
  }

  // ------------------------------------------------------------------ every step keeps them

  lemma CommitIsSane(w: World, r: nat, id: nat, at: nat)
    requires Sane(w.db, w.classify) && Can(w, Commit(r, id, at))
    ensures Sane(Committed(w, r, id, at).db, w.classify) && Grows(w.db, Committed(w, r, id, at).db)
  {
    hide Sane, IdOf, Append, OpenTicket, UniqueIds;
    var email := w.requests[r].email;
    var parent := w.requests[r].phase.parent;
    if !Stored(IdOf(email), w.db.messages) {
      if parent.None? {
        OpenIsSane(w.db, email, id, at, w.classify);
      } else {
        AppendIsSane(w.db, email, parent.value, at, w.classify);
      }
    }
  }

  predicate IsWork(e: Event) {
    e.SetStatus? || e.Assign? || e.Claim? || e.Release? || e.AutoReply? || e.AgentReply?
  }

  lemma WorkIsSane(w: World, e: Event)
    requires Sane(w.db, w.classify) && Can(w, e) && IsWork(e)
    ensures Sane(Worked(w, e), w.classify) && Grows(w.db, Worked(w, e))
  {
    hide Sane, Grows, Write;
    var db, next := w.db, Worked(w, e);
    assert next.tickets.Keys == db.tickets.Keys || e.AutoReply? || e.AgentReply?;
    if e.SetStatus? {
      if e.status != db.tickets[e.ticket].status {
        assert next.trail == db.trail + [Entry(e.ticket, StatusChanged(e.status))];
      }
      SameMessagesSane(db, next, w.classify);
    } else if e.AutoReply? {
      var sent := Write(db, e.ticket, e.uuid, e.at, false);
      if sent.Some? {
        WriteIsSane(db, e.ticket, e.uuid, e.at, false, w.classify);
        assert next.tickets.Keys == sent.value.tickets.Keys;
        SameMessagesSane(sent.value, next, w.classify);
        GrowsTwice(db, sent.value, next);
      } else {
        SameMessagesSane(db, next, w.classify);
      }
    } else if e.AgentReply? {
      var sent := Write(db, e.ticket, e.uuid, e.at, e.demo);
      if sent.Some? {
        WriteIsSane(db, e.ticket, e.uuid, e.at, e.demo, w.classify);
      } else {
        SameMessagesSane(db, next, w.classify);
      }
    } else {
      SameMessagesSane(db, next, w.classify);
    }
  }

  lemma GrowsTwice(a: Db, b: Db, c: Db)
    requires Grows(a, b) && Grows(b, c)
    ensures Grows(a, c)
  {
    hide TicketOf;
  }

  lemma StepIsSane(w: World, e: Event)
    requires Sane(w.db, w.classify) && Can(w, e)
    ensures Sane(After(w, e).db, w.classify) && Grows(w.db, After(w, e).db) && After(w, e).classify == w.classify
  {
    hide Sane, Grows, Committed, Worked, Checked, ParentFor;
    if e.Commit? {
      CommitIsSane(w, e.r, e.id, e.at);
      hide Can;
      CommittedFrame(w, e.r, e.id, e.at);
    } else if IsWork(e) {
      WorkIsSane(w, e);
    } else {
      var next := After(w, e).db;
      QuietStep(w, e);
      SameMessagesSane(w.db, next, w.classify);
    }
  }

  lemma CommittedFrame(w: World, r: nat, id: nat, at: nat)
    requires Can(w, Commit(r, id, at))
    ensures Committed(w, r, id, at).classify == w.classify
    ensures |Committed(w, r, id, at).requests| == |w.requests|
    ensures forall k :: 0 <= k < |w.requests| && k != r ==> Committed(w, r, id, at).requests[k] == w.requests[k]
    ensures Committed(w, r, id, at).requests[r].email == w.requests[r].email
    ensures Committed(w, r, id, at).lost == w.lost
  {
    hide Stored, IdOf, Append, OpenTicket;
  }

  /** Every other step leaves the messages and the tickets' names as they are. */
  lemma QuietStep(w: World, e: Event)
    requires Can(w, e) && !e.Commit? && !IsWork(e)
    ensures var next := After(w, e);
      && next.db.messages == w.db.messages && next.db.outbox == w.db.outbox && next.db.jobs == w.db.jobs
      && next.db.tickets.Keys == w.db.tickets.Keys && next.classify == w.classify
      && (next.db.trail == w.db.trail
          || exists l: Entry :: !l.action.Created? && next.db.trail == w.db.trail + [l])
  {
    hide ParentFor, TicketOf;
    if e.RecordReopen? {
      var t := w.requests[e.r].phase.ticket;
      assert e.ok ==> After(w, e).db.trail == w.db.trail + [Entry(t, Reopened)];
    } else if e.RecordHandoff? {
      var p := w.requests[e.r].phase;
      assert e.ok ==> After(w, e).db.trail == w.db.trail + [Entry(p.ticket, AssigneeChanged(p.from, p.to))];
    }
  }

  // ------------------------------------------------------------------ what a delivery is told is so

  /** The email is stored, on the ticket the delivery works on or answers with. */
  ghost predicate Holds(db: Db, q: Request) {
    match q.phase
    case Arrived => true
    case Unseen => true
    case Failed => true
    case Routed(parent) => parent.Some? ==> parent.value in db.tickets
    case _ => TicketOf(IdOf(q.email), db.messages) == Some(q.phase.ticket)
  }

  ghost predicate RequestsHold(w: World) {
    forall r :: 0 <= r < |w.requests| ==> Holds(w.db, w.requests[r])
  }

  lemma HoldsStill(db: Db, next: Db, q: Request)
    requires Holds(db, q) && Grows(db, next)
    ensures Holds(next, q)
  {
    hide TicketOf, IdOf;
    assert TicketOf(IdOf(q.email), db.messages).Some? ==> Stored(IdOf(q.email), db.messages);
  }

  lemma StoredIsOnTicket(db: Db, id: string)
    requires OnTickets(db) && Stored(id, db.messages)
    ensures TicketOf(id, db.messages).value in db.tickets
  {
    var m :| m in db.messages && m.id == id && m.ticket == TicketOf(id, db.messages).value;
  }

  lemma ParentIsTicket(db: Db, email: InboundEmail)
    requires OnTickets(db) && ParentFor(email, db.messages).Some?
    ensures ParentFor(email, db.messages).value in db.tickets
  {
    var candidates := Candidates(DirectParent(email), References(email));
    ParentIsFirstStored(candidates, db.messages);
    var k :| 0 <= k < |candidates| && TicketOf(candidates[k], db.messages) == ParentOf(candidates, db.messages);
    StoredIsOnTicket(db, candidates[k]);
  }

  /** The request a step is taken for. */
  function Actor(e: Event): Option<nat> {
    match e
    case Check(r) => Some(r)
    case Route(r) => Some(r)
    case Commit(r, _, _) => Some(r)
    case RecordReopen(r, _) => Some(r)
    case Reassign(r, _, _) => Some(r)
    case RecordHandoff(r, _) => Some(r)
    case Crash(r) => Some(r)
    case _ => None
  }

  /** A step moves the request it is taken for and no other, and no request's email changes. */
  lemma OthersStay(w: World, e: Event)
    requires Can(w, e)
    ensures var next := After(w, e);
      && |w.requests| + (if e.Receive? then 1 else 0) == |next.requests|
      && (forall k :: 0 <= k < |w.requests| && Actor(e) != Some(k) ==> next.requests[k] == w.requests[k])
      && (Actor(e).Some? ==>
            (Actor(e).value < |w.requests| && next.requests[Actor(e).value].email == w.requests[Actor(e).value].email))
      && (e.Receive? ==> next.requests[|w.requests|] == Request(e.email, Arrived))
  {
    hide ParentFor, TicketOf, Worked;
    if e.Commit? {
      CommittedFrame(w, e.r, e.id, e.at);
      hide Committed;
    }
  }

  lemma LookupHolds(w: World, e: Event)
    requires OnTickets(w.db) && Can(w, e) && (e.Check? || e.Route?)
    ensures Holds(After(w, e).db, After(w, e).requests[e.r])
  {
    hide OnTickets, TicketOf, IdOf, ParentFor;
    var q := w.requests[e.r];
    if e.Route? && ParentFor(q.email, w.db.messages).Some? {
      ParentIsTicket(w.db, q.email);
    }
  }

  lemma FollowUpHolds(w: World, e: Event, r: nat)
    requires Can(w, e) && Actor(e) == Some(r) && Holds(w.db, w.requests[r])
    requires e.RecordReopen? || e.Reassign? || e.RecordHandoff? || e.Crash?
    ensures Holds(After(w, e).db, After(w, e).requests[r])
  {
    hide TicketOf, IdOf;
  }

  lemma ActorHolds(w: World, e: Event, r: nat)
    requires Sane(w.db, w.classify) && RequestsHold(w) && Can(w, e) && Actor(e) == Some(r)
    requires r < |w.requests| && r < |After(w, e).requests|
    ensures Holds(After(w, e).db, After(w, e).requests[r])
  {
    hide Committed, OnTickets, Holds, UniqueIds, EachOpenedOnce, Carried;
    if e.Commit? {
      CommitHolds(w, r, e.id, e.at);
    } else if e.Check? || e.Route? {
      LookupHolds(w, e);
    } else {
      FollowUpHolds(w, e, r);
    }
  }

  lemma CommitHolds(w: World, r: nat, id: nat, at: nat)
    requires Sane(w.db, w.classify) && Can(w, Commit(r, id, at))
    ensures Holds(Committed(w, r, id, at).db, Committed(w, r, id, at).requests[r])
  {
    hide Sane, IdOf, Append, OpenTicket;
    var email := w.requests[r].email;
    var parent := w.requests[r].phase.parent;
    if !Stored(IdOf(email), w.db.messages) {
      if parent.None? {
        OpenIsSane(w.db, email, id, at, w.classify);
      } else {
        AppendIsSane(w.db, email, parent.value, at, w.classify);
      }
    }
  }

  lemma StepHolds(w: World, e: Event)
    requires Sane(w.db, w.classify) && RequestsHold(w) && Can(w, e)
    ensures RequestsHold(After(w, e))
  {
    hide Sane, Grows, Holds, After, Can;
    var next := After(w, e);
    StepIsSane(w, e);
    OthersStay(w, e);
    if Actor(e).Some? {
      ActorHolds(w, e, Actor(e).value);
    }
    forall k | 0 <= k < |next.requests|
      ensures Holds(next.db, next.requests[k])
    {
      if k < |w.requests| && Actor(e) != Some(k) {
        HoldsStill(w.db, next.db, w.requests[k]);
      } else if k == |w.requests| {
        ArrivedHolds(next.db, next.requests[k]);
      }
    }
  }

  lemma ArrivedHolds(db: Db, q: Request)
    requires q.phase.Arrived?
    ensures Holds(db, q)
  {
  }

  // ------------------------------------------------------------------ reopenings are accounted for

  /** How many deliveries have reopened `ticket` and not yet written the line that says so. */
  function Pending(requests: seq<Request>, ticket: nat): nat {
    if requests == [] then 0
    else
      Pending(requests[..|requests| - 1], ticket)
      + if requests[|requests| - 1].phase == Reopening(ticket) then 1 else 0
  }

  function One(phase: Phase, ticket: nat): nat {
    if phase == Reopening(ticket) then 1 else 0
  }

  lemma {:induction false} PendingMoved(requests: seq<Request>, r: nat, q: Request, ticket: nat)
    requires r < |requests|
    ensures Pending(requests[r := q], ticket) + One(requests[r].phase, ticket)
         == Pending(requests, ticket) + One(q.phase, ticket)
  {
    var next := requests[r := q];
    if r == |requests| - 1 {
      assert next[..|next| - 1] == requests[..|requests| - 1];
    } else {
      PendingMoved(requests[..|requests| - 1], r, q, ticket);
      assert next[..|next| - 1] == requests[..|requests| - 1][r := q];
    }
  }

  function Reopenings(trail: seq<Entry>, ticket: nat): nat {
    multiset(trail)[Entry(ticket, Reopened)]
  }

  /** Each stamp a reply took away is on the trail as a reopening, about to be, or lost to a failure. */
  ghost predicate AccountedFor(w: World, ticket: nat) {
    w.cleared[ticket] == Reopenings(w.db.trail, ticket) + Pending(w.requests, ticket) + w.lost[ticket]
  }

  ghost predicate Accounted(w: World) {
    forall t: nat :: AccountedFor(w, t)
  }

  lemma CommitCounts(w: World, r: nat, id: nat, at: nat, t: nat)
    requires Can(w, Commit(r, id, at))
    ensures var next := Committed(w, r, id, at);
      && |next.requests| == |w.requests| && next.requests == w.requests[r := next.requests[r]]
      && next.cleared[t] == w.cleared[t] + One(next.requests[r].phase, t) && next.lost == w.lost
  {
    hide TicketOf, IdOf, Append, OpenTicket, Stored;
  }

  lemma StepAccounted(w: World, e: Event, t: nat)
    requires Can(w, e) && AccountedFor(w, t)
    ensures AccountedFor(After(w, e), t)
  {
    hide Pending, Reopenings, ParentFor, TicketOf, Worked, Committed;
    var next := After(w, e);
    TrailMoved(w, e, t);
    if e.Commit? {
      CommitCounts(w, e.r, e.id, e.at, t);
      PendingMoved(w.requests, e.r, next.requests[e.r], t);
    } else if Actor(e).Some? {
      var r := Actor(e).value;
      PendingMoved(w.requests, r, next.requests[r], t);
      assert next.requests == w.requests[r := next.requests[r]];
    } else if e.Receive? {
      PendingArrived(w.requests, e.email, t);
    }
  }

  lemma PendingArrived(requests: seq<Request>, email: InboundEmail, t: nat)
    ensures Pending(requests + [Request(email, Arrived)], t) == Pending(requests, t)
  {
    var next := requests + [Request(email, Arrived)];
    assert next[..|next| - 1] == requests;
  }

  lemma CommitTrail(w: World, r: nat, id: nat, at: nat, t: nat)
    requires Can(w, Commit(r, id, at))
    ensures Reopenings(Committed(w, r, id, at).db.trail, t) == Reopenings(w.db.trail, t)
  {
    hide TicketOf, IdOf, Stored, DirectParent;
  }

  lemma WorkTrail(w: World, e: Event, t: nat)
    requires Can(w, e) && IsWork(e)
    ensures Reopenings(Worked(w, e).trail, t) == Reopenings(w.db.trail, t)
  {
    hide TicketOf, NewOutboundMessageId, Thread, Ids, Stored;
  }

  /** A step adds a reopening to the trail only when it is the recording of one. */
  lemma TrailMoved(w: World, e: Event, t: nat)
    requires Can(w, e)
    ensures Reopenings(After(w, e).db.trail, t)
         == Reopenings(w.db.trail, t)
            + if e.RecordReopen? && e.ok && w.requests[e.r].phase.ticket == t then 1 else 0
  {
    hide ParentFor, TicketOf, Committed, Worked;
    if e.Commit? {
      CommitTrail(w, e.r, e.id, e.at, t);
    } else if IsWork(e) {
      WorkTrail(w, e, t);
    }
  }

  /** `t` loses its stamp between `w` and `next`. */
  ghost predicate StampGoes(w: World, next: World, t: nat) {
    t in w.db.tickets && w.db.tickets[t].stamped && t in next.db.tickets && !next.db.tickets[t].stamped
  }

  lemma CommitClears(w: World, r: nat, id: nat, at: nat, t: nat)
    requires Can(w, Commit(r, id, at)) && t in w.db.tickets
    ensures var next := Committed(w, r, id, at);
      && t in next.db.tickets && next.cleared[t] == w.cleared[t] + (if StampGoes(w, next, t) then 1 else 0)
      && (StampGoes(w, next, t) ==> w.requests[r].phase == Routed(Some(t)) && next.db.tickets[t].status == Open)
  {
    hide TicketOf, IdOf, Stored, DirectParent;
  }

  lemma WorkKeepsStamp(w: World, e: Event, t: nat)
    requires Can(w, e) && IsWork(e) && t in w.db.tickets
    ensures t in Worked(w, e).tickets && (w.db.tickets[t].stamped ==> Worked(w, e).tickets[t].stamped)
  {
    hide TicketOf, NewOutboundMessageId, Thread, Ids, Stored;
  }

  /** A stamp goes only when an email reopens its ticket, and each going is counted. */
  lemma ClearedIsCounted(w: World, e: Event, t: nat)
    requires Can(w, e) && t in w.db.tickets
    ensures var next := After(w, e);
      && t in next.db.tickets && next.cleared[t] == w.cleared[t] + (if StampGoes(w, next, t) then 1 else 0)
      && (StampGoes(w, next, t) ==>
            (e.Commit? && w.requests[e.r].phase == Routed(Some(t)) && next.db.tickets[t].status == Open))
  {
    hide ParentFor, TicketOf, Committed, Worked;
    if e.Commit? {
      CommitClears(w, e.r, e.id, e.at, t);
    } else if IsWork(e) {
      WorkKeepsStamp(w, e, t);
    }
  }

  // ------------------------------------------------------------------ every run

  ghost predicate Inv(w: World) {
    Sane(w.db, w.classify) && RequestsHold(w) && Accounted(w)
  }

  lemma StartIsInv(classify: bool)
    ensures Inv(Start(classify))
  {
    var w := Start(classify);
    forall t: nat
      ensures OpenedOnce(w.db, classify, t) && AccountedFor(w, t)
    {
    }
  }

  lemma StepKeeps(w: World, e: Event)
    requires Inv(w) && Can(w, e)
    ensures Inv(After(w, e)) && Grows(w.db, After(w, e).db) && After(w, e).classify == w.classify
  {
    hide Sane, RequestsHold, Grows, AccountedFor, After, Can;
    StepIsSane(w, e);
    StepHolds(w, e);
    forall t: nat
      ensures AccountedFor(After(w, e), t)
    {
      StepAccounted(w, e, t);
    }
  }

  lemma {:induction false} RunKeeps(w: World, run: seq<Event>)
    requires Inv(w) && Valid(w, run)
    ensures Inv(Run(w, run)) && Grows(w.db, Run(w, run).db) && Run(w, run).classify == w.classify
    decreases |run|
  {
    hide Inv, Grows, After, Can;
    if run == [] {
      GrowsNot(w.db);
    } else {
      StepKeeps(w, run[0]);
      RunKeeps(After(w, run[0]), run[1..]);
      GrowsTwice(w.db, After(w, run[0]).db, Run(w, run).db);
    }
  }

  lemma GrowsNot(db: Db)
    ensures Grows(db, db)
  {
  }

  /**
    However deliveries, people and the assistant interleave, and wherever requests die: one
    row per Message-ID; every ticket opened with one message, one `created` line and one
    classification request; and nothing the trail or the jobs name without a ticket.
    */
  lemma OpenedExactlyOnce(classify: bool, run: seq<Event>)
    requires Valid(Start(classify), run)
    ensures var db := Run(Start(classify), run).db;
      && UniqueIds(db.messages) && OnTickets(db) && Carried(db)
      && forall t: nat ::
           && Openings(db.messages)[t] == multiset(db.trail)[Entry(t, Created)] == (if t in db.tickets then 1 else 0)
           && multiset(db.jobs)[t] == (if t in db.tickets && classify then 1 else 0)
  {
    StartIsInv(classify);
    RunKeeps(Start(classify), run);
    var db := Run(Start(classify), run).db;
    hide Run, Valid, Openings, UniqueIds, OnTickets, Carried;
    forall t: nat
      ensures Openings(db.messages)[t] == multiset(db.trail)[Entry(t, Created)] == (if t in db.tickets then 1 else 0)
      ensures multiset(db.jobs)[t] == (if t in db.tickets && classify then 1 else 0)
    {
      assert OpenedOnce(db, classify, t);
    }
  }

  /** Every reopening is written down once, unless its writing failed or the request died first. */
  lemma ReopeningsRecorded(classify: bool, run: seq<Event>, ticket: nat)
    requires Valid(Start(classify), run)
    ensures var w := Run(Start(classify), run);
      w.cleared[ticket] == multiset(w.db.trail)[Entry(ticket, Reopened)] + Pending(w.requests, ticket) + w.lost[ticket]
  {
    StartIsInv(classify);
    RunKeeps(Start(classify), run);
    var w := Run(Start(classify), run);
    hide Run, Valid;
    assert AccountedFor(w, ticket);
  }

  /** What a delivery is told is so: its email is stored, on the ticket it is answered with. */
  lemma AnswersAreTrue(classify: bool, run: seq<Event>, r: nat)
    requires Valid(Start(classify), run) && r < |Run(Start(classify), run).requests|
    requires Run(Start(classify), run).requests[r].phase.Answered?
    ensures var w := Run(Start(classify), run); var q := w.requests[r];
      TicketOf(IdOf(q.email), w.db.messages) == Some(q.phase.ticket) && q.phase.ticket in w.db.tickets
  {
    StartIsInv(classify);
    RunKeeps(Start(classify), run);
    var w := Run(Start(classify), run);
    hide Run, Valid, TicketOf;
    assert Holds(w.db, w.requests[r]);
    StoredIsOnTicket(w.db, IdOf(w.requests[r].email));
  }

  /** What the world answers a delivery along its way. */
  datatype Luck = Luck(
    id: nat, at: nat, reopenLogged: bool, assistant: Option<string>, handoff: Option<string>, handoffLogged: bool)

  /** Before the transaction. */
  predicate Unsettled(phase: Phase) {
    phase.Arrived? || phase.Unseen? || phase.Routed?
  }

  /** The step a delivery takes next. */
  function Next(w: World, r: nat, c: Luck): Event
    requires r < |w.requests| && !w.requests[r].phase.Answered? && !w.requests[r].phase.Failed?
  {
    match w.requests[r].phase
    case Arrived => Check(r)
    case Unseen => Route(r)
    case Routed(_) => Commit(r, c.id, c.at)
    case Reopening(_) => RecordReopen(r, c.reopenLogged)
    case Settling(_) => Reassign(r, c.assistant, c.handoff)
    case Handing(_, _, _) => RecordHandoff(r, c.handoffLogged)
  }

  /** No interleaving leaves a delivery with nothing it can do. */
  lemma NeverStuck(w: World, r: nat, c: Luck)
    requires Sane(w.db, w.classify) && RequestsHold(w)
    requires r < |w.requests| && !w.requests[r].phase.Answered? && !w.requests[r].phase.Failed?
    requires Unsettled(w.requests[r].phase) ==> c.id !in w.db.tickets
    ensures Can(w, Next(w, r, c))
  {
    hide TicketOf, EachOpenedOnce, UniqueIds, Carried;
    var q := w.requests[r];
    assert Holds(w.db, q);
    if q.phase.Settling? {
      StoredIsOnTicket(w.db, IdOf(q.email));
    }
  }

  // ------------------------------------------------------------------ a repeated delivery

  /** A delivery of an email that is stored already, not the one that stored it. */
  ghost predicate Repeats(w: World, r: nat) {
    && r < |w.requests|
    && Stored(IdOf(w.requests[r].email), w.db.messages)
    && (w.requests[r].phase.Arrived? || w.requests[r].phase.Unseen? || w.requests[r].phase.Routed?
        || w.requests[r].phase.Answered? || w.requests[r].phase.Failed?)
  }

  /** Equal in everything but how far delivery `r` has got. */
  ghost predicate SameBut(w: World, v: World, r: nat) {
    && w.db == v.db && w.classify == v.classify && w.cleared == v.cleared && w.lost == v.lost
    && |w.requests| == |v.requests| && r < |w.requests|
    && forall k :: 0 <= k < |w.requests| && k != r ==> w.requests[k] == v.requests[k]
  }

  function Without(run: seq<Event>, r: nat): seq<Event> {
    if run == [] then []
    else if Actor(run[0]) == Some(r) then Without(run[1..], r)
    else [run[0]] + Without(run[1..], r)
  }

  lemma OwnStepWritesNothing(w: World, v: World, e: Event, r: nat)
    requires Repeats(w, r) && SameBut(w, v, r) && Can(w, e) && Actor(e) == Some(r)
    ensures Repeats(After(w, e), r) && SameBut(After(w, e), v, r)
  {
    hide TicketOf, IdOf, ParentFor, Append, OpenTicket;
  }

  lemma WorkAlike(w: World, v: World, e: Event, r: nat)
    requires SameBut(w, v, r) && Can(w, e) && IsWork(e)
    ensures Can(v, e) && SameBut(After(w, e), After(v, e), r)
  {
    assert Worked(w, e) == Worked(v, e);
    hide Worked, SameBut;
    var next, vext := w.(db := Worked(w, e)), v.(db := Worked(v, e));
    assert After(w, e) == next && After(v, e) == vext;
    SameDb(w, v, Worked(w, e), r);
  }

  lemma SameDb(w: World, v: World, db: Db, r: nat)
    requires SameBut(w, v, r)
    ensures SameBut(w.(db := db), v.(db := db), r)
  {
  }

  lemma OthersStepAlike(w: World, v: World, e: Event, r: nat)
    requires SameBut(w, v, r) && Can(w, e) && Actor(e) != Some(r)
    ensures Can(v, e) && SameBut(After(w, e), After(v, e), r)
  {
    if IsWork(e) {
      hide *;
      WorkAlike(w, v, e, r);
    } else if e.Commit? {
      hide *;
      CommitAlike(w, v, e, r);
    } else if e.RecordReopen? || e.Reassign? || e.RecordHandoff? {
      hide *;
      FollowUpAlike(w, v, e, r);
    } else {
      hide TicketOf, IdOf, ParentFor, Committed, Worked, Stored, ReopenRecorded, Reassigned, HandoffRecorded;
    }
  }

  lemma MovedAlike(w: World, v: World, k: nat, phase: Phase, r: nat)
    requires SameBut(w, v, r) && k < |w.requests| && k != r
    ensures w.db == v.db && k < |v.requests| && v.requests[k] == w.requests[k]
    ensures SameBut(Moved(w, k, phase), Moved(v, k, phase), r)
  {
  }

  lemma LostAlike(w: World, v: World, t: nat, r: nat)
    requires SameBut(w, v, r)
    ensures SameBut(w.(lost := w.lost + multiset{t}), v.(lost := v.lost + multiset{t}), r)
  {
  }

  lemma FollowUpAlike(w: World, v: World, e: Event, r: nat)
    requires SameBut(w, v, r) && Can(w, e) && (e.RecordReopen? || e.Reassign? || e.RecordHandoff?) && e.r != r
    ensures Can(v, e) && SameBut(After(w, e), After(v, e), r)
  {
    hide SameBut, Moved;
    var phase := w.requests[e.r].phase;
    if e.RecordReopen? {
      MovedAlike(w, v, e.r, Settling(phase.ticket), r);
      var next, vext := Moved(w, e.r, Settling(phase.ticket)), Moved(v, e.r, Settling(phase.ticket));
      LostAlike(next, vext, phase.ticket, r);
      LoggedAlike(next, vext, Entry(phase.ticket, Reopened), r);
    } else if e.RecordHandoff? {
      MovedAlike(w, v, e.r, Answered(Threaded, phase.ticket), r);
      var next := Moved(w, e.r, Answered(Threaded, phase.ticket));
      var vext := Moved(v, e.r, Answered(Threaded, phase.ticket));
      LoggedAlike(next, vext, Entry(phase.ticket, AssigneeChanged(phase.from, phase.to)), r);
    } else {
      MovedAlike(w, v, e.r, Answered(Threaded, phase.ticket), r);
      if e.assistant.Some? && w.db.tickets[phase.ticket].assignee == e.assistant {
        var db := At(w.db, phase.ticket, w.db.tickets[phase.ticket].(assignee := e.handoff));
        SameDb(w, v, db, r);
        MovedAlike(w.(db := db), v.(db := db), e.r, Handing(phase.ticket, e.assistant.value, e.handoff), r);
      }
    }
  }

  lemma LoggedAlike(w: World, v: World, entry: Entry, r: nat)
    requires SameBut(w, v, r)
    ensures SameBut(Logged(w, entry), Logged(v, entry), r)
  {
  }

  lemma CommitAlike(w: World, v: World, e: Event, r: nat)
    requires SameBut(w, v, r) && Can(w, e) && e.Commit? && e.r != r
    ensures Can(v, e) && SameBut(After(w, e), After(v, e), r)
  {
    hide TicketOf, IdOf, Append, OpenTicket, Stored, Worked;
  }

  lemma StillRepeats(w: World, e: Event, r: nat)
    requires Inv(w) && Repeats(w, r) && Can(w, e) && Actor(e) != Some(r)
    ensures Repeats(After(w, e), r)
  {
    hide After, Can, Sane, TicketOf, IdOf, RequestsHold, Accounted;
    StepKeeps(w, e);
    OthersStay(w, e);
  }

  /**
    Delivering again what is stored writes nothing: take all of a repeated delivery's steps
    out of any run, and the tables and every other delivery end the same.
    */
  lemma {:induction false} RepeatWritesNothing(w: World, v: World, run: seq<Event>, r: nat)
    requires Inv(w) && Valid(w, run) && Repeats(w, r) && SameBut(w, v, r)
    ensures Valid(v, Without(run, r))
    ensures SameBut(Run(w, run), Run(v, Without(run, r)), r)
    decreases |run|
  {
    hide After, Can, Inv, Repeats, SameBut, Actor;
    if run != [] {
      var e := run[0];
      StepKeeps(w, e);
      if Actor(e) == Some(r) {
        OwnStepWritesNothing(w, v, e, r);
        RepeatWritesNothing(After(w, e), v, run[1..], r);
      } else {
        StillRepeats(w, e, r);
        OthersStepAlike(w, v, e, r);
        RepeatWritesNothing(After(w, e), After(v, e), run[1..], r);
        assert ([e] + Without(run[1..], r))[1..] == Without(run[1..], r);
      }
    }
  }

  // ------------------------------------------------------------------ answers find their thread

  /** A delivery whose email names `m` as what it answers goes to the ticket of `m`, or nowhere. */
  ghost predicate Lands(q: Request, m: Message) {
    DirectParent(q.email) == Some(m.id) ==>
      match q.phase
      case Routed(parent) => parent == Some(m.ticket)
      case Reopening(t) => t == m.ticket
      case Settling(t) => t == m.ticket
      case Handing(t, _, _) => t == m.ticket
      case Answered(outcome, t) => outcome == Deduped || (outcome == Threaded && t == m.ticket)
      case _ => true
  }

  lemma ActorLands(w: World, e: Event, r: nat, m: Message)
    requires Inv(w) && Can(w, e) && Actor(e) == Some(r) && r < |w.requests| && Lands(w.requests[r], m)
    requires m.id != "" && TicketOf(m.id, w.db.messages) == Some(m.ticket)
    ensures r < |After(w, e).requests| && Lands(After(w, e).requests[r], m)
  {
    hide TicketOf, IdOf, Inv, ParentFor, DirectParent, Stored, Worked, Committed;
    if e.Commit? {
      hide Lands;
      CommitLands(w, e.r, e.id, e.at, m);
    } else if e.Route? && DirectParent(w.requests[r].email) == Some(m.id) {
      StoredParentLands(w.requests[r].email, m.id, m.ticket, w.db.messages);
    }
  }

  lemma CommitLands(w: World, r: nat, id: nat, at: nat, m: Message)
    requires Can(w, Commit(r, id, at)) && Lands(w.requests[r], m)
    ensures r < |Committed(w, r, id, at).requests| && Lands(Committed(w, r, id, at).requests[r], m)
  {
    hide TicketOf, IdOf, Append, OpenTicket, DirectParent, Stored;
  }

  lemma StoredParentLands(email: InboundEmail, id: string, ticket: nat, messages: seq<Message>)
    requires id != "" && DirectParent(email) == Some(id) && TicketOf(id, messages) == Some(ticket)
    ensures ParentFor(email, messages) == Some(ticket)
  {
    var candidates := Candidates(DirectParent(email), References(email));
    assert candidates == [id] + NonEmpty(Reversed(References(email))) by {
      assert ([id] + Reversed(References(email)))[1..] == Reversed(References(email));
    }
  }

  lemma {:induction false} RunLands(w: World, run: seq<Event>, m: Message, from: nat)
    requires Inv(w) && Valid(w, run)
    requires m.id != "" && TicketOf(m.id, w.db.messages) == Some(m.ticket)
    requires forall r :: from <= r < |w.requests| ==> Lands(w.requests[r], m)
    ensures forall r :: from <= r < |Run(w, run).requests| ==> Lands(Run(w, run).requests[r], m)
    decreases |run|
  {
    if run != [] {
      hide Inv, After, Can, TicketOf, Lands;
      var e := run[0];
      var next := After(w, e);
      StepKeeps(w, e);
      OthersStay(w, e);
      assert Stored(m.id, w.db.messages);
      forall r | from <= r < |next.requests|
        ensures Lands(next.requests[r], m)
      {
        if Actor(e) == Some(r) {
          ActorLands(w, e, r, m);
        } else if r == |w.requests| {
          ArrivedLands(next.requests[r], m);
        }
      }
      RunLands(next, run[1..], m, from);
    }
  }

  lemma ArrivedLands(q: Request, m: Message)
    requires q.phase.Arrived?
    ensures Lands(q, m)
  {
  }

  /**
    An email that answers a stored message, received or sent by the desk, is put on that
    message's ticket, whatever happens between its arriving and its being committed. The one
    id this leaves out is the empty one, which no header is looked up under.
    */
  lemma RepliesLand(w: World, run: seq<Event>, m: Message, r: nat)
    requires Inv(w) && Valid(w, run) && m in w.db.messages && m.id != ""
    requires |w.requests| <= r < |Run(w, run).requests|
    requires Run(w, run).requests[r].email.inReplyTo == Some(Bracketed(m.id))
    requires Run(w, run).requests[r].phase.Answered? && !Run(w, run).requests[r].phase.outcome.Deduped?
    ensures var q := Run(w, run).requests[r];
      q.phase == Answered(Threaded, m.ticket) && TicketOf(IdOf(q.email), Run(w, run).db.messages) == Some(m.ticket)
  {
    hide Run, Valid, TicketOf, IdOf;
    TicketOfStored(m, w.db.messages);
    RunLands(w, run, m, |w.requests|);
    BracketsComeOff(m.id);
    RunKeeps(w, run);
    assert Holds(Run(w, run).db, Run(w, run).requests[r]);
  }

  /** A message stored under the empty id is never answered into: its repliers open tickets of their own. */
  lemma EmptyIdIsNeverFound(email: InboundEmail, messages: seq<Message>)
    requires email.references == []
    requires email.inReplyTo == Some(Bracketed(""))
    ensures ParentFor(email, messages) == None
  {
    BracketsComeOff("");
    assert DirectParent(email) == Some("");
    assert References(email) == [];
    assert ([""] + Reversed([]))[1..] == [];
  }

  function BracketedAll(ids: seq<string>): seq<string> {
    if ids == [] then [] else [Bracketed(ids[0])] + BracketedAll(ids[1..])
  }

  lemma {:induction false} StrippedBracketed(ids: seq<string>)
    ensures Stripped(BracketedAll(ids)) == ids
  {
    if ids != [] {
      BracketsComeOff(ids[0]);
      StrippedBracketed(ids[1..]);
      assert BracketedAll(ids)[1..] == BracketedAll(ids[1..]);
    }
  }

  /**
    A customer's answer to an email the desk sent comes back to its ticket, also from a client
    that leaves In-Reply-To out and sends only the References.
    */
  lemma AnswerToDeskLands(w: World, row: OutboundEmail, email: InboundEmail)
    requires Inv(w) && row in w.db.outbox && row.messageId != ""
    requires email.inReplyTo == Some(Bracketed(row.messageId)) || email.inReplyTo == None
    requires email.references == BracketedAll(row.references + [row.messageId])
    ensures ParentFor(email, w.db.messages) == Some(row.ticket)
  {
    var messages := w.db.messages;
    var named := row.references + [row.messageId];
    StrippedBracketed(named);
    NonEmptyKeeps(named);
    BracketsComeOff(row.messageId);
    assert Owns(row, messages);
    hide TicketOf, NonEmpty, Bracketed, StripAngles, ParentFor;
    var m :| m in messages && m.id == row.messageId && m.ticket == row.ticket;
    forall n | n in messages && (DirectParent(email) == Some(n.id) || n.id in References(email))
      ensures n.ticket == row.ticket
    {
      TicketOfStored(n, messages);
      assert n.id in named;
    }
    AnyReferenceLands(email, row.ticket, m, messages);
  }

  // ------------------------------------------------------------------ whose resolution stands

  /** Resolved or closed, and not carrying the machine's stamp. */
  ghost predicate Settled(db: Db, t: nat) {
    t in db.tickets && (db.tickets[t].status == Resolved || db.tickets[t].status == Closed) && !db.tickets[t].stamped
  }

  lemma SettledStep(w: World, e: Event, t: nat)
    requires Inv(w) && Settled(w.db, t) && Can(w, e) && !(e.SetStatus? && e.ticket == t)
    ensures var next := After(w, e).db; Settled(next, t) && next.tickets[t].status == w.db.tickets[t].status
  {
    hide TicketOf, IdOf, ParentFor, Inv, Committed, Worked, Stored;
    if e.Commit? {
      hide Settled;
      SettledCommit(w, e.r, e.id, e.at, t);
    } else if IsWork(e) {
      hide Settled;
      SettledWork(w, e, t);
    }
  }

  lemma SettledCommit(w: World, r: nat, id: nat, at: nat, t: nat)
    requires Settled(w.db, t) && Can(w, Commit(r, id, at))
    ensures var next := Committed(w, r, id, at).db;
      Settled(next, t) && next.tickets[t].status == w.db.tickets[t].status
  {
    hide TicketOf, IdOf, Stored, DirectParent;
  }

  lemma SettledWork(w: World, e: Event, t: nat)
    requires Settled(w.db, t) && Can(w, e) && IsWork(e) && !(e.SetStatus? && e.ticket == t)
    ensures Settled(Worked(w, e), t) && Worked(w, e).tickets[t].status == w.db.tickets[t].status
  {
    hide TicketOf, Thread, Ids, NewOutboundMessageId, Stored;
  }

  /** What a person has settled no email and no worker reopens. */
  lemma {:induction false} SettledStands(w: World, run: seq<Event>, t: nat)
    requires Inv(w) && Valid(w, run) && Settled(w.db, t)
    requires forall e :: e in run ==> !(e.SetStatus? && e.ticket == t)
    ensures Settled(Run(w, run).db, t) && Run(w, run).db.tickets[t].status == w.db.tickets[t].status
    decreases |run|
  {
    hide Inv, After, Can, Settled;
    if run != [] {
      StepKeeps(w, run[0]);
      SettledStep(w, run[0], t);
      SettledStands(After(w, run[0]), run[1..], t);
    }
  }

  /**
    But a person's own Resolved does not take the machine's stamp away. A reply arriving on a
    ticket a person has just resolved reopens it exactly when the machine had resolved it
    earlier and no reply had reopened it since.
    */
  lemma StampOutlivesPerson(w: World, t: nat, r: nat, id: nat, at: nat)
    requires t in w.db.tickets && r < |w.requests| && w.requests[r].phase == Routed(Some(t))
    requires !Stored(IdOf(w.requests[r].email), w.db.messages)
    ensures var resolved := After(w, SetStatus(t, Resolved));
      && Can(resolved, Commit(r, id, at)) && resolved.db.tickets[t].status == Resolved
      && resolved.db.tickets[t].stamped == w.db.tickets[t].stamped
      && (After(resolved, Commit(r, id, at)).db.tickets[t].status == Open <==> w.db.tickets[t].stamped)
      && (After(resolved, Commit(r, id, at)).db.tickets[t].status == Resolved <==> !w.db.tickets[t].stamped)
  {
    hide TicketOf, IdOf;
  }

  /** Four steps in a row. */
  lemma FourSteps(w: World, a: Event, b: Event, c: Event, d: Event)
    requires Can(w, a) && Can(After(w, a), b) && Can(After(After(w, a), b), c)
    requires Can(After(After(After(w, a), b), c), d)
    ensures Valid(w, [a, b, c, d]) && Run(w, [a, b, c, d]) == After(After(After(After(w, a), b), c), d)
  {
    hide Can, After;
    var third, second, first := After(After(After(w, a), b), c), After(After(w, a), b), After(w, a);
    OneStep(third, d, []);
    OneStep(second, c, [d]);
    OneStep(first, b, [c, d]);
    OneStep(w, a, [b, c, d]);
    assert [d] + [] == [d] && [c] + [d] == [c, d] && [b] + [c, d] == [b, c, d] && [a] + [b, c, d] == [a, b, c, d];
  }

  lemma OneStep(w: World, e: Event, rest: seq<Event>)
    requires Can(w, e) && Valid(After(w, e), rest)
    ensures Valid(w, [e] + rest) && Run(w, [e] + rest) == Run(After(w, e), rest)
  {
    hide Can, After;
    assert ([e] + rest)[1..] == rest;
  }

  const QUESTION := InboundEmail("<a>", None, [], "")
  const ANSWERED := InboundEmail("<b>", Some("<a>"), [], "")

  /** A question, opened as ticket 1. */
  function Asked(): seq<Event> {
    [Receive(QUESTION), Check(0), Route(0), Commit(0, 1, 0)]
  }

  /** The assistant answers and resolves it; a person opens it again and resolves it themself. */
  function WorkedOn(): seq<Event> {
    [Claim(1), AutoReply(1, "u", 1), SetStatus(1, Open), SetStatus(1, Resolved)]
  }

  /** The customer writes back. */
  function WrittenBack(): seq<Event> {
    [Receive(ANSWERED), Check(1), Route(1), Commit(1, 2, 2)]
  }

  lemma IdsOfBoth()
    ensures IdOf(QUESTION) == "a" && IdOf(ANSWERED) == "b" && DirectParent(ANSWERED) == Some("a") && "a" != "b"
    ensures ParentFor(QUESTION, []) == None
    ensures NewOutboundMessageId(1, "u") != "a" && NewOutboundMessageId(1, "u") != "b"
  {
    BracketsComeOff("a");
    BracketsComeOff("b");
    assert Bracketed("a") == "<a>" && Bracketed("b") == "<b>" && "a"[0] != "b"[0] && |"<a>"| == 3;
    assert |NewOutboundMessageId(1, "u")| > 1;
  }

  lemma AskedOpens(classify: bool)
    ensures Valid(Start(classify), Asked())
    ensures var w := Run(Start(classify), Asked());
      && w.db == Db([Message("a", 1, false, None, 0, true)], map[1 := Ticket(New, false, None)], [Entry(1, Created)],
                    if classify then [1] else [], [])
      && |w.requests| == 1
  {
    IdsOfBoth();
    var w := Start(classify);
    hide IdOf, ParentFor;
    FourSteps(w, Receive(QUESTION), Check(0), Route(0), Commit(0, 1, 0));
  }

  lemma AutoReplied(w: World)
    requires w.db.messages == [Message("a", 1, false, None, 0, true)]
    requires w.db.tickets == map[1 := Ticket(Processing, false, None)]
    ensures Can(w, AutoReply(1, "u", 1))
    ensures var next := After(w, AutoReply(1, "u", 1));
      && next.requests == w.requests && next.db.tickets == map[1 := Ticket(Resolved, true, None)]
      && |next.db.messages| == 2 && next.db.messages[0] == w.db.messages[0]
      && next.db.messages[1].id == NewOutboundMessageId(1, "u")
  {
    IdsOfBoth();
    hide NewOutboundMessageId, Thread, Ids;
  }

  lemma WorkedOnResolves(w: World)
    requires w.db.messages == [Message("a", 1, false, None, 0, true)]
    requires w.db.tickets == map[1 := Ticket(New, false, None)]
    ensures Valid(w, WorkedOn())
    ensures var next := Run(w, WorkedOn());
      && next.requests == w.requests && next.db.tickets == map[1 := Ticket(Resolved, true, None)]
      && |next.db.messages| == 2 && next.db.messages[0] == w.db.messages[0]
      && next.db.messages[1].id == NewOutboundMessageId(1, "u")
  {
    var claimed := After(w, Claim(1));
    AutoReplied(claimed);
    hide NewOutboundMessageId, Write;
    FourSteps(w, Claim(1), AutoReply(1, "u", 1), SetStatus(1, Open), SetStatus(1, Resolved));
  }

  lemma WrittenBackReopens(w: World)
    requires |w.requests| == 1 && w.db.tickets == map[1 := Ticket(Resolved, true, None)]
    requires |w.db.messages| == 2 && w.db.messages[0] == Message("a", 1, false, None, 0, true)
    requires w.db.messages[1].id == NewOutboundMessageId(1, "u")
    ensures Valid(w, WrittenBack())
    ensures 1 in Run(w, WrittenBack()).db.tickets && Run(w, WrittenBack()).db.tickets[1].status == Open
  {
    IdsOfBoth();
    hide NewOutboundMessageId, IdOf;
    assert Candidates(DirectParent(ANSWERED), References(ANSWERED)) == ["a"];
    assert !Stored("b", w.db.messages) && TicketOf("a", w.db.messages) == Some(1);
    FourSteps(w, Receive(ANSWERED), Check(1), Route(1), Commit(1, 2, 2));
  }

  /** A run from nothing in which a reply reopens what a person was the last to resolve. */
  lemma PersonsResolutionUndone(classify: bool)
    ensures Valid(Start(classify), Asked())
    ensures Valid(Run(Start(classify), Asked()), WorkedOn())
    ensures var w := Run(Run(Start(classify), Asked()), WorkedOn());
      && WorkedOn()[3] == SetStatus(1, Resolved)
      && 1 in w.db.tickets && w.db.tickets[1].status == Resolved
      && Valid(w, WrittenBack())
      && 1 in Run(w, WrittenBack()).db.tickets && Run(w, WrittenBack()).db.tickets[1].status == Open
  {
    hide Valid, Run;
    AskedOpens(classify);
    var w := Run(Start(classify), Asked());
    WorkedOnResolves(w);
    WrittenBackReopens(Run(w, WorkedOn()));
  }

  // ------------------------------------------------------------------ as the program runs it

  function StepsLeft(phase: Phase): nat {
    match phase
    case Arrived => 6
    case Unseen => 5
    case Routed(_) => 4
    case Reopening(_) => 3
    case Settling(_) => 2
    case Handing(_, _, _) => 1
    case _ => 0
  }

  ghost predicate Ready(w: World, r: nat, c: Luck) {
    && Sane(w.db, w.classify) && RequestsHold(w) && r < |w.requests|
    && (Unsettled(w.requests[r].phase) ==> c.id !in w.db.tickets)
  }

  ghost predicate Descends(w: World, next: World, r: nat) {
    && r < |w.requests| && r < |next.requests|
    && StepsLeft(next.requests[r].phase) < StepsLeft(w.requests[r].phase)
    && (Unsettled(next.requests[r].phase) ==> Unsettled(w.requests[r].phase) && next.db.tickets == w.db.tickets)
  }

  lemma CommitDescends(w: World, r: nat, id: nat, at: nat)
    requires Can(w, Commit(r, id, at))
    ensures Descends(w, Committed(w, r, id, at), r)
  {
    hide TicketOf, IdOf, Append, OpenTicket, Stored;
  }

  lemma StepDescends(w: World, r: nat, c: Luck)
    requires r < |w.requests| && StepsLeft(w.requests[r].phase) > 0 && Can(w, Next(w, r, c))
    ensures Descends(w, After(w, Next(w, r, c)), r)
  {
    hide TicketOf, IdOf, ParentFor, Stored, Worked, Committed;
    if w.requests[r].phase.Routed? {
      hide Descends;
      CommitDescends(w, r, c.id, c.at);
    }
  }

  lemma StaysReady(w: World, r: nat, c: Luck)
    requires Ready(w, r, c) && StepsLeft(w.requests[r].phase) > 0
    ensures Can(w, Next(w, r, c)) && Ready(After(w, Next(w, r, c)), r, c)
    ensures StepsLeft(After(w, Next(w, r, c)).requests[r].phase) < StepsLeft(w.requests[r].phase)
  {
    hide Sane, RequestsHold, Can, After, Next, Grows, Holds;
    NeverStuck(w, r, c);
    var e := Next(w, r, c);
    StepIsSane(w, e);
    StepHolds(w, e);
    StepDescends(w, r, c);
  }

  /** The world once delivery `r` has run to its end with nothing happening beside it. */
  ghost function Delivered(w: World, r: nat, c: Luck): World
    requires Ready(w, r, c)
    decreases StepsLeft(w.requests[r].phase)
  {
    if StepsLeft(w.requests[r].phase) == 0 then w
    else
      StaysReady(w, r, c);
      Delivered(After(w, Next(w, r, c)), r, c)
  }

  lemma DeliveredOn(w: World, r: nat, c: Luck)
    requires Ready(w, r, c) && StepsLeft(w.requests[r].phase) > 0
    ensures Can(w, Next(w, r, c)) && Ready(After(w, Next(w, r, c)), r, c)
    ensures Delivered(w, r, c) == Delivered(After(w, Next(w, r, c)), r, c)
  {
    hide Ready, After, Can, Next;
    StaysReady(w, r, c);
  }

  lemma DeliveredDone(w: World, r: nat, c: Luck)
    requires Ready(w, r, c) && StepsLeft(w.requests[r].phase) == 0
    ensures Delivered(w, r, c) == w
  {
  }

  /** One delivery, `db` and how far it has got, and nothing else. */
  ghost function Alone(db: Db, email: InboundEmail, phase: Phase, classify: bool): World {
    World(db, [Request(email, phase)], classify, multiset{}, multiset{})
  }

  /** `db` and `answer` are what the delivery comes to from `w`. */
  ghost predicate EndsWith(w: World, c: Luck, db: Db, answer: Phase) {
    && Ready(w, 0, c)
    && Delivered(w, 0, c).db == db && Delivered(w, 0, c).requests != []
    && Delivered(w, 0, c).requests[0].phase == answer
  }

  lemma EndsHere(w: World, c: Luck)
    requires Ready(w, 0, c) && StepsLeft(w.requests[0].phase) == 0
    ensures EndsWith(w, c, w.db, w.requests[0].phase)
  {
    DeliveredDone(w, 0, c);
  }

  lemma EndsLater(w: World, c: Luck, db: Db, answer: Phase)
    requires Ready(w, 0, c) && StepsLeft(w.requests[0].phase) > 0 && Can(w, Next(w, 0, c))
    requires EndsWith(After(w, Next(w, 0, c)), c, db, answer)
    ensures EndsWith(w, c, db, answer)
  {
    hide Ready, After, Can, Next, Delivered;
    DeliveredOn(w, 0, c);
  }

  datatype Field = FieldStatus | FieldAssignee

  datatype Sent = Sent(id: string) | NoSuchTicket | IdTaken

  lemma StillUnseen(db: Db, email: InboundEmail)
    ensures TicketOf(IdOf(email), db.messages).None? ==> !Stored(IdOf(email), db.messages)
  {
  }

  class Desk {
    var messages: seq<Message>
    var tickets: map<nat, Ticket>
    var trail: seq<Entry>
    var jobs: seq<nat>
    var outbox: seq<OutboundEmail>

    constructor ()
      ensures Tables() == Start(false).db
    {
      messages, tickets, trail, jobs, outbox := [], map[], [], [], [];
    }

    function Tables(): Db
      reads this
    {
      Db(messages, tickets, trail, jobs, outbox)
    }

    /** One email, received with nothing else going on. `rows` is what the parent query answers. */
    method IngestInboundEmail(email: InboundEmail, rows: seq<(string, nat)>, classify: bool, c: Luck)
      returns (answer: Phase, changed: seq<Field>)
      requires Ready(Alone(Tables(), email, Arrived, classify), 0, c)
      requires Answers(rows, Candidates(DirectParent(email), References(email)), messages)
      modifies this
      ensures EndsWith(Alone(old(Tables()), email, Arrived, classify), c, Tables(), answer)
      ensures FieldStatus in changed <==>
                answer.Answered? && answer.outcome == Threaded && answer.ticket in old(tickets)
                && old(tickets)[answer.ticket].stamped
      ensures FieldAssignee in changed <==>
                FieldStatus in changed && c.assistant.Some? && old(tickets)[answer.ticket].assignee == c.assistant
    {
      hide TicketOf, IdOf, Candidates, ParentOf, EndsWith, Ready, References, DirectParent, Stored, Append, OpenTicket;
      changed := [];
      ghost var arrived := Alone(Tables(), email, Arrived, classify);
      StaysReady(arrived, 0, c);
      var existing := TicketOf(IdOf(email), messages);
      if existing.Some? {
        answer := Answered(Deduped, existing.value);
        assert After(arrived, Next(arrived, 0, c)) == Alone(Tables(), email, answer, classify);
        EndsHere(Alone(Tables(), email, answer, classify), c);
        EndsLater(arrived, c, Tables(), answer);
        return;
      }
      ghost var unseen := Alone(Tables(), email, Unseen, classify);
      assert After(arrived, Next(arrived, 0, c)) == unseen;
      StaysReady(unseen, 0, c);
      var parent := FindParentTicketId(DirectParent(email), References(email), rows, messages);
      ghost var routed := Alone(Tables(), email, Routed(parent), classify);
      assert After(unseen, Next(unseen, 0, c)) == routed;
      StaysReady(routed, 0, c);
      StillUnseen(arrived.db, email);
      if parent.None? {
        OpenNew(email, classify, c);
        answer := Answered(Opened, c.id);
      } else {
        answer, changed := AppendTo(email, parent.value, classify, c);
      }
      EndsLater(unseen, c, Tables(), answer);
      EndsLater(arrived, c, Tables(), answer);
    }

    /** The transaction that opens a ticket. */
    method OpenNew(email: InboundEmail, classify: bool, c: Luck)
      requires Ready(Alone(Tables(), email, Routed(None), classify), 0, c) && !Stored(IdOf(email), messages)
      modifies this
      ensures EndsWith(Alone(old(Tables()), email, Routed(None), classify), c, Tables(), Answered(Opened, c.id))
    {
      hide IdOf, EndsWith, Ready, Stored, DirectParent;
      ghost var routed := Alone(Tables(), email, Routed(None), classify);
      StaysReady(routed, 0, c);
      tickets := tickets[c.id := Ticket(New, false, None)];
      messages := messages + [Row(email, c.id, c.at, true)];
      trail := trail + [Entry(c.id, Created)];
      if classify {
        jobs := jobs + [c.id];
      }
      ghost var next := Alone(Tables(), email, Answered(Opened, c.id), classify);
      assert After(routed, Next(routed, 0, c)) == next;
      EndsHere(next, c);
      EndsLater(routed, c, Tables(), Answered(Opened, c.id));
    }

    /** The transaction that adds to a thread, and what follows when it reopened the ticket. */
    method AppendTo(email: InboundEmail, ticket: nat, classify: bool, c: Luck)
      returns (answer: Phase, changed: seq<Field>)
      requires Ready(Alone(Tables(), email, Routed(Some(ticket)), classify), 0, c) && !Stored(IdOf(email), messages)
      modifies this
      ensures EndsWith(Alone(old(Tables()), email, Routed(Some(ticket)), classify), c, Tables(), answer)
      ensures answer == Answered(Threaded, ticket) && ticket in old(tickets)
      ensures FieldStatus in changed <==> old(tickets)[ticket].stamped
      ensures FieldAssignee in changed <==>
                FieldStatus in changed && c.assistant.Some? && old(tickets)[ticket].assignee == c.assistant
    {
      hide IdOf, EndsWith, Ready, Stored, DirectParent;
      ghost var routed := Alone(Tables(), email, Routed(Some(ticket)), classify);
      StaysReady(routed, 0, c);
      changed := [];
      answer := Answered(Threaded, ticket);
      var was := tickets[ticket];
      messages := messages + [Row(email, ticket, c.at, false)];
      if was.stamped {
        tickets := tickets[ticket := was.(status := Open, stamped := false)];
        ghost var next := Alone(Tables(), email, Reopening(ticket), classify).(cleared := multiset{ticket});
        assert After(routed, Next(routed, 0, c)) == next;
        changed := HandBack(ticket, c, next);
      } else {
        assert After(routed, Next(routed, 0, c)) == Alone(Tables(), email, answer, classify);
        EndsHere(Alone(Tables(), email, answer, classify), c);
      }
      EndsLater(routed, c, Tables(), answer);
    }

    /** After a reopening has committed: its audit line, and the ticket out of the assistant's hands. */
    method HandBack(ticket: nat, c: Luck, ghost w: World) returns (changed: seq<Field>)
      requires Ready(w, 0, c) && w.db == Tables() && |w.requests| == 1 && w.requests[0].phase == Reopening(ticket)
      modifies `trail, `tickets
      ensures EndsWith(w, c, Tables(), Answered(Threaded, ticket))
      ensures FieldStatus in changed && ticket in old(tickets)
      ensures FieldAssignee in changed <==> c.assistant.Some? && old(tickets)[ticket].assignee == c.assistant
    {
      hide EndsWith, Ready, Committed, Worked, Checked, Crashed, ParentFor, Reassigned, HandoffRecorded;
      StaysReady(w, 0, c);
      ghost var settling := After(w, Next(w, 0, c));
      if c.reopenLogged {
        trail := trail + [Entry(ticket, Reopened)];
      }
      assert settling.db == Tables();
      changed := HandOver(ticket, c, settling);
      changed := [FieldStatus] + changed;
      EndsLater(w, c, Tables(), Answered(Threaded, ticket));
    }

    /** What the assistant holds goes to whoever the handoff names. */
    method HandOver(ticket: nat, c: Luck, ghost w: World) returns (changed: seq<Field>)
      requires Ready(w, 0, c) && w.db == Tables() && |w.requests| == 1 && w.requests[0].phase == Settling(ticket)
      modifies `trail, `tickets
      ensures EndsWith(w, c, Tables(), Answered(Threaded, ticket)) && ticket in old(tickets)
      ensures changed
           == if c.assistant.Some? && old(tickets)[ticket].assignee == c.assistant then [FieldAssignee] else []
    {
      hide EndsWith, Ready, Committed, Worked, Checked, Crashed, ParentFor, ReopenRecorded;
      StaysReady(w, 0, c);
      ghost var next := After(w, Next(w, 0, c));
      changed := [];
      if c.assistant.Some? && tickets[ticket].assignee == c.assistant {
        tickets := tickets[ticket := tickets[ticket].(assignee := c.handoff)];
        assert next.db == Tables();
        StaysReady(next, 0, c);
        ghost var last := After(next, Next(next, 0, c));
        if c.handoffLogged {
          trail := trail + [Entry(ticket, AssigneeChanged(c.assistant.value, c.handoff))];
        }
        changed := [FieldAssignee];
        assert last.db == Tables();
        EndsHere(last, c);
        EndsLater(next, c, Tables(), Answered(Threaded, ticket));
      } else {
        EndsHere(next, c);
      }
      EndsLater(w, c, Tables(), Answered(Threaded, ticket));
    }

    /** A reply from the desk: its message and the email that carries it, or neither. */
    method WriteReply(ticket: nat, uuid: string, at: nat, withheld: bool, ghost classify: bool) returns (sent: Sent)
      requires Sane(Tables(), classify)
      modifies this
      ensures Sane(Tables(), classify)
      ensures sent == NoSuchTicket <==> ticket !in old(tickets)
      ensures !sent.Sent? ==> Tables() == old(Tables())
      ensures sent.Sent? ==> Write(old(Tables()), ticket, uuid, at, withheld) == Some(Tables())
    {
      if ticket !in tickets {
        return NoSuchTicket;
      }
      hide Sane, TicketOf;
      ghost var before := Tables();
      var references := Ids(Thread(ticket, messages));
      var parent := LastId(references);
      var id := NewOutboundMessageId(ticket, uuid);
      if Stored(id, messages) {
        return IdTaken;
      }
      messages := messages + [Message(id, ticket, true, parent, at, false)];
      outbox := outbox + [OutboundEmail(ticket, id, parent, references, withheld)];
      WriteIsSane(before, ticket, uuid, at, withheld, classify);
      return Sent(id);
    }
  }
}
