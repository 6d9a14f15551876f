/**
  Message-IDs: how an arriving email finds the conversation it answers, and how a reply
  from the desk is written so that the answer to it finds its way back (section 3.6.4 of
  RFC 5322).
  */
module Threading {
  import opened Options

  // ------------------------------------------------------------------ angle brackets

  /** What JavaScript's `trim` takes off either end. */
  predicate IsSpace(c: char) {
    || '\t' <= c <= '\r' || c == ' ' || c == '\U{a0}' || c == '\U{1680}' || '\U{2000}' <= c <= '\U{200a}'
    || c == '\U{2028}' || c == '\U{2029}' || c == '\U{202f}' || c == '\U{205f}' || c == '\U{3000}' || c == '\U{feff}'
  }

  function TrimStart(s: string): string {
    if s != [] && IsSpace(s[0]) then TrimStart(s[1..]) else s
  }

  function TrimEnd(s: string): string {
    if s != [] && IsSpace(s[|s| - 1]) then TrimEnd(s[..|s| - 1]) else s
  }

  /** One bracket off the front and one off the back, after trimming. */
  function StripAngles(value: string): string {
    var trimmed := TrimEnd(TrimStart(value));
    var rest := if trimmed != [] && trimmed[0] == '<' then trimmed[1..] else trimmed;
    if rest != [] && rest[|rest| - 1] == '>' then rest[..|rest| - 1] else rest
  }

  function Bracketed(id: string): string {
    "<" + id + ">"
  }

  /** Whatever an id holds, its header form comes back to it. */
  lemma BracketsComeOff(id: string)
    ensures StripAngles(Bracketed(id)) == id
  {
    var value := Bracketed(id);
    assert value[0] == '<' && value[|value| - 1] == '>';
    assert TrimStart(value) == value && TrimEnd(value) == value;
    assert value[1..] == id + ">";
  }

  /** Space around the header's value changes nothing. */
  lemma SpaceComesOff(before: string, id: string, after: string)
    requires forall c :: c in before || c in after ==> IsSpace(c)
    ensures StripAngles(before + Bracketed(id) + after) == id
  {
    var value := before + Bracketed(id) + after;
    LeadingOff(before, Bracketed(id) + after);
    assert value == before + (Bracketed(id) + after);
    TrailingOff(Bracketed(id), after);
    BracketsComeOff(id);
    assert TrimStart(Bracketed(id)) == Bracketed(id);
  }

  lemma {:induction false} LeadingOff(before: string, rest: string)
    requires (forall c :: c in before ==> IsSpace(c)) && rest != [] && !IsSpace(rest[0])
    ensures TrimStart(before + rest) == rest
  {
    if before == [] {
      assert before + rest == rest;
    } else {
      assert (before + rest)[1..] == before[1..] + rest;
      LeadingOff(before[1..], rest);
    }
  }

  lemma {:induction false} TrailingOff(rest: string, after: string)
    requires (forall c :: c in after ==> IsSpace(c)) && rest != [] && !IsSpace(rest[|rest| - 1])
    ensures TrimEnd(rest + after) == rest
  {
    if after == [] {
      assert rest + after == rest;
    } else {
      assert (rest + after)[..|rest + after| - 1] == rest + after[..|after| - 1];
      assert (rest + after)[|rest + after| - 1] == after[|after| - 1];
      TrailingOff(rest, after[..|after| - 1]);
    }
  }

  // ------------------------------------------------------------------ the stored thread

  /**
    A row of the message table. `at` is `createdAt`. `opening` says the row was written in
    one statement with its ticket; it is bookkeeping the table does not hold.
    */
  datatype Message = Message(
    id: string, ticket: nat, outbound: bool, inReplyTo: Option<string>, at: nat, opening: bool)

  datatype InboundEmail = InboundEmail(
    messageId: string, inReplyTo: Option<string>, references: seq<string>, senderName: string)

  ghost predicate UniqueIds(messages: seq<Message>) {
    forall j, k :: 0 <= j < k < |messages| ==> messages[j].id != messages[k].id
  }

  /** The ticket of the message stored under `id`. */
  function TicketOf(id: string, messages: seq<Message>): (ticket: Option<nat>)
    ensures ticket.Some? <==> exists m :: m in messages && m.id == id
    ensures ticket.Some? ==> exists m :: m in messages && m.id == id && m.ticket == ticket.value
  {
    if messages == [] then None
    else if messages[0].id == id then
      assert messages[0] in messages;
      Some(messages[0].ticket)
    else
      var rest := TicketOf(id, messages[1..]);
      assert messages == [messages[0]] + messages[1..];
      rest
  }

  predicate Stored(id: string, messages: seq<Message>) {
    TicketOf(id, messages).Some?
  }

  lemma TicketOfStored(m: Message, messages: seq<Message>)
    requires UniqueIds(messages) && m in messages
    ensures TicketOf(m.id, messages) == Some(m.ticket)
  {
    var n :| n in messages && n.id == m.id && n.ticket == TicketOf(m.id, messages).value;
    var j :| 0 <= j < |messages| && messages[j] == m;
    var k :| 0 <= k < |messages| && messages[k] == n;
    assert j == k;
  }

  function Reversed(ids: seq<string>): seq<string> {
    if ids == [] then [] else Reversed(ids[1..]) + [ids[0]]
  }

  function NonEmpty(ids: seq<string>): seq<string> {
    if ids == [] then []
    else if ids[0] == "" then NonEmpty(ids[1..])
    else [ids[0]] + NonEmpty(ids[1..])
  }

  function Stripped(values: seq<string>): seq<string> {
    if values == [] then [] else [StripAngles(values[0])] + Stripped(values[1..])
  }

  /** An absent header and an empty one are the same: both are falsy. */
  function DirectParent(email: InboundEmail): Option<string> {
    if email.inReplyTo.Some? && email.inReplyTo.value != "" then Some(StripAngles(email.inReplyTo.value)) else None
  }

  function References(email: InboundEmail): seq<string> {
    NonEmpty(Stripped(email.references))
  }

  /** What an email may answer, the likeliest first: the id it answers directly, then its references reversed. */
  function Candidates(inReplyTo: Option<string>, references: seq<string>): seq<string> {
    NonEmpty((if inReplyTo.Some? then [inReplyTo.value] else []) + Reversed(references))
  }

  /** The candidates tried one at a time. */
  function ParentOf(candidates: seq<string>, messages: seq<Message>): Option<nat> {
    if candidates == [] then None
    else if Stored(candidates[0], messages) then TicketOf(candidates[0], messages)
    else ParentOf(candidates[1..], messages)
  }

  function ParentFor(email: InboundEmail, messages: seq<Message>): Option<nat> {
    ParentOf(Candidates(DirectParent(email), References(email)), messages)
  }

  /** `rows` is what the one query may answer: every stored candidate's row, in any order. */
  ghost predicate Answers(rows: seq<(string, nat)>, candidates: seq<string>, messages: seq<Message>) {
    && (forall row :: row in rows ==> row.0 in candidates && TicketOf(row.0, messages) == Some(row.1))
    && (forall c :: c in candidates && Stored(c, messages) ==> exists row :: row in rows && row.0 == c)
  }

  /** One query for all the candidates picks the ticket that asking for each in turn picks. */
  method FindParentTicketId(
    inReplyTo: Option<string>, references: seq<string>, rows: seq<(string, nat)>, ghost messages: seq<Message>)
    returns (found: Option<nat>)
    requires Answers(rows, Candidates(inReplyTo, references), messages)
    ensures found == ParentOf(Candidates(inReplyTo, references), messages)
  {
    var candidates := Candidates(inReplyTo, references);
    if |candidates| == 0 {
      return None;
    }
    var ticketByMessageId: map<string, nat> := map[];
    for i := 0 to |rows|
      invariant forall id :: id in ticketByMessageId ==> TicketOf(id, messages) == Some(ticketByMessageId[id])
      invariant forall row :: row in rows[..i] ==> row.0 in ticketByMessageId
    {
      assert rows[i] in rows && rows[..i + 1] == rows[..i] + [rows[i]];
      ticketByMessageId := ticketByMessageId[rows[i].0 := rows[i].1];
    }
    assert rows[..|rows|] == rows;
    assert candidates[0..] == candidates;
    for i := 0 to |candidates|
      invariant ParentOf(candidates, messages) == ParentOf(candidates[i..], messages)
    {
      assert candidates[i] in candidates && candidates[i..][1..] == candidates[i + 1..];
      if candidates[i] in ticketByMessageId {
        return Some(ticketByMessageId[candidates[i]]);
      }
    }
    return None;
  }

  // ------------------------------------------------------------------ which ticket it lands on

  lemma {:induction false} NonEmptyKeeps(ids: seq<string>)
    ensures forall id :: id in NonEmpty(ids) <==> id in ids && id != ""
  {
    if ids != [] {
      NonEmptyKeeps(ids[1..]);
      assert ids == [ids[0]] + ids[1..];
    }
  }

  lemma {:induction false} ReversedKeeps(ids: seq<string>)
    ensures forall id :: id in Reversed(ids) <==> id in ids
  {
    if ids != [] {
      ReversedKeeps(ids[1..]);
      assert ids == [ids[0]] + ids[1..];
    }
  }

  lemma CandidatesAre(email: InboundEmail)
    ensures forall id :: id in Candidates(DirectParent(email), References(email)) <==>
              id != "" && (DirectParent(email) == Some(id) || id in References(email))
  {
    var direct := if DirectParent(email).Some? then [DirectParent(email).value] else [];
    NonEmptyKeeps(direct + Reversed(References(email)));
    ReversedKeeps(References(email));
  }

  lemma {:induction false} ParentIsFirstStored(candidates: seq<string>, messages: seq<Message>)
    ensures ParentOf(candidates, messages).None? <==> forall c :: c in candidates ==> !Stored(c, messages)
    ensures ParentOf(candidates, messages).Some? ==>
              exists k :: 0 <= k < |candidates| && TicketOf(candidates[k], messages) == ParentOf(candidates, messages)
                && forall j :: 0 <= j < k ==> !Stored(candidates[j], messages)
  {
    if candidates != [] {
      ParentIsFirstStored(candidates[1..], messages);
      assert candidates == [candidates[0]] + candidates[1..];
      if !Stored(candidates[0], messages) && ParentOf(candidates, messages).Some? {
        var k :| 0 <= k < |candidates[1..]| && TicketOf(candidates[1..][k], messages) == ParentOf(candidates, messages)
          && forall j :: 0 <= j < k ==> !Stored(candidates[1..][j], messages);
        assert TicketOf(candidates[k + 1], messages) == ParentOf(candidates, messages);
        forall j | 0 <= j < k + 1
          ensures !Stored(candidates[j], messages)
        {
          if j > 0 {
            assert candidates[j] == candidates[1..][j - 1];
          }
        }
      }
    }
  }

  /** An email naming a stored message as what it answers lands on that message's ticket. */
  lemma DirectReplyLands(email: InboundEmail, m: Message, messages: seq<Message>)
    requires UniqueIds(messages) && m in messages && m.id != "" && DirectParent(email) == Some(m.id)
    ensures ParentFor(email, messages) == Some(m.ticket)
  {
    TicketOfStored(m, messages);
    var candidates := Candidates(DirectParent(email), References(email));
    assert candidates == [m.id] + NonEmpty(Reversed(References(email))) by {
      assert ([m.id] + Reversed(References(email)))[1..] == Reversed(References(email));
    }
  }

  /**
    However a client truncates or reorders the headers, an email that still names one
    message of a ticket, and no message of another, lands on that ticket.
    */
  lemma AnyReferenceLands(email: InboundEmail, ticket: nat, m: Message, messages: seq<Message>)
    requires UniqueIds(messages) && m in messages && m.id != "" && m.ticket == ticket
    requires DirectParent(email) == Some(m.id) || m.id in References(email)
    requires forall n :: n in messages && (DirectParent(email) == Some(n.id) || n.id in References(email)) ==>
               n.ticket == ticket
    ensures ParentFor(email, messages) == Some(ticket)
  {
    var candidates := Candidates(DirectParent(email), References(email));
    CandidatesAre(email);
    ParentIsFirstStored(candidates, messages);
    assert m.id in candidates && Stored(m.id, messages);
    var k :| 0 <= k < |candidates| && TicketOf(candidates[k], messages) == ParentOf(candidates, messages);
    var n :| n in messages && n.id == candidates[k] && n.ticket == TicketOf(candidates[k], messages).value;
    assert candidates[k] in candidates;
  }

  /** No header names anything stored: the email opens a ticket of its own. */
  lemma UnknownParentsOpen(email: InboundEmail, messages: seq<Message>)
    ensures ParentFor(email, messages).None? <==>
            forall m :: m in messages && m.id != "" ==> DirectParent(email) != Some(m.id) && m.id !in References(email)
  {
    var candidates := Candidates(DirectParent(email), References(email));
    CandidatesAre(email);
    ParentIsFirstStored(candidates, messages);
    if ParentFor(email, messages).None? {
      forall m | m in messages && m.id != ""
        ensures DirectParent(email) != Some(m.id) && m.id !in References(email)
      {
        assert Stored(m.id, messages);
      }
    } else {
      var k :| 0 <= k < |candidates| && TicketOf(candidates[k], messages) == ParentOf(candidates, messages);
      var n :| n in messages && n.id == candidates[k];
      assert candidates[k] in candidates;
    }
  }

  // ------------------------------------------------------------------ writing a reply

  function Decimal(n: nat): string {
    (if n < 10 then [] else Decimal(n / 10)) + [('0' as int + n % 10) as char]
  }

  const MESSAGE_ID_DOMAIN := "tickets.example.com"

  function NewOutboundMessageId(ticket: nat, uuid: string): string {
    Decimal(ticket) + "." + uuid + "@" + MESSAGE_ID_DOMAIN
  }

  /** Among rows in order of `createdAt`, after every one written no later. */
  function Placed(thread: seq<Message>, m: Message): (placed: seq<Message>)
    ensures |placed| == |thread| + 1
    ensures placed[|thread|] == (if thread == [] || thread[|thread| - 1].at <= m.at then m else thread[|thread| - 1])
    ensures multiset(placed) == multiset(thread) + multiset{m}
  {
    if thread == [] || thread[|thread| - 1].at <= m.at then thread + [m]
    else
      assert thread == thread[..|thread| - 1] + [thread[|thread| - 1]];
      Placed(thread[..|thread| - 1], m) + [thread[|thread| - 1]]
  }

  /** A ticket's messages by `createdAt`, the order of writing breaking ties. */
  function Thread(ticket: nat, messages: seq<Message>): seq<Message> {
    if messages == [] then []
    else
      var m := messages[|messages| - 1];
      var earlier := Thread(ticket, messages[..|messages| - 1]);
      if m.ticket == ticket then Placed(earlier, m) else earlier
  }

  function Ids(thread: seq<Message>): seq<string> {
    if thread == [] then [] else [thread[0].id] + Ids(thread[1..])
  }

  ghost predicate InOrder(thread: seq<Message>) {
    forall j, k :: 0 <= j < k < |thread| ==> thread[j].at <= thread[k].at
  }

  lemma {:induction false} PlacedInOrder(thread: seq<Message>, m: Message)
    requires InOrder(thread)
    ensures InOrder(Placed(thread, m))
  {
    if thread != [] && thread[|thread| - 1].at > m.at {
      var last := thread[|thread| - 1];
      var placed := Placed(thread[..|thread| - 1], m);
      PlacedInOrder(thread[..|thread| - 1], m);
      assert placed[|placed| - 1].at <= last.at;
    }
  }

  /** The messages of one ticket, in the order they were stored. */
  function OfTicket(ticket: nat, messages: seq<Message>): seq<Message> {
    if messages == [] then []
    else
      OfTicket(ticket, messages[..|messages| - 1])
      + if messages[|messages| - 1].ticket == ticket then [messages[|messages| - 1]] else []
  }

  /** `rows[k]` is the latest of `rows`; among those of one instant, the last. */
  ghost predicate LatestAt(rows: seq<Message>, k: nat) {
    && k < |rows|
    && (forall j :: 0 <= j <= k ==> rows[j].at <= rows[k].at)
    && (forall j :: k < j < |rows| ==> rows[j].at < rows[k].at)
  }

  ghost predicate EndsLatest(thread: seq<Message>, rows: seq<Message>) {
    if thread == [] then rows == []
    else exists k: nat :: LatestAt(rows, k) && rows[k] == thread[|thread| - 1]
  }

  lemma {:induction false} ThreadInOrder(ticket: nat, messages: seq<Message>)
    ensures InOrder(Thread(ticket, messages))
  {
    if messages != [] {
      hide InOrder, Placed;
      var earlier := messages[..|messages| - 1];
      ThreadInOrder(ticket, earlier);
      PlacedInOrder(Thread(ticket, earlier), messages[|messages| - 1]);
    }
  }

  lemma {:induction false} ThreadRows(ticket: nat, messages: seq<Message>)
    ensures multiset(Thread(ticket, messages)) == multiset(OfTicket(ticket, messages))
  {
    if messages != [] {
      hide Placed;
      ThreadRows(ticket, messages[..|messages| - 1]);
    }
  }

  lemma {:induction false} ThreadEnds(ticket: nat, messages: seq<Message>)
    ensures EndsLatest(Thread(ticket, messages), OfTicket(ticket, messages))
  {
    if messages != [] {
      hide EndsLatest, Placed;
      var earlier := messages[..|messages| - 1];
      ThreadEnds(ticket, earlier);
      LatestAfter(Thread(ticket, earlier), OfTicket(ticket, earlier), messages[|messages| - 1]);
      assert OfTicket(ticket, earlier) + [] == OfTicket(ticket, earlier);
    }
  }

  /**
    The thread is the ticket's messages and no others, in time order, and what a reply hangs
    off is the latest of them: among those of one instant, the last to be stored.
    */
  lemma ThreadEndsLatest(ticket: nat, messages: seq<Message>)
    ensures InOrder(Thread(ticket, messages))
    ensures multiset(Thread(ticket, messages)) == multiset(OfTicket(ticket, messages))
    ensures EndsLatest(Thread(ticket, messages), OfTicket(ticket, messages))
  {
    ThreadInOrder(ticket, messages);
    ThreadRows(ticket, messages);
    ThreadEnds(ticket, messages);
  }

  lemma LatestAfter(thread: seq<Message>, rows: seq<Message>, m: Message)
    requires EndsLatest(thread, rows)
    ensures EndsLatest(Placed(thread, m), rows + [m])
  {
    var all := rows + [m];
    if thread == [] || thread[|thread| - 1].at <= m.at {
      assert LatestAt(all, |rows|);
    } else {
      var k: nat :| LatestAt(rows, k) && rows[k] == thread[|thread| - 1];
      assert LatestAt(all, k);
    }
  }
}
