/**
  Reading the transcripts: append-only files of one record a line, each resumed at its
  cursor. `parse` stands for decoding a line and parsing it as
  JSON: it answers the record of a line that carries usage, and nothing for any
  other line.
  */
module Transcripts {
  import opened Options
  import opened Responses

  newtype Byte = n: int | 0 <= n < 256
  type Bytes = seq<Byte>

  const NEWLINE: Byte := 10
  const HEAD_BYTES: nat := 1024

  /** A record with usage. An id or uuid it does not carry is the empty string. */
  datatype Record = Record(
    messageId: string,
    uuid: string,
    session: Option<string>,
    branch: Option<string>,
    at: Option<string>,
    counts: Counts)

  type Parser = Bytes -> Option<Record>

  /** A transcript as one scan finds it: its name and its bytes up to its size then. */
  datatype File = File(name: string, content: Bytes)

  /** How far a transcript has been read. `head` stands for the hash of those bytes. */
  datatype Cursor = Cursor(offset: nat, size: nat, lines: nat, head: Bytes)

  type Cursors = map<string, Cursor>

  function IdentityOf(rec: Record, file: string, line: nat): Id {
    if rec.messageId != "" then Message(rec.messageId)
    else if rec.uuid != "" then Uuid(rec.uuid)
    else Line(file, line)
  }

  function ResponseOf(rec: Record, file: string, line: nat): Response {
    Response(IdentityOf(rec, file, line), rec.session, rec.branch, rec.at, rec.counts, Some(file))
  }

  // -------------------------------------------------------------------- lines

  function LineEnd(bytes: Bytes): (end: nat)
    ensures end <= |bytes|
    ensures forall k :: 0 <= k < end ==> bytes[k] != NEWLINE
    ensures end < |bytes| ==> bytes[end] == NEWLINE
  {
    if bytes == [] || bytes[0] == NEWLINE then 0 else 1 + LineEnd(bytes[1..])
  }

  /** How many newlines `bytes` holds: the lines before whatever follows it. */
  function Newlines(bytes: Bytes): nat {
    var end := LineEnd(bytes);
    if end == |bytes| then 0 else 1 + Newlines(bytes[end + 1..])
  }

  /** The length of `bytes` up to and including its last newline. */
  function Complete(bytes: Bytes): (n: nat)
    ensures n <= |bytes|
    ensures n == 0 || bytes[n - 1] == NEWLINE
    ensures forall k :: n <= k < |bytes| ==> bytes[k] != NEWLINE
  {
    var end := LineEnd(bytes);
    if end == |bytes| then 0 else end + 1 + Complete(bytes[end + 1..])
  }

  /** What one line offers: the response of its record, or nothing. */
  function OfferOf(parse: Parser, file: string, line: nat, text: Bytes): seq<Response> {
    if text == [] || parse(text).None? then []
    else [ResponseOf(parse(text).value, file, line)]
  }

  /**
    What `bytes` offers when `before` lines come ahead of it: every line in order, the
    unterminated tail parsed like any other.
    */
  function Offers(parse: Parser, file: string, bytes: Bytes, before: nat): seq<Response> {
    var end := LineEnd(bytes);
    OfferOf(parse, file, before + 1, bytes[..end])
    + if end == |bytes| then [] else Offers(parse, file, bytes[end + 1..], before + 1)
  }

  // ------------------------------------------------------------------ the read

  /** The cursor a file is read on from, when it still is the file that was read. */
  function Resume(content: Bytes, prior: Option<Cursor>): Option<Cursor> {
    if && prior.Some?
       && prior.value.offset <= |content|
       && content[..Min(prior.value.offset, HEAD_BYTES)] == prior.value.head
    then prior
    else None
  }

  function Min(a: nat, b: nat): nat {
    if a < b then a else b
  }

  predicate Unchanged(content: Bytes, prior: Option<Cursor>) {
    prior.Some? && prior.value.size == |content|
  }

  function FileOffers(parse: Parser, f: File, prior: Option<Cursor>): seq<Response> {
    if Unchanged(f.content, prior) then []
    else match Resume(f.content, prior)
      case None => Offers(parse, f.name, f.content[0..], 0)
      case Some(c) => Offers(parse, f.name, f.content[c.offset..], c.lines)
  }

  function FileCursor(content: Bytes, prior: Option<Cursor>): Cursor {
    if Unchanged(content, prior) then prior.value
    else
      var resume := Resume(content, prior);
      var from := if resume.Some? then resume.value.offset else 0;
      var lines := if resume.Some? then resume.value.lines else 0;
      var offset := from + Complete(content[from..]);
      Cursor(offset, |content|, lines + Newlines(content[from..]), content[..Min(offset, HEAD_BYTES)])
  }

  function CursorFor(cursors: Cursors, name: string): Option<Cursor> {
    if name in cursors then Some(cursors[name]) else None
  }

  /** Every offer a scan of `dir` reads, file after file. */
  function ScanOffers(parse: Parser, dir: seq<File>, cursors: Cursors): seq<Response> {
    if dir == [] then []
    else
      var f := dir[|dir| - 1];
      ScanOffers(parse, dir[..|dir| - 1], cursors) + FileOffers(parse, f, CursorFor(cursors, f.name))
  }

  function ScanCursors(dir: seq<File>, cursors: Cursors): Cursors {
    if dir == [] then map[]
    else
      var f := dir[|dir| - 1];
      ScanCursors(dir[..|dir| - 1], cursors)[f.name := FileCursor(f.content, CursorFor(cursors, f.name))]
  }

  /** `responses` lists the rows of `rows`, each once, and `seen` says where. */
  ghost predicate Listed(responses: seq<Response>, seen: map<Id, nat>, rows: Rows) {
    && seen.Keys == rows.Keys
    && (forall i :: i in seen ==> seen[i] < |responses| && responses[seen[i]] == rows[i] && rows[i].id == i)
    && (forall k :: 0 <= k < |responses| ==>
          && responses[k].id in seen
          && seen[responses[k].id] == k
          && responses[k].window.Some?)
  }

  /** Keep one more record: a response seen before takes its counts, a new one joins the list. */
  method Keep(responses: seq<Response>, seen: map<Id, nat>, r: Response, ghost rows: Rows)
    returns (kept: seq<Response>, index: map<Id, nat>)
    requires Listed(responses, seen, rows) && r.window.Some?
    ensures Listed(kept, index, Upsert(rows, r))
  {
    if r.id in seen {
      var at := seen[r.id];
      var larger := LargerCounts(responses[at].counts, r.counts);
      kept, index := responses[at := responses[at].(counts := larger)], seen;
    } else {
      kept, index := responses + [r], seen[r.id := |responses|];
    }
  }

  /** One line: its record's response kept, or nothing when it holds no record. */
  method ReadLine(parse: Parser, file: string, line: nat, text: Bytes,
                  responses: seq<Response>, seen: map<Id, nat>, ghost rows: Rows)
    returns (kept: seq<Response>, index: map<Id, nat>)
    requires Listed(responses, seen, rows)
    ensures Listed(kept, index, UpsertAll(rows, OfferOf(parse, file, line, text)))
  {
    kept, index := responses, seen;
    if text != [] && parse(text).Some? {
      var r := ResponseOf(parse(text).value, file, line);
      kept, index := Keep(kept, index, r, rows);
      UpsertAllSnoc(rows, [], r);
      assert [] + [r] == OfferOf(parse, file, line, text);
    }
  }

  lemma OffersUnfold(parse: Parser, file: string, bytes: Bytes, before: nat)
    ensures var end := LineEnd(bytes);
      Offers(parse, file, bytes, before)
      == OfferOf(parse, file, before + 1, bytes[..end])
         + if end == |bytes| then [] else Offers(parse, file, bytes[end + 1..], before + 1)
  {
    hide OfferOf, LineEnd;
  }

  lemma OffersStep(parse: Parser, file: string, bytes: Bytes, before: nat, rows: Rows)
    ensures var end := LineEnd(bytes);
            var here := UpsertAll(rows, OfferOf(parse, file, before + 1, bytes[..end]));
            UpsertAll(rows, Offers(parse, file, bytes, before))
            == if end == |bytes| then here else UpsertAll(here, Offers(parse, file, bytes[end + 1..], before + 1))
  {
    var end := LineEnd(bytes);
    var here := OfferOf(parse, file, before + 1, bytes[..end]);
    OffersUnfold(parse, file, bytes, before);
    hide Offers, OfferOf, LineEnd, UpsertAll;
    if end == |bytes| {
      assert here + [] == here;
    } else {
      UpsertAllConcat(rows, here, Offers(parse, file, bytes[end + 1..], before + 1));
    }
  }

  /** The lines of what was read of one file, folded into what the scan has kept so far. */
  method ReadLines(parse: Parser, file: string, bytes: Bytes, firstLine: nat,
                   responses: seq<Response>, seen: map<Id, nat>, ghost rows: Rows)
    returns (kept: seq<Response>, index: map<Id, nat>, newlines: nat)
    requires Listed(responses, seen, rows)
    ensures Listed(kept, index, UpsertAll(rows, Offers(parse, file, bytes, firstLine)))
    ensures newlines == Newlines(bytes)
  {
    hide Listed, UpsertAll, Offers, OfferOf, LineEnd;
    kept, index, newlines := responses, seen, 0;
    ghost var now := rows;
    var rest, more := bytes, true;
    while more
      invariant Listed(kept, index, now)
      invariant UpsertAll(rows, Offers(parse, file, bytes, firstLine))
             == if more then UpsertAll(now, Offers(parse, file, rest, firstLine + newlines)) else now
      invariant Newlines(bytes) == newlines + if more then Newlines(rest) else 0
      decreases more, |rest|
    {
      var end := LineEnd(rest);
      OffersStep(parse, file, rest, firstLine + newlines, now);
      kept, index := ReadLine(parse, file, firstLine + newlines + 1, rest[..end], kept, index, now);
      now := UpsertAll(now, OfferOf(parse, file, firstLine + newlines + 1, rest[..end]));
      if end == |rest| {
        more := false;
      } else {
        rest, newlines := rest[end + 1..], newlines + 1;
      }
    }
  }

  lemma ScanStep(parse: Parser, dir: seq<File>, cursors: Cursors, f: File)
    ensures var prior := CursorFor(cursors, f.name);
      && UpsertAll(map[], ScanOffers(parse, dir + [f], cursors))
         == UpsertAll(UpsertAll(map[], ScanOffers(parse, dir, cursors)), FileOffers(parse, f, prior))
      && ScanCursors(dir + [f], cursors) == ScanCursors(dir, cursors)[f.name := FileCursor(f.content, prior)]
  {
    assert (dir + [f])[..|dir|] == dir;
    UpsertAllConcat(map[], ScanOffers(parse, dir, cursors), FileOffers(parse, f, CursorFor(cursors, f.name)));
  }

  /** One file: nothing when its size has not moved, else what was written since its cursor. */
  method ReadFile(parse: Parser, f: File, prior: Option<Cursor>,
                  responses: seq<Response>, seen: map<Id, nat>, ghost rows: Rows)
    returns (kept: seq<Response>, index: map<Id, nat>, cursor: Cursor)
    requires Listed(responses, seen, rows)
    ensures Listed(kept, index, UpsertAll(rows, FileOffers(parse, f, prior)))
    ensures cursor == FileCursor(f.content, prior)
  {
    hide Listed, Offers, Complete, Newlines, LineEnd;
    if Unchanged(f.content, prior) {
      return responses, seen, prior.value;
    }
    var resume := Resume(f.content, prior);
    var from := if resume.Some? then resume.value.offset else 0;
    var firstLine := if resume.Some? then resume.value.lines else 0;
    var bytes := f.content[from..];
    var newlines: nat;
    kept, index, newlines := ReadLines(parse, f.name, bytes, firstLine, responses, seen, rows);
    var offset := from + Complete(bytes);
    cursor := Cursor(offset, |f.content|, firstLine + newlines, f.content[..Min(offset, HEAD_BYTES)]);
  }

  /**
    Every response the scan finds in `dir`, each once at its largest counts, and the cursor of
    every file.
    */
  method ReadTranscripts(parse: Parser, dir: seq<File>, cursors: Cursors)
    returns (responses: seq<Response>, next: Cursors, ghost seen: map<Id, nat>)
    ensures Listed(responses, seen, UpsertAll(map[], ScanOffers(parse, dir, cursors)))
    ensures next == ScanCursors(dir, cursors)
  {
    var index: map<Id, nat> := map[];
    responses, next := [], map[];
    for i := 0 to |dir|
      invariant Listed(responses, index, UpsertAll(map[], ScanOffers(parse, dir[..i], cursors)))
      invariant next == ScanCursors(dir[..i], cursors)
    {
      hide Listed, UpsertAll, FileCursor, FileOffers;
      var f := dir[i];
      assert dir[..i + 1] == dir[..i] + [f];
      ScanStep(parse, dir[..i], cursors, f);
      var cursor;
      responses, index, cursor := ReadFile(parse, f, CursorFor(cursors, f.name), responses, index,
                                           UpsertAll(map[], ScanOffers(parse, dir[..i], cursors)));
      next := next[f.name := cursor];
    }
    assert dir[..|dir|] == dir;
    seen := index;
  }
}
