/**
  Editing a file's text by pairs that must each occur exactly once, and undoing the edit
  with the same pairs.
  */
module ReplaceOnce {
  import opened Options

  const BOM := "\U{feff}"
  const LF := "\n"
  const CRLF := "\r\n"

  datatype Pair = Pair(before: string, after: string)

  /** One replacement to make: a pair as it is applied, forward or back. */
  datatype Step = Step(number: nat, from: string, to: string)

  datatype Failure = EmptySearch(number: nat) | Occurs(number: nat, from: string, times: nat)

  datatype Result = Edited(text: string) | Failed(failures: seq<Failure>)

  // ------------------------------------------------------------------ newlines

  /** `split(/\r?\n/)`. */
  function Split(s: string): (parts: seq<string>)
    ensures parts != []
  {
    if s == "" then [""]
    else if s[0] == '\n' then [""] + Split(s[1..])
    else if s[0] == '\r' && |s| > 1 && s[1] == '\n' then [""] + Split(s[2..])
    else
      var rest := Split(s[1..]);
      [[s[0]] + rest[0]] + rest[1..]
  }

  function Join(parts: seq<string>, ending: string): string
    requires parts != []
  {
    if |parts| == 1 then parts[0] else parts[0] + ending + Join(parts[1..], ending)
  }

  predicate HasCrlf(s: string) {
    exists k :: 0 <= k < |s| - 1 && s[k] == '\r' && s[k + 1] == '\n'
  }

  predicate HasLf(s: string) {
    '\n' in s
  }

  function EndingOf(matched: string, fileEnding: string): string {
    if HasCrlf(matched) then CRLF else if HasLf(matched) then LF else fileEnding
  }

  function FileEnding(text: string): string {
    if HasCrlf(text) then CRLF else LF
  }

  // ------------------------------------------------------------------ the search

  predicate StartsAt(text: string, at: nat, part: string) {
    at + |part| <= |text| && text[at..at + |part|] == part
  }

  /** Where the newline at `at` ends, if there is one. */
  function NewlineEnd(text: string, at: nat): (end: Option<nat>)
    ensures end.Some? ==> at < end.value <= |text|
  {
    if at < |text| && text[at] == '\n' then Some(at + 1)
    else if at + 1 < |text| && text[at] == '\r' && text[at + 1] == '\n' then Some(at + 2)
    else None
  }

  /** Where a match of `parts`, a newline of either kind between each two, ends if one begins at `at`. */
  function MatchEnd(text: string, at: nat, parts: seq<string>): (end: Option<nat>)
    requires parts != []
    ensures end.Some? ==> at <= end.value <= |text|
    decreases |parts|
  {
    if !StartsAt(text, at, parts[0]) then None
    else
      var next := at + |parts[0]|;
      if |parts| == 1 then Some(next)
      else if NewlineEnd(text, next).None? then None
      else MatchEnd(text, NewlineEnd(text, next).value, parts[1..])
  }

  predicate MatchesAt(text: string, at: nat, parts: seq<string>)
    requires parts != []
  {
    MatchEnd(text, at, parts).Some?
  }

  /** Every place from `at` on where a match begins, overlapping ones too. */
  function Places(text: string, at: nat, parts: seq<string>): seq<nat>
    requires parts != []
    decreases |text| + 1 - at
  {
    if at > |text| then []
    else if MatchesAt(text, at, parts) then [at] + Places(text, at + 1, parts)
    else Places(text, at + 1, parts)
  }

  lemma {:induction false} PlacesAll(text: string, at: nat, parts: seq<string>)
    requires parts != []
    ensures forall p: nat :: p in Places(text, at, parts) <==> at <= p <= |text| && MatchesAt(text, p, parts)
    decreases |text| + 1 - at
  {
    if at <= |text| {
      hide MatchesAt;
      PlacesAll(text, at + 1, parts);
    }
  }

  /** The one place a search string occurs, if it occurs exactly once. */
  function OnlyPlace(text: string, from: string): (place: Option<nat>)
    ensures place.Some? ==> place.value <= |text| && MatchesAt(text, place.value, Split(from))
  {
    var places := Places(text, 0, Split(from));
    if |places| == 1 then
      PlacesAll(text, 0, Split(from));
      assert places[0] in places;
      Some(places[0])
    else None
  }

  lemma OnlyPlaceIsOnly(text: string, from: string, p: nat)
    requires OnlyPlace(text, from).Some? && p <= |text| && MatchesAt(text, p, Split(from))
    ensures p == OnlyPlace(text, from).value
  {
    PlacesAll(text, 0, Split(from));
  }

  // ------------------------------------------------------------------ a step and a run

  /** `text` with the one occurrence replaced, or nothing when there is not exactly one. */
  function Replaced(text: string, from: string, to: string, fileEnding: string): Option<string> {
    if from == "" || OnlyPlace(text, from).None? then None
    else
      var at := OnlyPlace(text, from).value;
      var end := MatchEnd(text, at, Split(from)).value;
      Some(text[..at] + Join(Split(to), EndingOf(text[at..end], fileEnding)) + text[end..])
  }

  function FailureOf(text: string, step: Step): Failure {
    if step.from == "" then EmptySearch(step.number)
    else Occurs(step.number, step.from, |Places(text, 0, Split(step.from))|)
  }

  /** What a run leaves and what it could not do: a failed step is passed over. */
  function Applied(text: string, steps: seq<Step>, fileEnding: string): (string, seq<Failure>)
    decreases |steps|
  {
    if steps == [] then (text, [])
    else
      var next := Replaced(text, steps[0].from, steps[0].to, fileEnding);
      if next.Some? then Applied(next.value, steps[1..], fileEnding)
      else
        var rest := Applied(text, steps[1..], fileEnding);
        (rest.0, [FailureOf(text, steps[0])] + rest.1)
  }

  function Forward(pairs: seq<Pair>): seq<Step> {
    if pairs == [] then []
    else Forward(pairs[..|pairs| - 1]) + [Step(|pairs|, pairs[|pairs| - 1].before, pairs[|pairs| - 1].after)]
  }

  function Back(pairs: seq<Pair>): seq<Step> {
    if pairs == [] then []
    else [Step(|pairs|, pairs[|pairs| - 1].after, pairs[|pairs| - 1].before)] + Back(pairs[..|pairs| - 1])
  }

  function StepsOf(pairs: seq<Pair>, revert: bool): seq<Step> {
    if revert then Back(pairs) else Forward(pairs)
  }

  function WithoutBom(text: string): string {
    if BOM <= text then text[1..] else text
  }

  function Outcome(text: string, pairs: seq<Pair>, revert: bool): Result {
    var start := WithoutBom(text);
    var done := Applied(start, StepsOf(pairs, revert), FileEnding(start));
    if done.1 == [] then Edited(done.0) else Failed(done.1)
  }

  // ------------------------------------------------------------------ as the program runs it

  /** The loop over `exec`, starting each search one past the last match. */
  method Occurrences(text: string, from: string) returns (found: seq<nat>)
    ensures found == Places(text, 0, Split(from))
  {
    var parts := Split(from);
    hide Split, MatchesAt, MatchEnd, Places, FirstFrom;
    found := [];
    var lastIndex := 0;
    while true
      invariant found + Places(text, lastIndex, parts) == Places(text, 0, parts)
      invariant lastIndex <= |text| + 1
      decreases |text| + 1 - lastIndex
    {
      var first := FirstFrom(text, lastIndex, parts);
      FirstFromIs(text, lastIndex, parts);
      if first.None? {
        break;
      }
      found := found + [first.value];
      lastIndex := first.value + 1;
    }
  }

  /** The leftmost match from `at` on. */
  function FirstFrom(text: string, at: nat, parts: seq<string>): (place: Option<nat>)
    requires parts != []
    ensures place.Some? ==> at <= place.value <= |text|
    decreases |text| + 1 - at
  {
    if at > |text| then None
    else if MatchesAt(text, at, parts) then Some(at)
    else FirstFrom(text, at + 1, parts)
  }

  lemma {:induction false} FirstFromIs(text: string, at: nat, parts: seq<string>)
    requires parts != []
    ensures var first := FirstFrom(text, at, parts);
      Places(text, at, parts) == if first.None? then [] else [first.value] + Places(text, first.value + 1, parts)
    decreases |text| + 1 - at
  {
    hide MatchesAt;
    if at <= |text| && !MatchesAt(text, at, parts) {
      FirstFromIs(text, at + 1, parts);
    }
  }

  method StepsInOrder(pairs: seq<Pair>, revert: bool) returns (steps: seq<Step>)
    ensures steps == StepsOf(pairs, revert)
  {
    steps := [];
    for i := 0 to |pairs|
      invariant steps == StepsOf(pairs[..i], revert)
    {
      assert pairs[..i + 1][..i] == pairs[..i];
      steps :=
        if revert then [Step(i + 1, pairs[i].after, pairs[i].before)] + steps
        else steps + [Step(i + 1, pairs[i].before, pairs[i].after)];
    }
    assert pairs[..|pairs|] == pairs;
  }

  /** One step, on what those before it left. */
  method Make(text: string, step: Step, fileEnding: string) returns (next: Option<string>, failure: Option<Failure>)
    ensures next == Replaced(text, step.from, step.to, fileEnding)
    ensures failure == if next.Some? then None else Some(FailureOf(text, step))
  {
    if step.from == "" {
      return None, Some(EmptySearch(step.number));
    }
    hide MatchEnd, Join, Split, EndingOf, Places;
    var found := Occurrences(text, step.from);
    if |found| != 1 {
      return None, Some(Occurs(step.number, step.from, |found|));
    }
    PlacesAll(text, 0, Split(step.from));
    assert found[0] in found;
    var end := MatchEnd(text, found[0], Split(step.from)).value;
    next := Some(text[..found[0]] + Join(Split(step.to), EndingOf(text[found[0]..end], fileEnding)) + text[end..]);
    failure := None;
  }

  method Edit(text: string, pairs: seq<Pair>, revert: bool) returns (edited: Result)
    ensures edited == Outcome(text, pairs, revert)
  {
    hide Replaced, FailureOf, HasCrlf, StepsOf;
    var result := WithoutBom(text);
    var fileEnding := FileEnding(result);
    var steps := StepsInOrder(pairs, revert);
    var failures: seq<Failure> := [];
    ghost var whole := Applied(result, steps, fileEnding);
    assert steps[0..] == steps;
    for i := 0 to |steps|
      invariant Applied(result, steps[i..], fileEnding).0 == whole.0
      invariant failures + Applied(result, steps[i..], fileEnding).1 == whole.1
    {
      assert steps[i..][0] == steps[i] && steps[i..][1..] == steps[i + 1..];
      var next, failure := Make(result, steps[i], fileEnding);
      if next.Some? {
        result := next.value;
      } else {
        failures := failures + [failure.value];
      }
    }
    assert failures + [] == failures;
    if |failures| > 0 {
      return Failed(failures);
    }
    return Edited(result);
  }

  // ------------------------------------------------------------------ what a step does

  /** A run in which every step succeeds. */
  function Run(text: string, steps: seq<Step>, fileEnding: string): Option<string>
    decreases |steps|
  {
    if steps == [] then Some(text)
    else
      var next := Replaced(text, steps[0].from, steps[0].to, fileEnding);
      if next.None? then None else Run(next.value, steps[1..], fileEnding)
  }

  lemma {:induction false} AppliedIsRun(text: string, steps: seq<Step>, fileEnding: string)
    ensures Applied(text, steps, fileEnding).1 == [] <==> Run(text, steps, fileEnding).Some?
    ensures Applied(text, steps, fileEnding).1 == [] ==>
              Some(Applied(text, steps, fileEnding).0) == Run(text, steps, fileEnding)
    decreases |steps|
  {
    if steps != [] {
      hide Replaced, FailureOf;
      var next := Replaced(text, steps[0].from, steps[0].to, fileEnding);
      if next.Some? {
        AppliedIsRun(next.value, steps[1..], fileEnding);
      }
    }
  }

  /** An edit is all of its steps or none: text comes back exactly when each step in turn occurs once. */
  lemma EditedIffEveryStep(text: string, pairs: seq<Pair>, revert: bool)
    ensures var run := Run(WithoutBom(text), StepsOf(pairs, revert), FileEnding(WithoutBom(text)));
      && (Outcome(text, pairs, revert).Edited? <==> run.Some?)
      && (run.Some? ==> Outcome(text, pairs, revert) == Edited(run.value))
  {
    hide Replaced, FileEnding, StepsOf;
    AppliedIsRun(WithoutBom(text), StepsOf(pairs, revert), FileEnding(WithoutBom(text)));
  }

  lemma RunSnoc(text: string, steps: seq<Step>, last: Step, fileEnding: string)
    ensures var before := Run(text, steps, fileEnding);
      Run(text, steps + [last], fileEnding)
      == if before.None? then None else Replaced(before.value, last.from, last.to, fileEnding)
    decreases |steps|
  {
    if steps == [] {
      hide Replaced;
      assert [] + [last] == [last] && [last][1..] == [];
    } else {
      hide Replaced;
      assert (steps + [last])[1..] == steps[1..] + [last];
      var next := Replaced(text, steps[0].from, steps[0].to, fileEnding);
      if next.Some? {
        RunSnoc(next.value, steps[1..], last, fileEnding);
      }
    }
  }

  lemma StartsWhere(before: string, part: string, rest: string)
    ensures StartsAt(before + part + rest, |before|, part)
  {
  }

  lemma StartsSplit(text: string, at: nat, a: string, b: string)
    requires StartsAt(text, at, a + b)
    ensures StartsAt(text, at, a) && StartsAt(text, at + |a|, b)
  {
    var whole := text[at..at + |a + b|];
    assert whole[..|a|] == a && whole[|a|..] == b;
    assert whole[..|a|] == text[at..at + |a|];
    assert whole[|a|..] == text[at + |a|..at + |a| + |b|];
  }

  lemma StartsWith(text: string, at: nat, part: string, k: nat)
    requires StartsAt(text, at, part) && k < |part|
    ensures at + k < |text| && text[at + k] == part[k]
  {
    assert text[at..at + |part|][k] == text[at + k];
  }

  lemma EndingThere(text: string, at: nat, ending: string)
    requires (ending == LF || ending == CRLF) && StartsAt(text, at, ending)
    ensures NewlineEnd(text, at) == Some(at + |ending|)
  {
    StartsWith(text, at, ending, 0);
    if ending == CRLF {
      StartsWith(text, at, ending, 1);
    }
  }

  /** The first part where it was put, and then the newline. */
  lemma JoinedFirst(text: string, at: nat, parts: seq<string>, ending: string)
    requires |parts| > 1 && (ending == LF || ending == CRLF) && StartsAt(text, at, Join(parts, ending))
    ensures var next := at + |parts[0]|;
      && StartsAt(text, at, parts[0]) && next + |ending| <= |text| && NewlineEnd(text, next) == Some(next + |ending|)
      && StartsAt(text, next + |ending|, Join(parts[1..], ending))
      && |Join(parts, ending)| == |parts[0]| + |ending| + |Join(parts[1..], ending)|
  {
    var tail := Join(parts[1..], ending);
    hide StartsAt, NewlineEnd;
    StartsSplit(text, at, parts[0] + ending, tail);
    StartsSplit(text, at, parts[0], ending);
    EndingThere(text, at + |parts[0]|, ending);
    StartsIn(text, at + |parts[0]|, ending);
  }

  lemma StartsIn(text: string, at: nat, part: string)
    requires StartsAt(text, at, part)
    ensures at + |part| <= |text|
  {
  }

  /** A replacement is found where it was put, whichever newline joins it. */
  lemma {:induction false} JoinedMatches(text: string, at: nat, parts: seq<string>, ending: string)
    requires parts != [] && (ending == LF || ending == CRLF) && StartsAt(text, at, Join(parts, ending))
    ensures MatchEnd(text, at, parts) == Some(at + |Join(parts, ending)|)
    decreases |parts|
  {
    if |parts| > 1 {
      JoinedFirst(text, at, parts, ending);
      hide StartsAt, NewlineEnd, Join;
      JoinedMatches(text, at + |parts[0]| + |ending|, parts[1..], ending);
    }
  }

  /** A match is its first part, a newline and the rest of it. */
  lemma MatchParts(text: string, at: nat, parts: seq<string>)
    requires |parts| > 1 && MatchesAt(text, at, parts)
    ensures var next := at + |parts[0]|;
      && next <= |text| && NewlineEnd(text, next).Some? && MatchesAt(text, NewlineEnd(text, next).value, parts[1..])
      && var past := NewlineEnd(text, next).value;
         && MatchEnd(text, at, parts) == MatchEnd(text, past, parts[1..])
         && text[at..MatchEnd(text, at, parts).value]
         == parts[0] + text[next..past] + text[past..MatchEnd(text, at, parts).value]
  {
    var next := at + |parts[0]|;
    var past := NewlineEnd(text, next).value;
    var end := MatchEnd(text, past, parts[1..]).value;
    assert text[at..next] == parts[0];
    hide MatchEnd, NewlineEnd, StartsAt;
    assert text[at..end] == text[at..next] + text[next..past] + text[past..end];
  }

  lemma NewlineLf(text: string, at: nat)
    requires NewlineEnd(text, at).Some? && !HasCrlf(text)
    ensures text[at..NewlineEnd(text, at).value] == LF
  {
  }

  lemma NewlineCrlf(text: string, at: nat)
    requires NewlineEnd(text, at).Some? && Crlf(text) && at > 0 && text[at - 1] != '\r'
    ensures text[at..NewlineEnd(text, at).value] == CRLF
  {
  }

  /** Every newline of a match in an LF text is LF. */
  lemma {:induction false} MatchedIsLf(text: string, at: nat, parts: seq<string>)
    requires parts != [] && MatchesAt(text, at, parts) && !HasCrlf(text)
    ensures text[at..MatchEnd(text, at, parts).value] == Join(parts, LF)
    decreases |parts|
  {
    if |parts| > 1 {
      MatchParts(text, at, parts);
      hide MatchEnd, NewlineEnd, StartsAt, HasCrlf;
      NewlineLf(text, at + |parts[0]|);
      MatchedIsLf(text, NewlineEnd(text, at + |parts[0]|).value, parts[1..]);
    }
  }

  lemma PartThenNewline(text: string, at: nat, parts: seq<string>)
    requires parts != [] && MatchesAt(text, at, parts) && Whole(parts)
    requires parts[0] != "" || (at > 0 && text[at - 1] != '\r')
    ensures var next := at + |parts[0]|; 0 < next <= |text| && text[next - 1] != '\r'
  {
    if parts[0] != "" {
      StartsWith(text, at, parts[0], |parts[0]| - 1);
    }
  }

  /** And of one in a CRLF text CRLF, when it does not begin inside a newline. */
  lemma {:induction false} MatchedIsCrlf(text: string, at: nat, parts: seq<string>)
    requires parts != [] && MatchesAt(text, at, parts) && Crlf(text) && Whole(parts)
    requires parts[0] != "" || (at > 0 && text[at - 1] != '\r')
    ensures text[at..MatchEnd(text, at, parts).value] == Join(parts, CRLF)
    decreases |parts|
  {
    if |parts| > 1 {
      var next := at + |parts[0]|;
      hide MatchEnd;
      MatchParts(text, at, parts);
      PartThenNewline(text, at, parts);
      hide StartsAt, MatchesAt;
      NewlineCrlf(text, next);
      hide NewlineEnd, Crlf;
      assert text[next..NewlineEnd(text, next).value][1] == '\n';
      MatchedIsCrlf(text, NewlineEnd(text, next).value, parts[1..]);
    }
  }

  /** Every newline is CRLF, and there is no carriage return but in one. */
  ghost predicate Crlf(text: string) {
    && (forall k :: 0 <= k < |text| && text[k] == '\n' ==> k > 0 && text[k - 1] == '\r')
    && (forall k :: 0 <= k < |text| && text[k] == '\r' ==> k + 1 < |text| && text[k + 1] == '\n')
  }

  /** No part holds a character of a newline. */
  ghost predicate Whole(parts: seq<string>) {
    forall k :: 0 <= k < |parts| ==> '\r' !in parts[k] && '\n' !in parts[k]
  }

  // ------------------------------------------------------------------ LF

  lemma CrlfShows(before: string, inside: string, rest: string)
    requires HasCrlf(inside)
    ensures HasCrlf(before + inside + rest)
  {
    var text := before + inside + rest;
    var k :| 0 <= k < |inside| - 1 && inside[k] == '\r' && inside[k + 1] == '\n';
    assert text[|before| + k] == '\r' && text[|before| + k + 1] == '\n';
  }

  lemma InsideHasNoCrlf(before: string, inside: string, rest: string)
    requires !HasCrlf(before + inside + rest)
    ensures !HasCrlf(inside)
  {
    if HasCrlf(inside) {
      CrlfShows(before, inside, rest);
    }
  }

  /** What a step put in place of what, and where. */
  lemma ReplacedIs(text: string, from: string, to: string, fileEnding: string)
    requires Replaced(text, from, to, fileEnding).Some?
    ensures from != "" && OnlyPlace(text, from).Some?
    ensures var at := OnlyPlace(text, from).value; var end := MatchEnd(text, at, Split(from)).value;
      && at <= end <= |text| && text == text[..at] + text[at..end] + text[end..]
      && Replaced(text, from, to, fileEnding).value
      == text[..at] + Join(Split(to), EndingOf(text[at..end], fileEnding)) + text[end..]
  {
    var at := OnlyPlace(text, from).value;
    var end := MatchEnd(text, at, Split(from)).value;
    hide MatchEnd, OnlyPlace, Split, Join, EndingOf;
    ThreeParts(text, at, end);
  }

  lemma ThreeParts(text: string, at: nat, end: nat)
    requires at <= end <= |text|
    ensures text == text[..at] + text[at..end] + text[end..]
  {
  }

  /** The reverse step finds the replacement where it was put, and nowhere else. */
  lemma FoundAgain(before: string, to: string, ending: string, rest: string)
    requires ending == LF || ending == CRLF
    requires OnlyPlace(before + Join(Split(to), ending) + rest, to).Some?
    ensures OnlyPlace(before + Join(Split(to), ending) + rest, to) == Some(|before|)
    ensures MatchEnd(before + Join(Split(to), ending) + rest, |before|, Split(to))
            == Some(|before| + |Join(Split(to), ending)|)
  {
    StartsWhere(before, Join(Split(to), ending), rest);
    JoinedMatches(before + Join(Split(to), ending) + rest, |before|, Split(to), ending);
    OnlyPlaceIsOnly(before + Join(Split(to), ending) + rest, to, |before|);
  }

  lemma Slices(before: string, inside: string, rest: string)
    ensures var text := before + inside + rest;
      && text[..|before|] == before && text[|before|..|before| + |inside|] == inside
      && text[|before| + |inside|..] == rest
  {
  }

  /** The text a search string was found as. */
  function Matched(text: string, from: string): string {
    if OnlyPlace(text, from).None? then ""
    else
      var at := OnlyPlace(text, from).value;
      text[at..MatchEnd(text, at, Split(from)).value]
  }

  /**
    What a step took is what undoing it writes: the search string joined by the ending of what
    was put in its place, or, when that has no newline, by `laterEnding`, the ending of the file
    as it is then.
    */
  predicate PutsBack(text: string, from: string, to: string, fileEnding: string, laterEnding: string) {
    var matched := Matched(text, from);
    var put := Join(Split(to), EndingOf(matched, fileEnding));
    Join(Split(from), EndingOf(put, laterEnding)) == matched
  }

  lemma EndingIsOne(matched: string, fileEnding: string)
    requires fileEnding == LF || fileEnding == CRLF
    ensures EndingOf(matched, fileEnding) == LF || EndingOf(matched, fileEnding) == CRLF
  {
  }

  lemma MiddleIs(before: string, one: string, other: string, rest: string)
    ensures before + one + rest == before + other + rest <==> one == other
  {
    if before + one + rest == before + other + rest {
      Slices(before, one, rest);
      Slices(before, other, rest);
      assert |before + one + rest| == |before| + |one| + |rest|;
      assert |before + other + rest| == |before| + |other| + |rest|;
    }
  }

  /** A step is undone, if undoing it succeeds, exactly when that writes what the step took. */
  lemma StepUndoneIff(text: string, from: string, to: string, ending: string, later: string)
    requires (ending == LF || ending == CRLF) && (later == LF || later == CRLF)
    requires Replaced(text, from, to, ending).Some?
    requires Replaced(Replaced(text, from, to, ending).value, to, from, later).Some?
    ensures Replaced(Replaced(text, from, to, ending).value, to, from, later) == Some(text)
       <==> PutsBack(text, from, to, ending, later)
  {
    var next := Replaced(text, from, to, ending).value;
    ReplacedIs(text, from, to, ending);
    var at := OnlyPlace(text, from).value;
    var end := MatchEnd(text, at, Split(from)).value;
    var matched := Matched(text, from);
    assert matched == text[at..end];
    EndingIsOne(matched, ending);
    var put := Join(Split(to), EndingOf(matched, ending));
    hide Replaced, OnlyPlace, MatchEnd, EndingOf, Split, Join, Matched;
    assert next == text[..at] + put + text[end..];
    ReplacedIs(next, to, from, later);
    FoundAgain(text[..at], to, EndingOf(matched, ending), text[end..]);
    Slices(text[..at], put, text[end..]);
    MiddleIs(text[..at], Join(Split(from), EndingOf(put, later)), matched, text[end..]);
  }

  /** No text on the way holds a CRLF. */
  ghost predicate LfAlong(text: string, steps: seq<Step>, fileEnding: string)
    decreases |steps|
  {
    && !HasCrlf(text)
    && (steps != [] ==>
          (var next := Replaced(text, steps[0].from, steps[0].to, fileEnding);
           next.Some? ==> LfAlong(next.value, steps[1..], fileEnding)))
  }

  lemma {:induction false} LfAlongSnoc(text: string, steps: seq<Step>, last: Step)
    requires LfAlong(text, steps + [last], LF) && Run(text, steps + [last], LF).Some?
    ensures LfAlong(text, steps, LF) && Run(text, steps, LF).Some?
    ensures !HasCrlf(Run(text, steps, LF).value) && !HasCrlf(Run(text, steps + [last], LF).value)
    decreases |steps|
  {
    hide Replaced, HasCrlf;
    if steps == [] {
      assert [] + [last] == [last] && [last][1..] == [];
    } else {
      assert (steps + [last])[1..] == steps[1..] + [last];
      var next := Replaced(text, steps[0].from, steps[0].to, LF);
      LfAlongSnoc(next.value, steps[1..], last);
    }
  }

  lemma LfStepPutsBack(text: string, from: string, to: string)
    requires !HasCrlf(text) && Replaced(text, from, to, LF).Some?
    requires !HasCrlf(Replaced(text, from, to, LF).value)
    ensures PutsBack(text, from, to, LF, LF)
  {
    ReplacedIs(text, from, to, LF);
    var at := OnlyPlace(text, from).value;
    var end := MatchEnd(text, at, Split(from)).value;
    MatchedIsLf(text, at, Split(from));
    InsideHasNoCrlf(text[..at], text[at..end], text[end..]);
    assert EndingOf(text[at..end], LF) == LF;
    InsideHasNoCrlf(text[..at], Join(Split(to), LF), text[end..]);
    assert Matched(text, from) == text[at..end];
    hide Replaced, OnlyPlace, MatchEnd, Split, Join, Matched;
  }

  /** Each pair's step, undone, would write what it took. */
  ghost predicate EachPutsBack(text: string, pairs: seq<Pair>, ending: string, later: string)
    requires Run(text, Forward(pairs), ending).Some?
    decreases |pairs|
  {
    pairs == []
    || (EarlierRuns(text, pairs, ending);
        var earlier, pair := pairs[..|pairs| - 1], pairs[|pairs| - 1];
        && PutsBack(Run(text, Forward(earlier), ending).value, pair.before, pair.after, ending, later)
        && EachPutsBack(text, earlier, ending, later))
  }

  lemma EarlierRuns(text: string, pairs: seq<Pair>, ending: string)
    requires pairs != [] && Run(text, Forward(pairs), ending).Some?
    ensures var earlier, pair := pairs[..|pairs| - 1], pairs[|pairs| - 1];
      && Run(text, Forward(earlier), ending).Some?
      && Run(text, Forward(pairs), ending)
      == Replaced(Run(text, Forward(earlier), ending).value, pair.before, pair.after, ending)
  {
    var earlier, pair := pairs[..|pairs| - 1], pairs[|pairs| - 1];
    hide Replaced;
    RunSnoc(text, Forward(earlier), Step(|pairs|, pair.before, pair.after), ending);
  }

  /** The way back goes, text by text, through what the way out went through. */
  ghost predicate Retraced(text: string, pairs: seq<Pair>, ending: string, later: string)
    requires Run(text, Forward(pairs), ending).Some?
    decreases |pairs|
  {
    pairs == []
    || (EarlierRuns(text, pairs, ending);
        var earlier, pair := pairs[..|pairs| - 1], pairs[|pairs| - 1];
        var before := Run(text, Forward(earlier), ending).value;
        && Replaced(Run(text, Forward(pairs), ending).value, pair.after, pair.before, later) == Some(before)
        && Retraced(text, earlier, ending, later))
  }

  /** A run of pairs is retraced exactly when each of its steps, undone, writes what it took. */
  lemma {:induction false} RetracedIffEachPutsBack(text: string, pairs: seq<Pair>, ending: string, later: string)
    requires (ending == LF || ending == CRLF) && (later == LF || later == CRLF)
    requires Run(text, Forward(pairs), ending).Some?
    requires Run(Run(text, Forward(pairs), ending).value, Back(pairs), later).Some?
    ensures Retraced(text, pairs, ending, later) <==> EachPutsBack(text, pairs, ending, later)
    ensures Retraced(text, pairs, ending, later) ==>
              Run(Run(text, Forward(pairs), ending).value, Back(pairs), later) == Some(text)
    decreases |pairs|
  {
    hide Replaced, PutsBack;
    if pairs != [] {
      var earlier, pair := pairs[..|pairs| - 1], pairs[|pairs| - 1];
      var all := Run(text, Forward(pairs), ending).value;
      EarlierRuns(text, pairs, ending);
      var before := Run(text, Forward(earlier), ending).value;
      hide Run, Forward, Back;
      BackCons(all, pairs, later);
      StepUndoneIff(before, pair.before, pair.after, ending, later);
      if PutsBack(before, pair.before, pair.after, ending, later) {
        RetracedIffEachPutsBack(text, earlier, ending, later);
      }
    } else {
      assert Run(text, [], ending) == Some(text) == Run(text, [], later);
    }
  }

  lemma {:induction false} LfPutsBack(text: string, pairs: seq<Pair>)
    requires LfAlong(text, Forward(pairs), LF) && Run(text, Forward(pairs), LF).Some?
    ensures EachPutsBack(text, pairs, LF, LF)
    decreases |pairs|
  {
    hide Replaced, HasCrlf, PutsBack;
    if pairs != [] {
      var earlier, pair := pairs[..|pairs| - 1], pairs[|pairs| - 1];
      LfAlongSnoc(text, Forward(earlier), Step(|pairs|, pair.before, pair.after));
      EarlierRuns(text, pairs, LF);
      LfStepPutsBack(Run(text, Forward(earlier), LF).value, pair.before, pair.after);
      LfPutsBack(text, earlier);
    }
  }

  lemma BackCons(text: string, pairs: seq<Pair>, fileEnding: string)
    requires pairs != []
    ensures var pair := pairs[|pairs| - 1]; var next := Replaced(text, pair.after, pair.before, fileEnding);
      Run(text, Back(pairs), fileEnding)
      == if next.None? then None else Run(next.value, Back(pairs[..|pairs| - 1]), fileEnding)
  {
    hide Replaced;
    assert Back(pairs)[1..] == Back(pairs[..|pairs| - 1]);
  }

  // ------------------------------------------------------------------ byte order marks

  function Marks(s: string): nat {
    multiset(s)[BOM[0]]
  }

  function MarksIn(parts: seq<string>): nat {
    if parts == [] then 0 else Marks(parts[0]) + MarksIn(parts[1..])
  }

  lemma MarksConcat(a: string, b: string)
    ensures Marks(a + b) == Marks(a) + Marks(b)
  {
    assert multiset(a + b) == multiset(a) + multiset(b);
  }

  lemma NoMarkInNewline()
    ensures Marks(LF) == 0 && Marks(CRLF) == 0 && Marks("") == 0
  {
  }

  lemma {:induction false} MarksOfJoin(parts: seq<string>, ending: string)
    requires parts != [] && (ending == LF || ending == CRLF)
    ensures Marks(Join(parts, ending)) == MarksIn(parts)
    decreases |parts|
  {
    if |parts| == 1 {
      assert parts == [parts[0]];
    } else {
      MarksOfJoin(parts[1..], ending);
      hide Marks;
      NoMarkInNewline();
      MarksConcat(parts[0], ending);
      MarksConcat(parts[0] + ending, Join(parts[1..], ending));
    }
  }

  lemma {:induction false} MarksOfSplit(s: string)
    ensures MarksIn(Split(s)) == Marks(s)
  {
    if s == "" {
      assert [""][1..] == [];
    } else if s[0] == '\n' {
      MarksOfSplit(s[1..]);
      assert s[..1] == LF;
      NewlineFirst(s, 1, Split(s[1..]));
    } else if s[0] == '\r' && |s| > 1 && s[1] == '\n' {
      MarksOfSplit(s[2..]);
      assert s[..2] == CRLF;
      NewlineFirst(s, 2, Split(s[2..]));
    } else {
      MarksOfSplit(s[1..]);
      var rest := Split(s[1..]);
      assert s == [s[0]] + s[1..];
      MarksConcat([s[0]], s[1..]);
      MarksConcat([s[0]], rest[0]);
    }
  }

  lemma NewlineFirst(s: string, n: nat, rest: seq<string>)
    requires n <= |s| && (s[..n] == LF || s[..n] == CRLF) && MarksIn(rest) == Marks(s[n..])
    ensures MarksIn([""] + rest) == Marks(s)
  {
    hide Marks;
    assert s == s[..n] + s[n..];
    MarksConcat(s[..n], s[n..]);
    assert ([""] + rest)[1..] == rest;
    NoMarkInNewline();
  }

  lemma NewlineIs(text: string, at: nat)
    requires NewlineEnd(text, at).Some?
    ensures text[at..NewlineEnd(text, at).value] == LF || text[at..NewlineEnd(text, at).value] == CRLF
  {
  }

  lemma {:induction false} MarksOfMatch(text: string, at: nat, parts: seq<string>)
    requires parts != [] && MatchesAt(text, at, parts)
    ensures Marks(text[at..MatchEnd(text, at, parts).value]) == MarksIn(parts)
    decreases |parts|
  {
    if |parts| == 1 {
      assert parts == [parts[0]] && text[at..at + |parts[0]|] == parts[0];
    } else {
      var next := at + |parts[0]|;
      MatchParts(text, at, parts);
      var past, end := NewlineEnd(text, next).value, MatchEnd(text, at, parts).value;
      MarksOfMatch(text, past, parts[1..]);
      NewlineIs(text, next);
      hide Marks, MatchEnd, NewlineEnd;
      NoMarkInNewline();
      MarksConcat(parts[0], text[next..past]);
      MarksConcat(parts[0] + text[next..past], text[past..end]);
    }
  }

  /** A step changes the number of marks by those it writes less those it looks for. */
  lemma MarksOfStep(text: string, from: string, to: string, ending: string)
    requires (ending == LF || ending == CRLF) && Replaced(text, from, to, ending).Some?
    ensures Marks(Replaced(text, from, to, ending).value) + Marks(from) == Marks(text) + Marks(to)
  {
    ReplacedIs(text, from, to, ending);
    var at := OnlyPlace(text, from).value;
    var end := MatchEnd(text, at, Split(from)).value;
    var put := Join(Split(to), EndingOf(text[at..end], ending));
    EndingIsOne(text[at..end], ending);
    MarksOfMatch(text, at, Split(from));
    MarksOfJoin(Split(to), EndingOf(text[at..end], ending));
    MarksOfSplit(from);
    MarksOfSplit(to);
    hide Marks, Replaced, OnlyPlace, MatchEnd, Split, Join, EndingOf;
    MarksConcat(text[..at], text[at..end]);
    MarksConcat(text[..at] + text[at..end], text[end..]);
    MarksConcat(text[..at], put);
    MarksConcat(text[..at] + put, text[end..]);
  }

  /** How many marks the steps write beyond those they look for. */
  function NetMarks(steps: seq<Step>): int {
    if steps == [] then 0 else Marks(steps[0].to) - Marks(steps[0].from) + NetMarks(steps[1..])
  }

  lemma {:induction false} MarksOfRun(text: string, steps: seq<Step>, ending: string)
    requires (ending == LF || ending == CRLF) && Run(text, steps, ending).Some?
    ensures Marks(Run(text, steps, ending).value) == Marks(text) + NetMarks(steps)
    decreases |steps|
  {
    hide Replaced, Marks;
    if steps != [] {
      MarksOfStep(text, steps[0].from, steps[0].to, ending);
      MarksOfRun(Replaced(text, steps[0].from, steps[0].to, ending).value, steps[1..], ending);
    }
  }

  lemma {:induction false} NetMarksSnoc(steps: seq<Step>, last: Step)
    ensures NetMarks(steps + [last]) == NetMarks(steps) + Marks(last.to) - Marks(last.from)
  {
    hide Marks;
    if steps == [] {
      assert [] + [last] == [last] && [last][1..] == [];
    } else {
      assert (steps + [last])[1..] == steps[1..] + [last];
      NetMarksSnoc(steps[1..], last);
    }
  }

  /** The steps back cancel the steps out. */
  lemma {:induction false} NetMarksCancel(pairs: seq<Pair>)
    ensures NetMarks(Forward(pairs)) + NetMarks(Back(pairs)) == 0
  {
    hide Marks;
    if pairs != [] {
      var earlier, pair := pairs[..|pairs| - 1], pairs[|pairs| - 1];
      NetMarksCancel(earlier);
      NetMarksSnoc(Forward(earlier), Step(|pairs|, pair.before, pair.after));
      assert Back(pairs)[1..] == Back(earlier);
    }
  }

  lemma LeadingMark(text: string)
    ensures BOM <= text ==> Marks(text) == Marks(WithoutBom(text)) + 1
    ensures !(BOM <= text) ==> WithoutBom(text) == text
  {
    if BOM <= text {
      assert text == BOM + text[1..];
      MarksConcat(BOM, text[1..]);
    }
  }

  /**
    Whatever the pairs, an edit that leaves a byte order mark first is never undone: the way
    back drops it, and ends one mark short.
    */
  lemma LeadingMarkIsLost(text: string, pairs: seq<Pair>)
    requires Outcome(text, pairs, false).Edited? && BOM <= Outcome(text, pairs, false).text
    requires Outcome(Outcome(text, pairs, false).text, pairs, true).Edited?
    ensures var back := Outcome(Outcome(text, pairs, false).text, pairs, true).text;
      Marks(back) + 1 == Marks(WithoutBom(text)) && back != WithoutBom(text) && back != text
  {
    var start, edited := WithoutBom(text), Outcome(text, pairs, false).text;
    EditedIffEveryStep(text, pairs, false);
    EditedIffEveryStep(edited, pairs, true);
    NetMarksCancel(pairs);
    LeadingMark(text);
    LeadingMark(edited);
    hide Outcome, Run, Marks, HasCrlf, NetMarks;
    MarksOfRun(start, Forward(pairs), FileEnding(start));
    MarksOfRun(WithoutBom(edited), Back(pairs), FileEnding(WithoutBom(edited)));
  }

  // ------------------------------------------------------------------ when revert gives the text back

  /**
    One pair, any text, endings mixed or not: `revert`, if it succeeds, gives the text back exactly
    when the edit left no byte order mark first and what undoing it writes is what it took. A mark
    the text itself began with is gone.
    */
  lemma RevertsOneIff(text: string, pair: Pair)
    requires Outcome(text, [pair], false).Edited? && Outcome(Outcome(text, [pair], false).text, [pair], true).Edited?
    ensures var start, edited := WithoutBom(text), Outcome(text, [pair], false).text;
      Outcome(edited, [pair], true) == Edited(start)
      <==> !(BOM <= edited) && PutsBack(start, pair.before, pair.after, FileEnding(start), FileEnding(edited))
  {
    var start, edited := WithoutBom(text), Outcome(text, [pair], false).text;
    EditedIffEveryStep(text, [pair], false);
    EditedIffEveryStep(edited, [pair], true);
    StepsOfOne(pair);
    hide Outcome, Run, HasCrlf, Replaced, PutsBack, Forward, Back;
    if BOM <= edited {
      LeadingMarkIsLost(text, [pair]);
    } else {
      RunOne(start, Step(1, pair.before, pair.after), FileEnding(start));
      RunOne(edited, Step(1, pair.after, pair.before), FileEnding(edited));
      StepUndoneIff(start, pair.before, pair.after, FileEnding(start), FileEnding(edited));
    }
  }

  /**
    Any pairs, any text: an edit that leaves a byte order mark first is not undone; any other is
    retraced, text by text, exactly when each step, undone, writes what it took, and then undone.
    */
  lemma RevertRetraces(text: string, pairs: seq<Pair>)
    requires Outcome(text, pairs, false).Edited? && Outcome(Outcome(text, pairs, false).text, pairs, true).Edited?
    ensures var start, edited := WithoutBom(text), Outcome(text, pairs, false).text;
      && Run(start, Forward(pairs), FileEnding(start)).Some?
      && (BOM <= edited ==> Outcome(edited, pairs, true) != Edited(start))
      && (!(BOM <= edited) ==>
            && (Retraced(start, pairs, FileEnding(start), FileEnding(edited))
                <==> EachPutsBack(start, pairs, FileEnding(start), FileEnding(edited)))
            && (EachPutsBack(start, pairs, FileEnding(start), FileEnding(edited)) ==>
                  Outcome(edited, pairs, true) == Edited(start)))
  {
    var start, edited := WithoutBom(text), Outcome(text, pairs, false).text;
    EditedIffEveryStep(text, pairs, false);
    EditedIffEveryStep(edited, pairs, true);
    hide Outcome, Run, HasCrlf, Retraced, EachPutsBack;
    if BOM <= edited {
      LeadingMarkIsLost(text, pairs);
    } else {
      RetracedIffEachPutsBack(start, pairs, FileEnding(start), FileEnding(edited));
    }
  }

  /**
    Whatever the pairs, when no text the edit went through holds a CRLF and both runs succeed,
    `revert` gives the text back exactly when the edit left no byte order mark first.
    */
  lemma RevertUndoesLf(text: string, pairs: seq<Pair>)
    requires Outcome(text, pairs, false).Edited? && Outcome(Outcome(text, pairs, false).text, pairs, true).Edited?
    requires LfAlong(WithoutBom(text), Forward(pairs), LF)
    ensures var edited := Outcome(text, pairs, false).text;
      Outcome(edited, pairs, true) == Edited(WithoutBom(text)) <==> !(BOM <= edited)
  {
    var start := WithoutBom(text);
    EditedIffEveryStep(text, pairs, false);
    RevertRetraces(text, pairs);
    hide Outcome, Run, HasCrlf, EachPutsBack, Retraced, WithoutBom;
    EndsLf(start, Forward(pairs));
    LfPutsBack(start, pairs);
  }

  lemma {:induction false} EndsLf(text: string, steps: seq<Step>)
    requires LfAlong(text, steps, LF) && Run(text, steps, LF).Some?
    ensures !HasCrlf(text) && !HasCrlf(Run(text, steps, LF).value)
    decreases |steps|
  {
    hide Replaced, HasCrlf;
    if steps != [] {
      EndsLf(Replaced(text, steps[0].from, steps[0].to, LF).value, steps[1..]);
    }
  }

  // ------------------------------------------------------------------ pairs with no stray carriage return

  /** Every carriage return is part of a newline. */
  ghost predicate Clean(s: string) {
    forall k :: 0 <= k < |s| && s[k] == '\r' ==> k + 1 < |s| && s[k + 1] == '\n'
  }

  ghost predicate CleanSteps(steps: seq<Step>) {
    forall k :: 0 <= k < |steps| ==> Clean(steps[k].from) && Clean(steps[k].to)
  }

  ghost predicate CleanPairs(pairs: seq<Pair>) {
    forall k :: 0 <= k < |pairs| ==> Clean(pairs[k].before) && Clean(pairs[k].after)
  }

  lemma {:induction false} SplitIsWhole(s: string)
    requires Clean(s)
    ensures Whole(Split(s))
  {
    if s != "" {
      if s[0] == '\n' {
        CleanTail(s, 1);
        SplitIsWhole(s[1..]);
      } else if s[0] == '\r' {
        CleanTail(s, 2);
        SplitIsWhole(s[2..]);
      } else {
        CleanTail(s, 1);
        SplitIsWhole(s[1..]);
        var rest := Split(s[1..]);
        var parts := [[s[0]] + rest[0]] + rest[1..];
        forall k | 0 <= k < |parts|
          ensures '\r' !in parts[k] && '\n' !in parts[k]
        {
          assert '\r' !in rest[k] && '\n' !in rest[k];
        }
      }
    }
  }

  lemma CleanTail(s: string, n: nat)
    requires Clean(s) && n <= |s|
    ensures Clean(s[n..])
  {
  }

  lemma {:induction false} JoinedIsCrlf(parts: seq<string>)
    requires parts != [] && Whole(parts)
    ensures Crlf(Join(parts, CRLF))
    ensures |parts| > 1 ==> HasCrlf(Join(parts, CRLF))
    decreases |parts|
  {
    WholeIsCrlf(parts[0]);
    if |parts| > 1 {
      JoinedIsCrlf(parts[1..]);
      CrlfConcat(parts[0], CRLF);
      CrlfConcat(parts[0] + CRLF, Join(parts[1..], CRLF));
      assert CRLF[0] == '\r' && CRLF[1] == '\n';
      CrlfShows(parts[0], CRLF, Join(parts[1..], CRLF));
    }
  }

  lemma WholeIsCrlf(part: string)
    requires '\r' !in part && '\n' !in part
    ensures Crlf(part) && !HasCrlf(part)
  {
  }

  lemma CrlfConcat(a: string, b: string)
    requires Crlf(a) && Crlf(b)
    ensures Crlf(a + b)
  {
    var s := a + b;
    forall k | 0 <= k < |s| && s[k] == '\n'
      ensures k > 0 && s[k - 1] == '\r'
    {
      if k >= |a| {
        assert b[k - |a|] == '\n';
      }
    }
  }

  lemma CrlfParts(text: string, at: nat)
    requires Crlf(text) && at <= |text| && (at > 0 && at < |text| ==> text[at - 1] != '\r')
    ensures Crlf(text[..at]) && Crlf(text[at..])
  {
    forall k | 0 <= k < |text[..at]| && text[..at][k] == '\r'
      ensures k + 1 < |text[..at]| && text[..at][k + 1] == '\n'
    {
      assert text[k] == '\r';
    }
    forall k | 0 <= k < |text[at..]| && text[at..][k] == '\n'
      ensures k > 0 && text[at..][k - 1] == '\r'
    {
      assert text[at + k] == '\n';
    }
  }

  // ------------------------------------------------------------------ CRLF

  /** In a CRLF text what begins with a newline is found at the line feed too, so it never occurs once. */
  lemma LeadingNewlineTwice(text: string, from: string)
    requires Crlf(text) && Split(from)[0] == "" && from != ""
    ensures OnlyPlace(text, from).None?
  {
    var parts := Split(from);
    SplitOfNothing(from);
    if OnlyPlace(text, from).Some? {
      var at := OnlyPlace(text, from).value;
      MatchParts(text, at, parts);
      var other := if text[at] == '\r' then at + 1 else at - 1;
      SameTail(text, at, other, parts);
      OnlyPlaceIsOnly(text, from, other);
    }
  }

  lemma SplitOfNothing(from: string)
    requires Split(from)[0] == "" && from != ""
    ensures |Split(from)| > 1
  {
  }

  /** The two ways into one CRLF. */
  lemma SameTail(text: string, at: nat, other: nat, parts: seq<string>)
    requires |parts| > 1 && parts[0] == "" && MatchesAt(text, at, parts) && other <= |text|
    requires NewlineEnd(text, other) == NewlineEnd(text, at)
    ensures MatchesAt(text, other, parts)
  {
    assert StartsAt(text, other, "");
  }

  /** A step that succeeds on a CRLF text replaces whole lines' worth of it, and leaves a CRLF text. */
  lemma CrlfStep(text: string, from: string, to: string)
    requires Crlf(text) && Clean(from) && Clean(to) && Replaced(text, from, to, CRLF).Some?
    ensures Crlf(Replaced(text, from, to, CRLF).value)
    ensures Matched(text, from) == Join(Split(from), CRLF)
    ensures EndingOf(Matched(text, from), CRLF) == CRLF && EndingOf(Join(Split(to), CRLF), CRLF) == CRLF
  {
    ReplacedIs(text, from, to, CRLF);
    if Split(from)[0] == "" {
      LeadingNewlineTwice(text, from);
    }
    SplitIsWhole(from);
    SplitIsWhole(to);
    var parts, put := Split(from), Split(to);
    var at := OnlyPlace(text, from).value;
    var end := MatchEnd(text, at, parts).value;
    MatchedIsCrlf(text, at, parts);
    EndingOfJoined(parts);
    EndingOfJoined(put);
    BoundsOfMatch(text, at, parts);
    JoinedIsCrlf(put);
    hide Replaced, OnlyPlace, MatchEnd, Split, Join, Crlf, Clean, EndingOf, Whole;
    CrlfParts(text, at);
    CrlfParts(text, end);
    CrlfConcat(text[..at], Join(put, CRLF));
    CrlfConcat(text[..at] + Join(put, CRLF), text[end..]);
  }

  lemma EndingOfJoined(parts: seq<string>)
    requires parts != [] && Whole(parts)
    ensures EndingOf(Join(parts, CRLF), CRLF) == CRLF
  {
    if |parts| > 1 {
      JoinedIsCrlf(parts);
    }
  }

  /** A match neither begins nor ends inside a CRLF. */
  lemma BoundsOfMatch(text: string, at: nat, parts: seq<string>)
    requires parts != [] && MatchesAt(text, at, parts) && Crlf(text) && Whole(parts) && parts[0] != ""
    ensures at > 0 && at < |text| ==> text[at - 1] != '\r'
    ensures var end := MatchEnd(text, at, parts).value; end > 0 && end < |text| ==> text[end - 1] != '\r'
  {
    StartsWith(text, at, parts[0], 0);
    EndOfMatch(text, at, parts);
  }

  lemma EndOfPart(text: string, at: nat, part: string)
    requires StartsAt(text, at, part) && '\r' !in part && (part != "" || (at > 0 && text[at - 1] != '\r'))
    ensures at + |part| > 0 && text[at + |part| - 1] != '\r'
  {
    if part != "" {
      StartsWith(text, at, part, |part| - 1);
    }
  }

  lemma {:induction false} EndOfMatch(text: string, at: nat, parts: seq<string>)
    requires parts != [] && MatchesAt(text, at, parts) && Crlf(text) && Whole(parts)
    requires parts[0] != "" || (at > 0 && text[at - 1] != '\r')
    ensures var end := MatchEnd(text, at, parts).value; end > 0 && text[end - 1] != '\r'
    decreases |parts|
  {
    if |parts| == 1 {
      hide Crlf;
      EndOfPart(text, at, parts[0]);
    } else {
      var next := at + |parts[0]|;
      MatchParts(text, at, parts);
      var past := NewlineEnd(text, next).value;
      assert text[past - 1] == '\n';
      hide StartsAt, Crlf, NewlineEnd, MatchesAt, MatchEnd;
      EndOfMatch(text, past, parts[1..]);
    }
  }

  lemma {:induction false} CrlfRun(text: string, steps: seq<Step>)
    requires Crlf(text) && CleanSteps(steps) && Run(text, steps, CRLF).Some?
    ensures Crlf(Run(text, steps, CRLF).value)
    decreases |steps|
  {
    hide Replaced, Crlf, Clean;
    if steps != [] {
      var step := steps[0];
      assert Clean(step.from) && Clean(step.to);
      CrlfStep(text, step.from, step.to);
      CrlfRun(Replaced(text, step.from, step.to, CRLF).value, steps[1..]);
    }
  }

  lemma {:induction false} ForwardIsClean(pairs: seq<Pair>)
    requires CleanPairs(pairs)
    ensures CleanSteps(Forward(pairs)) && CleanSteps(Back(pairs))
  {
    hide Clean;
    if pairs != [] {
      ForwardIsClean(pairs[..|pairs| - 1]);
    }
  }

  lemma {:induction false} CrlfPutsBack(text: string, pairs: seq<Pair>)
    requires Crlf(text) && CleanPairs(pairs) && Run(text, Forward(pairs), CRLF).Some?
    ensures EachPutsBack(text, pairs, CRLF, CRLF)
    decreases |pairs|
  {
    hide Replaced, Crlf, Clean, Matched;
    if pairs != [] {
      var earlier, pair := pairs[..|pairs| - 1], pairs[|pairs| - 1];
      EarlierRuns(text, pairs, CRLF);
      ForwardIsClean(earlier);
      CrlfRun(text, Forward(earlier));
      CrlfStep(Run(text, Forward(earlier), CRLF).value, pair.before, pair.after);
      hide Join, Split, EndingOf, Run, Forward;
      CrlfPutsBack(text, earlier);
    }
  }

  // ------------------------------------------------------------------ texts with no carriage return

  ghost predicate NoCr(s: string) {
    '\r' !in s
  }

  lemma {:induction false} JoinedHasNoCr(parts: seq<string>)
    requires parts != [] && Whole(parts)
    ensures NoCr(Join(parts, LF))
    decreases |parts|
  {
    if |parts| > 1 {
      JoinedHasNoCr(parts[1..]);
    }
  }

  lemma NoCrStep(text: string, from: string, to: string)
    requires NoCr(text) && Clean(to) && Replaced(text, from, to, LF).Some?
    ensures NoCr(Replaced(text, from, to, LF).value)
  {
    ReplacedIs(text, from, to, LF);
    SplitIsWhole(to);
    JoinedHasNoCr(Split(to));
  }

  /** With no carriage return in the text, and none astray in the pairs, none ever appears. */
  lemma {:induction false} NoCrRun(text: string, steps: seq<Step>)
    requires NoCr(text) && CleanSteps(steps)
    ensures LfAlong(text, steps, LF)
    ensures Run(text, steps, LF).Some? ==> NoCr(Run(text, steps, LF).value)
    decreases |steps|
  {
    hide Replaced, Clean;
    if steps != [] {
      var step := steps[0];
      assert Clean(step.to);
      var next := Replaced(text, step.from, step.to, LF);
      if next.Some? {
        NoCrStep(text, step.from, step.to);
        NoCrRun(next.value, steps[1..]);
      }
    }
  }

  // ------------------------------------------------------------------ when revert restores

  /** On LF text with LF pairs, `revert` undoes any edit it succeeds on that leaves no byte order mark first. */
  lemma RevertRestoresLf(text: string, pairs: seq<Pair>)
    requires NoCr(text) && CleanPairs(pairs)
    requires Outcome(text, pairs, false).Edited? && Outcome(Outcome(text, pairs, false).text, pairs, true).Edited?
    ensures var edited := Outcome(text, pairs, false).text;
      Outcome(edited, pairs, true) == Edited(WithoutBom(text)) <==> !(BOM <= edited)
  {
    hide Outcome;
    ForwardIsClean(pairs);
    NoCrRun(WithoutBom(text), Forward(pairs));
    RevertUndoesLf(text, pairs);
  }

  /**
    On CRLF text, `revert` gives the original back exactly when the edit left a newline in
    the text and no byte order mark first: the endings it puts back are those of the text it
    is given.
    */
  lemma RevertRestoresCrlfIff(text: string, pairs: seq<Pair>)
    requires Crlf(text) && HasCrlf(text) && CleanPairs(pairs)
    requires Outcome(text, pairs, false).Edited? && Outcome(Outcome(text, pairs, false).text, pairs, true).Edited?
    ensures var edited := Outcome(text, pairs, false).text;
      Outcome(edited, pairs, true) == Edited(WithoutBom(text)) <==> HasCrlf(edited) && !(BOM <= edited)
  {
    var start, edited := WithoutBom(text), Outcome(text, pairs, false).text;
    EditedIffEveryStep(text, pairs, false);
    EditedIffEveryStep(edited, pairs, true);
    ForwardIsClean(pairs);
    StartIsCrlf(text);
    hide Outcome, Run, CleanPairs, WithoutBom;
    CrlfRun(start, Forward(pairs));
    if BOM <= edited {
      LeadingMarkIsLost(text, pairs);
    } else if HasCrlf(edited) {
      CrlfPutsBack(start, pairs);
      RevertRetraces(text, pairs);
    } else {
      NoNewlineLeft(edited);
      LeadingMark(edited);
      NoCrRun(edited, Back(pairs));
      HadOne(start);
    }
  }

  lemma StartIsCrlf(text: string)
    requires Crlf(text) && HasCrlf(text)
    ensures Crlf(WithoutBom(text)) && HasCrlf(WithoutBom(text)) && FileEnding(WithoutBom(text)) == CRLF
  {
    if BOM <= text {
      var k :| 0 <= k < |text| - 1 && text[k] == '\r' && text[k + 1] == '\n';
      assert text[0] == BOM[0];
      assert text[1..][k - 1] == '\r' && text[1..][k - 1 + 1] == '\n';
      CrlfParts(text, 1);
    }
  }

  lemma NoNewlineLeft(text: string)
    requires Crlf(text) && !HasCrlf(text)
    ensures NoCr(text)
  {
    if !NoCr(text) {
      var k :| 0 <= k < |text| && text[k] == '\r';
      ReturnShows(text, k);
    }
  }

  lemma ReturnShows(text: string, k: nat)
    requires Crlf(text) && k < |text| && text[k] == '\r'
    ensures HasCrlf(text)
  {
    assert text[k] == '\r' && text[k + 1] == '\n';
  }

  lemma HadOne(text: string)
    requires HasCrlf(text)
    ensures !NoCr(text)
  {
  }

  // ------------------------------------------------------------------ and when it does not

  lemma {:induction false} PlacesOnly(text: string, at: nat, parts: seq<string>, place: nat)
    requires parts != [] && place <= |text| && MatchesAt(text, place, parts)
    requires forall p: nat :: p <= |text| && p != place ==> !MatchesAt(text, p, parts)
    ensures Places(text, at, parts) == if at <= place then [place] else []
    decreases |text| + 1 - at
  {
    if at <= |text| {
      hide MatchesAt;
      PlacesOnly(text, at + 1, parts, place);
    }
  }

  ghost predicate OccursAt(text: string, from: string, place: nat) {
    place <= |text| && MatchesAt(text, place, Split(from))
  }

  ghost predicate OccursOnlyAt(text: string, from: string, place: nat) {
    OccursAt(text, from, place) && forall q: nat :: OccursAt(text, from, q) ==> q == place
  }

  /** A step is made exactly when what it looks for is there and there once, overlapping occurrences counted. */
  lemma MadeIffOccursOnce(text: string, step: Step, fileEnding: string)
    ensures Replaced(text, step.from, step.to, fileEnding).Some? <==>
            step.from != "" && exists p: nat :: OccursOnlyAt(text, step.from, p)
  {
    hide MatchesAt, Join, EndingOf, Places;
    if step.from != "" {
      if OnlyPlace(text, step.from).Some? {
        var at := OnlyPlace(text, step.from).value;
        assert OccursAt(text, step.from, at);
        forall q: nat | OccursAt(text, step.from, q)
          ensures q == at
        {
          OnlyPlaceIsOnly(text, step.from, q);
        }
        assert OccursOnlyAt(text, step.from, at);
      }
      if p: nat :| OccursOnlyAt(text, step.from, p) {
        forall q: nat | q <= |text| && q != p
          ensures !MatchesAt(text, q, Split(step.from))
        {
          assert !OccursAt(text, step.from, q);
        }
        PlacesOnly(text, 0, Split(step.from), p);
      }
    }
  }

  /** A search string whose first character is nowhere else in the text occurs once. */
  lemma ReplacedOnly(text: string, from: string, to: string, fileEnding: string, at: nat, end: nat)
    requires from != "" && Split(from)[0] != "" && at <= end <= |text|
    requires forall p :: 0 <= p < |text| && p != at ==> text[p] != Split(from)[0][0]
    requires MatchEnd(text, at, Split(from)) == Some(end)
    ensures Replaced(text, from, to, fileEnding)
         == Some(text[..at] + Join(Split(to), EndingOf(text[at..end], fileEnding)) + text[end..])
  {
    var parts := Split(from);
    forall p: nat | p <= |text| && p != at
      ensures !MatchesAt(text, p, parts)
    {
      if MatchesAt(text, p, parts) {
        MatchHasFirst(text, p, parts);
      }
    }
    PlacesOnly(text, 0, parts, at);
  }

  lemma MatchHasFirst(text: string, p: nat, parts: seq<string>)
    requires parts != [] && parts[0] != "" && MatchesAt(text, p, parts)
    ensures p < |text| && text[p] == parts[0][0]
  {
    StartsWith(text, p, parts[0], 0);
  }

  lemma {:induction false} SplitOne(s: string)
    requires '\n' !in s
    ensures Split(s) == [s]
  {
    if s != "" {
      assert |s| > 1 ==> s[1] in s;
      SplitOne(s[1..]);
      assert [s[0]] + s[1..] == s;
      assert [s[1..]][1..] == [];
    }
  }

  lemma SplitTwo(x: char, y: char)
    requires x != '\r' && x != '\n' && y != '\n'
    ensures Split([x] + LF + [y]) == [[x], [y]]
  {
    var s := [x] + LF + [y];
    SplitOne([y]);
    assert s[1..] == LF + [y] && (LF + [y])[1..] == [y];
    assert Split(LF + [y]) == [""] + Split([y]);
    var rest := Split(s[1..]);
    assert rest == ["", [y]] && rest[1..] == [[y]];
    assert [x] + "" == [x];
    assert Split(s) == [[s[0]] + rest[0]] + rest[1..];
  }

  lemma StepsOfOne(pair: Pair)
    ensures Forward([pair]) == [Step(1, pair.before, pair.after)] && Back([pair]) == [Step(1, pair.after, pair.before)]
  {
    assert [pair][..|[pair]| - 1] == [];
    assert Forward([]) == [] && Back([]) == [];
  }

  lemma RunOne(text: string, step: Step, fileEnding: string)
    ensures Run(text, [step], fileEnding) == Replaced(text, step.from, step.to, fileEnding)
  {
    hide Replaced;
    RunSnoc(text, [], step, fileEnding);
    assert [] + [step] == [step];
  }

  lemma OneStep(text: string, pair: Pair, revert: bool, next: string)
    requires !(BOM <= text)
    requires Replaced(text, if revert then pair.after else pair.before,
                      if revert then pair.before else pair.after, FileEnding(text))
          == Some(next)
    ensures Outcome(text, [pair], revert) == Edited(next)
  {
    hide Replaced, FileEnding, Run;
    EditedIffEveryStep(text, [pair], revert);
    StepsOfOne(pair);
    RunOne(text, Step(1, pair.before, pair.after), FileEnding(text));
    RunOne(text, Step(1, pair.after, pair.before), FileEnding(text));
    assert WithoutBom(text) == text;
  }

  /** Two lines of CRLF text, one letter each. */
  function TwoLines(x: char, y: char): string {
    [x] + CRLF + [y]
  }

  lemma JoinsLines(x: char, y: char)
    requires x != y && x != '\r' && x != '\n' && y != '\r' && y != '\n'
    ensures Replaced(TwoLines(x, y), [x] + LF + [y], [x, y], CRLF) == Some([x, y])
  {
    var text := TwoLines(x, y);
    var parts := [[x], [y]];
    SplitTwo(x, y);
    SplitOne([x, y]);
    assert parts[1..] == [[y]];
    assert text[0..1] == [x] && text[3..4] == [y];
    assert NewlineEnd(text, 1) == Some(3);
    assert MatchEnd(text, 3, parts[1..]) == Some(4);
    assert MatchEnd(text, 0, parts) == Some(4);
    ReplacedOnly(text, [x] + LF + [y], [x, y], CRLF, 0, 4);
    assert text[..0] + [x, y] + text[4..] == [x, y];
  }

  lemma PartsLines(x: char, y: char)
    requires x != y && x != '\r' && x != '\n' && y != '\r' && y != '\n'
    ensures Replaced([x, y], [x, y], [x] + LF + [y], LF) == Some([x] + LF + [y])
  {
    var text := [x, y];
    SplitTwo(x, y);
    SplitOne(text);
    assert text[0..2] == text;
    assert MatchEnd(text, 0, [text]) == Some(2);
    ReplacedOnly(text, text, [x] + LF + [y], LF, 0, 2);
    assert [[x], [y]][1..] == [[y]];
    assert Join([[x], [y]], LF) == [x] + LF + [y];
    assert text[..0] + ([x] + LF + [y]) + text[2..] == [x] + LF + [y];
  }

  /** A CRLF file whose only newline the edit takes out comes back with LF. */
  lemma CrlfLost(x: char, y: char)
    requires x != y && x != '\r' && x != '\n' && y != '\r' && y != '\n' && x != BOM[0]
    ensures var pairs := [Pair([x] + LF + [y], [x, y])];
      && Outcome(TwoLines(x, y), pairs, false) == Edited([x, y])
      && Outcome([x, y], pairs, true) == Edited([x] + LF + [y])
      && [x] + LF + [y] != TwoLines(x, y)
  {
    var text := TwoLines(x, y);
    var pair := Pair([x] + LF + [y], [x, y]);
    JoinsLines(x, y);
    PartsLines(x, y);
    assert text[1] == '\r' && text[2] == '\n' && text[0] == x;
    assert HasCrlf(text) && !HasCrlf([x, y]);
    hide Replaced;
    OneStep(text, pair, false, [x, y]);
    OneStep([x, y], pair, true, [x] + LF + [y]);
    assert |[x] + LF + [y]| == 3 && |text| == 4;
  }

  lemma PutLetter(before: string, from: char, rest: string, to: string, ending: string)
    requires from != '\n' && '\n' !in to && from !in before && from !in rest
    ensures Replaced(before + [from] + rest, [from], to, ending) == Some(before + to + rest)
  {
    var text := before + [from] + rest;
    var at := |before|;
    SplitOne([from]);
    SplitOne(to);
    assert text[at..at + 1] == [from];
    assert MatchEnd(text, at, [[from]]) == Some(at + 1);
    ReplacedOnly(text, [from], to, ending, at, at + 1);
    assert text[..at] == before && text[at + 1..] == rest;
  }

  ghost predicate Letters(x: char, y: char, z: char) {
    x != y && y != z && x != z && NotNewline(x) && NotNewline(y) && NotNewline(z) && x != BOM[0]
  }

  ghost predicate NotNewline(c: char) {
    c != '\r' && c != '\n'
  }

  lemma ReturnFirst(x: char, y: char, z: char)
    ensures var rest := LF + [y] + LF + [z];
      && "" + [x] + rest == [x] + LF + [y] + LF + [z]
      && "" + ([x] + "\r") + rest == [x] + CRLF + [y] + LF + [z]
  {
  }

  lemma PutsReturn(x: char, y: char, z: char)
    requires Letters(x, y, z)
    ensures Replaced([x] + LF + [y] + LF + [z], [x], [x] + "\r", LF) == Some([x] + CRLF + [y] + LF + [z])
  {
    hide Replaced;
    ReturnFirst(x, y, z);
    PutLetter("", x, LF + [y] + LF + [z], [x] + "\r", LF);
  }

  /** The second pair of the example, forward. */
  lemma DropsLastLine(x: char, y: char, z: char)
    requires Letters(x, y, z)
    ensures Replaced([x] + CRLF + [y] + LF + [z], [y] + LF + [z], [y], LF) == Some([x] + CRLF + [y])
  {
    var text := [x] + CRLF + [y] + LF + [z];
    var parts := [[y], [z]];
    SplitTwo(y, z);
    SplitOne([y]);
    assert parts[1..] == [[z]];
    assert text[3..4] == [y] && text[5..6] == [z];
    assert NewlineEnd(text, 4) == Some(5);
    assert MatchEnd(text, 5, parts[1..]) == Some(6);
    assert MatchEnd(text, 3, parts) == Some(6);
    ReplacedOnly(text, [y] + LF + [z], [y], LF, 3, 6);
    assert text[..3] + [y] + text[6..] == [x] + CRLF + [y];
  }

  /** And back, by the endings of the text as it is then. */
  lemma AddsLastLine(x: char, y: char, z: char)
    requires Letters(x, y, z)
    ensures Replaced([x] + CRLF + [y], [y], [y] + LF + [z], CRLF) == Some([x] + CRLF + [y] + CRLF + [z])
  {
    var text := [x] + CRLF + [y];
    SplitTwo(y, z);
    SplitOne([y]);
    assert text[3..4] == [y];
    assert MatchEnd(text, 3, [[y]]) == Some(4);
    ReplacedOnly(text, [y], [y] + LF + [z], CRLF, 3, 4);
    assert [[y], [z]][1..] == [[z]];
    assert Join([[y], [z]], CRLF) == [y] + CRLF + [z];
    assert text[..3] + ([y] + CRLF + [z]) + text[4..] == [x] + CRLF + [y] + CRLF + [z];
  }

  lemma TakesReturnAway(x: char, y: char, z: char)
    requires Letters(x, y, z)
    ensures Replaced([x] + CRLF + [y] + CRLF + [z], [x] + "\r", [x], CRLF) == Some([x] + LF + [y] + CRLF + [z])
  {
    var text := [x] + CRLF + [y] + CRLF + [z];
    var from := [x] + "\r";
    SplitOne(from);
    SplitOne([x]);
    assert text[0..2] == from;
    assert MatchEnd(text, 0, [from]) == Some(2);
    ReplacedOnly(text, from, [x], CRLF, 0, 2);
    assert text[..0] + [x] + text[2..] == [x] + LF + [y] + CRLF + [z];
  }

  lemma TwoSteps(text: string, first: Step, second: Step, fileEnding: string, middle: string, last: string)
    requires Replaced(text, first.from, first.to, fileEnding) == Some(middle)
    requires Replaced(middle, second.from, second.to, fileEnding) == Some(last)
    ensures Run(text, [first, second], fileEnding) == Some(last)
  {
    hide Replaced;
    RunOne(text, first, fileEnding);
    RunSnoc(text, [first], second, fileEnding);
    assert [first] + [second] == [first, second];
  }

  lemma StepsOfTwo(p: Pair, q: Pair)
    ensures Forward([p, q]) == [Step(1, p.before, p.after), Step(2, q.before, q.after)]
    ensures Back([p, q]) == [Step(2, q.after, q.before), Step(1, p.after, p.before)]
  {
    StepsOfOne(p);
    assert [p, q][..|[p, q]| - 1] == [p];
    assert Forward([p, q]) == Forward([p]) + [Step(2, q.before, q.after)];
    assert Back([p, q]) == [Step(2, q.after, q.before)] + Back([p]);
  }

  /**
    An LF file with no carriage return in it does not come back when a pair puts a lone one
    before a newline: for the way back the file is a CRLF one.
    */
  lemma LfLostToStrayReturn(x: char, y: char, z: char)
    requires Letters(x, y, z)
    ensures var text := [x] + LF + [y] + LF + [z];
      var pairs := [Pair([x], [x] + "\r"), Pair([y] + LF + [z], [y])];
      && NoCr(text) && Outcome(text, pairs, false) == Edited([x] + CRLF + [y])
      && Outcome([x] + CRLF + [y], pairs, true) == Edited([x] + LF + [y] + CRLF + [z])
  {
    var text, edited := [x] + LF + [y] + LF + [z], [x] + CRLF + [y];
    var p, q := Pair([x], [x] + "\r"), Pair([y] + LF + [z], [y]);
    OutAndBack(x, y, z, p, q);
    TheirEndings(x, y, z);
    hide Run, HasCrlf, NoCr;
    StepsOfTwo(p, q);
    hide Forward, Back;
    EditedIffEveryStep(text, [p, q], false);
    EditedIffEveryStep(edited, [p, q], true);
  }

  lemma OutAndBack(x: char, y: char, z: char, p: Pair, q: Pair)
    requires Letters(x, y, z) && p == Pair([x], [x] + "\r") && q == Pair([y] + LF + [z], [y])
    ensures Run([x] + LF + [y] + LF + [z], [Step(1, p.before, p.after), Step(2, q.before, q.after)], LF)
         == Some([x] + CRLF + [y])
    ensures Run([x] + CRLF + [y], [Step(2, q.after, q.before), Step(1, p.after, p.before)], CRLF)
         == Some([x] + LF + [y] + CRLF + [z])
  {
    var text, edited := [x] + LF + [y] + LF + [z], [x] + CRLF + [y];
    var middle := [x] + CRLF + [y] + LF + [z];
    PutsReturn(x, y, z);
    DropsLastLine(x, y, z);
    AddsLastLine(x, y, z);
    TakesReturnAway(x, y, z);
    hide *;
    TwoSteps(text, Step(1, p.before, p.after), Step(2, q.before, q.after), LF, middle, edited);
    TwoSteps(edited, Step(2, q.after, q.before), Step(1, p.after, p.before), CRLF,
             [x] + CRLF + [y] + CRLF + [z], [x] + LF + [y] + CRLF + [z]);
  }

  lemma TheirEndings(x: char, y: char, z: char)
    requires Letters(x, y, z)
    ensures var text, edited := [x] + LF + [y] + LF + [z], [x] + CRLF + [y];
      && NoCr(text) && FileEnding(text) == LF && FileEnding(edited) == CRLF
      && WithoutBom(text) == text && WithoutBom(edited) == edited
  {
    var text, edited := [x] + LF + [y] + LF + [z], [x] + CRLF + [y];
    assert edited[1] == '\r' && edited[2] == '\n' && edited[0] == text[0] == x;
  }

  // ------------------------------------------------------------------ mixed endings, and a byte order mark

  lemma SplitThree(x: char, y: char, z: char)
    requires NotNewline(x) && NotNewline(y) && NotNewline(z)
    ensures Split([x] + LF + [y] + LF + [z]) == [[x], [y], [z]]
  {
    var tail := [y] + LF + [z];
    var s := [x] + LF + [y] + LF + [z];
    SplitTwo(y, z);
    assert s[0] == x && s[1..] == LF + tail && (LF + tail)[1..] == tail;
    assert Split(LF + tail) == [""] + Split(tail);
    var rest := Split(s[1..]);
    assert rest == ["", [y], [z]] && rest[1..] == [[y], [z]];
    assert [x] + "" == [x];
    assert Split(s) == [[s[0]] + rest[0]] + rest[1..];
  }

  ghost predicate FiveLetters(p: char, a: char, b: char, c: char, x: char) {
    && NotNewline(p) && NotNewline(a) && NotNewline(b) && NotNewline(c) && NotNewline(x)
    && a != p && a != b && a != c && x != p && p != BOM[0]
  }

  /** A text whose first two newlines are CRLF and whose last is LF. */
  function Mixed(p: char, a: char, b: char, c: char): string {
    [p] + CRLF + [a] + CRLF + [b] + LF + [c]
  }

  lemma TakesMixed(p: char, a: char, b: char, c: char, x: char)
    requires FiveLetters(p, a, b, c, x)
    ensures Replaced(Mixed(p, a, b, c), [a] + LF + [b] + LF + [c], [x], CRLF) == Some([p] + CRLF + [x])
  {
    var text := Mixed(p, a, b, c);
    var parts := [[a], [b], [c]];
    SplitThree(a, b, c);
    SplitOne([x]);
    assert parts[1..] == [[b], [c]] && [[b], [c]][1..] == [[c]];
    assert text[3..4] == [a] && text[6..7] == [b] && text[8..9] == [c];
    assert NewlineEnd(text, 4) == Some(6) && NewlineEnd(text, 7) == Some(8);
    assert MatchEnd(text, 8, [[c]]) == Some(9);
    assert MatchEnd(text, 6, [[b], [c]]) == Some(9);
    assert MatchEnd(text, 3, parts) == Some(9);
    ReplacedOnly(text, [a] + LF + [b] + LF + [c], [x], CRLF, 3, 9);
    assert text[..3] + [x] + text[9..] == [p] + CRLF + [x];
  }

  lemma WritesCrlf(p: char, a: char, b: char, c: char, x: char)
    requires FiveLetters(p, a, b, c, x)
    ensures Replaced([p] + CRLF + [x], [x], [a] + LF + [b] + LF + [c], CRLF)
         == Some([p] + CRLF + [a] + CRLF + [b] + CRLF + [c])
  {
    var text := [p] + CRLF + [x];
    var parts := [[a], [b], [c]];
    SplitThree(a, b, c);
    SplitOne([x]);
    assert text[3..4] == [x];
    assert MatchEnd(text, 3, [[x]]) == Some(4);
    ReplacedOnly(text, [x], [a] + LF + [b] + LF + [c], CRLF, 3, 4);
    assert parts[1..] == [[b], [c]] && [[b], [c]][1..] == [[c]];
    assert Join([[b], [c]], CRLF) == [b] + CRLF + [c];
    assert Join(parts, CRLF) == [a] + CRLF + ([b] + CRLF + [c]);
    assert text[..3] + ([a] + CRLF + ([b] + CRLF + [c])) + text[4..] == [p] + CRLF + [a] + CRLF + [b] + CRLF + [c];
  }

  lemma MixedHasCrlf(p: char, a: char, b: char, c: char, x: char)
    requires FiveLetters(p, a, b, c, x)
    ensures HasCrlf(Mixed(p, a, b, c)) && HasCrlf([p] + CRLF + [x])
    ensures !(BOM <= Mixed(p, a, b, c)) && !(BOM <= [p] + CRLF + [x])
  {
    var text, edited := Mixed(p, a, b, c), [p] + CRLF + [x];
    assert text[0] == edited[0] == p && text[1] == edited[1] == '\r' && text[2] == edited[2] == '\n';
  }

  /** A text of mixed endings comes back with one changed, though a CRLF was left in it throughout. */
  lemma MixedLost(p: char, a: char, b: char, c: char, x: char)
    requires FiveLetters(p, a, b, c, x)
    ensures var pairs := [Pair([a] + LF + [b] + LF + [c], [x])];
      && Outcome(Mixed(p, a, b, c), pairs, false) == Edited([p] + CRLF + [x])
      && HasCrlf([p] + CRLF + [x])
      && Outcome([p] + CRLF + [x], pairs, true) == Edited([p] + CRLF + [a] + CRLF + [b] + CRLF + [c])
      && [p] + CRLF + [a] + CRLF + [b] + CRLF + [c] != Mixed(p, a, b, c)
  {
    var text, edited := Mixed(p, a, b, c), [p] + CRLF + [x];
    var pair := Pair([a] + LF + [b] + LF + [c], [x]);
    TakesMixed(p, a, b, c, x);
    WritesCrlf(p, a, b, c, x);
    hide Replaced;
    MixedHasCrlf(p, a, b, c, x);
    hide HasCrlf;
    OneStep(text, pair, false, edited);
    OneStep(edited, pair, true, [p] + CRLF + [a] + CRLF + [b] + CRLF + [c]);
    assert |text| == 9 && |[p] + CRLF + [a] + CRLF + [b] + CRLF + [c]| == 10;
  }

  ghost predicate Words(x: char, a: char, d: char, c: char) {
    && NotNewline(x) && NotNewline(a) && NotNewline(d) && NotNewline(c)
    && x != a && x != d && x != BOM[0] && a != d && a != BOM[0] && c != d && c != BOM[0] && d != BOM[0]
  }

  lemma MarkOutStrings(x: char, a: char, d: char)
    ensures var rest := [x] + BOM + [d];
      && "" + [a] + rest == [a, x] + BOM + [d]
      && "" + (BOM + [d]) + rest == BOM + [d, x] + BOM + [d]
  {
  }

  lemma MarkOut(x: char, a: char, d: char)
    requires Words(x, a, d, a)
    ensures Replaced([a, x] + BOM + [d], [a], BOM + [d], LF) == Some(BOM + [d, x] + BOM + [d])
  {
    hide Replaced;
    MarkOutStrings(x, a, d);
    PutLetter("", a, [x] + BOM + [d], BOM + [d], LF);
  }

  lemma MarkThen(x: char, a: char, d: char, c: char)
    requires Words(x, a, d, c)
    ensures Replaced(BOM + [d, x] + BOM + [d], [x] + BOM + [d], [c], LF) == Some(BOM + [d] + [c])
  {
    var text, from := BOM + [d, x] + BOM + [d], [x] + BOM + [d];
    assert BOM[0] != '\n';
    SplitOne(from);
    SplitOne([c]);
    assert text[2..5] == from;
    assert MatchEnd(text, 2, [from]) == Some(5);
    hide MatchEnd, Replaced, Split;
    ReplacedOnly(text, from, [c], LF, 2, 5);
    assert text[..2] + [c] + text[5..] == BOM + [d] + [c];
  }

  lemma MarkBack(x: char, a: char, d: char, c: char)
    requires Words(x, a, d, c)
    ensures Replaced([d, c], [c], [x] + BOM + [d], LF) == Some([d, x] + BOM + [d])
    ensures Replaced([d, x] + BOM + [d], BOM + [d], [a], LF) == Some([d, x, a])
  {
    assert BOM[0] != '\n';
    PutLetter([d], c, "", [x] + BOM + [d], LF);
    assert [d] + [c] + "" == [d, c];
    assert [d] + ([x] + BOM + [d]) + "" == [d, x] + BOM + [d];
    var text := [d, x] + BOM + [d];
    SplitOne(BOM + [d]);
    SplitOne([a]);
    assert text[2..4] == BOM + [d];
    assert MatchEnd(text, 2, [BOM + [d]]) == Some(4);
    ReplacedOnly(text, BOM + [d], [a], LF, 2, 4);
    assert text[..2] + [a] + text[4..] == [d, x, a];
  }

  /**
    A pair that puts a byte order mark first loses it on the way back, and with it the place it
    held: both runs succeed and the text is another.
    */
  lemma MarkLost(x: char, a: char, d: char, c: char)
    requires Words(x, a, d, c)
    ensures var text, pairs := [a, x] + BOM + [d], [Pair([a], BOM + [d]), Pair([x] + BOM + [d], [c])];
      && Outcome(text, pairs, false) == Edited(BOM + [d] + [c])
      && Outcome(BOM + [d] + [c], pairs, true) == Edited([d, x, a])
      && [d, x, a] != text
  {
    var text, edited := [a, x] + BOM + [d], BOM + [d] + [c];
    var p, q := Pair([a], BOM + [d]), Pair([x] + BOM + [d], [c]);
    MarkOut(x, a, d);
    MarkThen(x, a, d, c);
    MarkBack(x, a, d, c);
    NoReturns(x, a, d, c);
    StepsOfTwo(p, q);
    hide Replaced, HasCrlf, Forward, Back;
    TwoSteps(text, Step(1, p.before, p.after), Step(2, q.before, q.after), LF, BOM + [d, x] + BOM + [d], edited);
    TwoSteps([d, c], Step(2, q.after, q.before), Step(1, p.after, p.before), LF, [d, x] + BOM + [d], [d, x, a]);
    hide Run;
    EditedIffEveryStep(text, [p, q], false);
    EditedIffEveryStep(edited, [p, q], true);
    assert |text| == 4 && |[d, x, a]| == 3;
  }

  lemma NoReturns(x: char, a: char, d: char, c: char)
    requires Words(x, a, d, c)
    ensures var text, edited := [a, x] + BOM + [d], BOM + [d] + [c];
      && WithoutBom(text) == text && WithoutBom(edited) == [d, c]
      && FileEnding(text) == LF && FileEnding([d, c]) == LF
  {
    var text, edited := [a, x] + BOM + [d], BOM + [d] + [c];
    assert text[0] == a && edited[1..] == [d, c];
    assert BOM[0] != '\r';
    assert NoCr(text) && NoCr([d, c]);
  }
}
