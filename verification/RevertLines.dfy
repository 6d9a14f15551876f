/**
  Editing and undoing on texts whose carriage returns all belong to newlines, the newlines of
  either kind and mixed as they may be: the lines always come back, and when their endings do.
  */
module RevertLines {
  import opened Options
  import opened ReplaceOnce

  // ------------------------------------------------------------------ lines and their endings

  /** The text with every newline a bare line feed, when each carriage return is part of one. */
  function Bare(s: string): string {
    if s == "" then ""
    else if s[0] == '\r' then Bare(s[1..])
    else [s[0]] + Bare(s[1..])
  }

  /** For each newline in order, whether it is a CRLF. */
  function Endings(s: string): seq<bool> {
    if s == "" then []
    else if s[0] == '\n' then [false] + Endings(s[1..])
    else if s[0] == '\r' && |s| > 1 && s[1] == '\n' then [true] + Endings(s[2..])
    else Endings(s[1..])
  }

  lemma {:induction false} BareConcat(a: string, b: string)
    ensures Bare(a + b) == Bare(a) + Bare(b)
  {
    if a == "" {
      assert a + b == b;
    } else {
      assert (a + b)[1..] == a[1..] + b;
      BareConcat(a[1..], b);
    }
  }

  /** How much of `s` its first newline, or its first other character, takes up. */
  function Skipped(s: string): (n: nat)
    requires s != ""
    ensures 0 < n <= |s|
  {
    if s[0] == '\r' && |s| > 1 && s[1] == '\n' then 2 else 1
  }

  lemma EndingsUnfold(s: string)
    requires s != ""
    ensures var n := Skipped(s);
      Endings(s) == (if s[n - 1] == '\n' then [n == 2] else []) + Endings(s[n..])
  {
    assert [] + Endings(s[1..]) == Endings(s[1..]);
  }

  lemma {:induction false} EndingsConcat(a: string, b: string)
    requires a == "" || a[|a| - 1] != '\r'
    ensures Endings(a + b) == Endings(a) + Endings(b)
    decreases |a|
  {
    if a == "" {
      assert a + b == b && Endings(a) == [];
    } else {
      var n := Skipped(a);
      assert (a + b)[n..] == a[n..] + b;
      assert Skipped(a + b) == n && (a + b)[n - 1] == a[n - 1];
      EndingsUnfold(a);
      EndingsUnfold(a + b);
      hide Endings, Skipped;
      EndingsConcat(a[n..], b);
    }
  }

  lemma CleanEnd(s: string)
    requires Clean(s)
    ensures s == "" || s[|s| - 1] != '\r'
  {
  }

  lemma CleanConcat(a: string, b: string)
    requires Clean(a) && Clean(b)
    ensures Clean(a + b) && Bare(a + b) == Bare(a) + Bare(b) && Endings(a + b) == Endings(a) + Endings(b)
  {
    CleanEnd(a);
    BareConcat(a, b);
    EndingsConcat(a, b);
    var s := a + b;
    forall k | 0 <= k < |s| && s[k] == '\r'
      ensures k + 1 < |s| && s[k + 1] == '\n'
    {
      if k >= |a| {
        assert b[k - |a|] == '\r';
      }
    }
  }

  /** A text is its lines and their endings. */
  lemma {:induction false} LinesAndEndings(s: string, t: string)
    requires Clean(s) && Clean(t) && Bare(s) == Bare(t) && Endings(s) == Endings(t)
    ensures s == t
    decreases |s|
  {
    if s == "" {
      if t != "" {
        BareOfClean(t);
      }
    } else if t == "" {
      BareOfClean(s);
    } else {
      BareOfClean(s);
      BareOfClean(t);
      var m, n := Skipped(s), Skipped(t);
      assert Bare(s)[0] == Bare(t)[0] && Bare(s)[1..] == Bare(t)[1..];
      if s[m - 1] == '\n' {
        assert Endings(s)[0] == Endings(t)[0] && Endings(s)[1..] == Endings(t)[1..];
      }
      LinesAndEndings(s[m..], t[n..]);
      assert s == s[..m] + s[m..] && t == t[..n] + t[n..];
    }
  }

  /** The first character, CRLF as one, and the rest. */
  lemma BareOfClean(s: string)
    requires Clean(s) && s != ""
    ensures var n := Skipped(s);
      && (n == 2 <==> s[0] == '\r') && (n == 2 ==> s[1] == '\n') && s[n - 1] != '\r'
      && Clean(s[n..])
      && Bare(s) == [s[n - 1]] + Bare(s[n..])
      && Endings(s) == (if s[n - 1] == '\n' then [n == 2] else []) + Endings(s[n..])
  {
    EndingsUnfold(s);
    CleanTail(s, Skipped(s));
    if s[0] == '\r' {
      assert s[1..][0] == '\n' && s[1..][1..] == s[2..];
    }
  }

  // ------------------------------------------------------------------ the ending a replacement takes

  function Many(b: bool, n: nat): seq<bool> {
    seq(n, _ => b)
  }

  lemma {:induction false} BareWhole(part: string)
    requires '\r' !in part && '\n' !in part
    ensures Clean(part) && Bare(part) == part && Endings(part) == []
  {
    if part != "" {
      assert forall c :: c in part[1..] ==> c in part;
      BareWhole(part[1..]);
      assert part == [part[0]] + part[1..];
    }
  }

  lemma BareNewline(ending: string)
    requires ending == LF || ending == CRLF
    ensures Clean(ending) && Bare(ending) == LF && Endings(ending) == [ending == CRLF]
  {
    assert LF[1..] == "" && CRLF[1..] == LF && CRLF[2..] == "";
    assert Bare(LF) == [LF[0]] + Bare("");
    assert CRLF[0] == '\r' && CRLF[1] == '\n';
  }

  lemma JoinUnfold(parts: seq<string>, ending: string)
    requires |parts| > 1
    ensures Join(parts, ending) == parts[0] + ending + Join(parts[1..], ending)
  {
  }

  /** Lines joined by one ending. */
  lemma {:induction false} BareJoin(parts: seq<string>, ending: string)
    requires parts != [] && Whole(parts) && (ending == LF || ending == CRLF)
    ensures var joined := Join(parts, ending);
      Clean(joined) && Bare(joined) == Join(parts, LF) && Endings(joined) == Many(ending == CRLF, |parts| - 1)
    decreases |parts|
  {
    BareWhole(parts[0]);
    if |parts| > 1 {
      BareJoin(parts[1..], ending);
      BareNewline(ending);
      JoinUnfold(parts, ending);
      JoinUnfold(parts, LF);
      hide Bare, Endings, Clean, Join;
      CleanConcat(parts[0], ending);
      CleanConcat(parts[0] + ending, Join(parts[1..], ending));
      assert [] + [ending == CRLF] + Many(ending == CRLF, |parts| - 2) == Many(ending == CRLF, |parts| - 1);
    }
  }

  // ------------------------------------------------------------------ where a search string is found

  lemma {:induction false} Newlines(s: string)
    ensures |Endings(s)| == multiset(s)['\n'] == multiset(Bare(s))['\n']
    decreases |s|
  {
    if s != "" {
      var n := Skipped(s);
      EndingsUnfold(s);
      Newlines(s[n..]);
      assert s == s[..n] + s[n..];
      assert Bare(s) == Bare(s[..n]) + Bare(s[n..]) by {
        BareConcat(s[..n], s[n..]);
      }
      OneCharacter(s, n);
    }
  }

  lemma OneCharacter(s: string, n: nat)
    requires s != "" && n == Skipped(s)
    ensures multiset(s[..n])['\n'] == multiset(Bare(s[..n]))['\n'] == if s[n - 1] == '\n' then 1 else 0
  {
    var last := [s[n - 1]];
    assert last[1..] == "";
    assert s[n - 1] != '\r' ==> Bare(last) == last + "";
    if n == 2 {
      assert s[..n] == [s[0]] + last && s[..n][1..] == last;
      assert Bare(s[..n]) == Bare(last);
    } else {
      assert s[..n] == last;
    }
  }

  /** What a search string is found as has its lines, whatever the endings. */
  lemma {:induction false} BareOfMatch(text: string, at: nat, parts: seq<string>)
    requires parts != [] && Whole(parts) && MatchesAt(text, at, parts)
    ensures Bare(text[at..MatchEnd(text, at, parts).value]) == Join(parts, LF)
    decreases |parts|
  {
    BareWhole(parts[0]);
    if |parts| == 1 {
      assert text[at..at + |parts[0]|] == parts[0];
    } else {
      var next := at + |parts[0]|;
      MatchParts(text, at, parts);
      var past, end := NewlineEnd(text, next).value, MatchEnd(text, at, parts).value;
      BareOfMatch(text, past, parts[1..]);
      NewlineIs(text, next);
      BareNewline(text[next..past]);
      hide Bare, MatchEnd, NewlineEnd, Join, MatchesAt;
      BareConcat(parts[0], text[next..past]);
      BareConcat(parts[0] + text[next..past], text[past..end]);
      JoinUnfold(parts, LF);
    }
  }

  /** A part that stands first in the bare text stands first in the text. */
  lemma {:induction false} PartThere(s: string, part: string)
    requires Clean(s) && '\r' !in part && '\n' !in part && part <= Bare(s)
    ensures part <= s && Clean(s[|part|..]) && Bare(s[|part|..]) == Bare(s)[|part|..]
    decreases |part|
  {
    if part == "" {
      assert s[0..] == s && Bare(s)[0..] == Bare(s);
    } else {
      assert s != "";
      BareOfClean(s);
      assert part[0] in part && Bare(s)[0] == part[0];
      assert Skipped(s) == 1 && s[0] == part[0];
      assert part[1..] <= Bare(s[1..]);
      assert forall c :: c in part[1..] ==> c in part;
      PartThere(s[1..], part[1..]);
      assert s[1..][|part| - 1..] == s[|part|..];
      assert Bare(s[1..])[|part| - 1..] == Bare(s)[|part|..];
    }
  }

  lemma NewlineThere(s: string)
    requires Clean(s) && LF <= Bare(s)
    ensures var n := NewlineEnd(s, 0);
      n.Some? && Clean(s[n.value..]) && Bare(s[n.value..]) == Bare(s)[1..]
  {
    assert s != "";
    BareOfClean(s);
    assert Bare(s)[0] == '\n';
  }

  lemma NewlineFrom(text: string, at: nat, k: nat)
    requires at + k <= |text|
    ensures NewlineEnd(text, at + k)
         == if NewlineEnd(text[at..], k).None? then None else Some(at + NewlineEnd(text[at..], k).value)
  {
  }

  lemma FirstPartThere(text: string, at: nat, part: string)
    requires at <= |text| && Clean(text[at..]) && '\r' !in part && '\n' !in part && part <= Bare(text[at..])
    ensures StartsAt(text, at, part) && at + |part| <= |text|
    ensures Clean(text[at + |part|..]) && Bare(text[at + |part|..]) == Bare(text[at..])[|part|..]
  {
    var rest := text[at..];
    PartThere(rest, part);
    assert rest[..|part|] == text[at..at + |part|];
    assert rest[|part|..] == text[at + |part|..];
  }

  lemma ThenNewline(text: string, next: nat)
    requires next <= |text| && Clean(text[next..]) && LF <= Bare(text[next..])
    ensures NewlineEnd(text, next).Some?
    ensures var past := NewlineEnd(text, next).value;
      Clean(text[past..]) && Bare(text[past..]) == Bare(text[next..])[1..]
  {
    hide Bare, Clean;
    NewlineThere(text[next..]);
    NewlineFrom(text, next, 0);
    var past := NewlineEnd(text, next).value;
    assert text[next..][past - next..] == text[past..];
  }

  lemma FirstOfJoined(parts: seq<string>, bare: string)
    requires parts != [] && Join(parts, LF) <= bare
    ensures parts[0] <= bare
    ensures |parts| > 1 ==>
      LF <= bare[|parts[0]|..] && Join(parts[1..], LF) <= bare[|parts[0]|..][1..]
  {
    if |parts| > 1 {
      JoinUnfold(parts, LF);
      var tail := Join(parts[1..], LF);
      var whole := parts[0] + LF + tail;
      assert whole[..|parts[0]|] == parts[0] && whole[|parts[0]|..] == LF + tail && (LF + tail)[1..] == tail;
      assert bare[..|whole|] == whole;
      assert bare[|parts[0]|..][..1] == whole[|parts[0]|..][..1];
      assert bare[|parts[0]|..][1..][..|tail|] == whole[|parts[0]| + 1..] == tail;
      assert bare[..|parts[0]|] == whole[..|parts[0]|];
    }
  }

  /** Lines that stand first in the bare rest of a text are found there. */
  lemma {:induction false} LinesThere(text: string, at: nat, parts: seq<string>)
    requires parts != [] && Whole(parts) && at <= |text| && Clean(text[at..])
    requires Join(parts, LF) <= Bare(text[at..])
    ensures MatchesAt(text, at, parts)
    decreases |parts|
  {
    hide Bare, Join, StartsAt, Clean, NewlineEnd;
    FirstOfJoined(parts, Bare(text[at..]));
    FirstPartThere(text, at, parts[0]);
    if |parts| > 1 {
      var next := at + |parts[0]|;
      ThenNewline(text, next);
      LinesThere(text, NewlineEnd(text, next).value, parts[1..]);
    }
  }

  lemma CutMore(s: string, n: nat, rest: nat, p: nat)
    requires 0 < n <= |s| && rest <= |s| - n && Bare(s) == [s[n - 1]] + Bare(s[n..]) && p <= |Bare(s[n..])|
    requires Clean(s[..n]) && Bare(s[..n]) == [s[n - 1]] && Clean(s[n..][..rest]) && Clean(s[n..][rest..])
    requires Bare(s[n..][..rest]) == Bare(s[n..])[..p] && Bare(s[n..][rest..]) == Bare(s[n..])[p..]
    ensures Clean(s[..n + rest]) && Clean(s[n + rest..])
    ensures Bare(s[..n + rest]) == Bare(s)[..p + 1] && Bare(s[n + rest..]) == Bare(s)[p + 1..]
  {
    hide *;
    assert s[..n + rest] == s[..n] + s[n..][..rest] && s[n + rest..] == s[n..][rest..];
    CleanConcat(s[..n], s[n..][..rest]);
  }

  /** The place in the text that is `p` characters into the bare text. */
  lemma {:induction false} CutAt(s: string, p: nat) returns (at: nat)
    requires Clean(s) && p <= |Bare(s)|
    ensures at <= |s| && Clean(s[..at]) && Clean(s[at..])
    ensures Bare(s[..at]) == Bare(s)[..p] && Bare(s[at..]) == Bare(s)[p..]
    decreases |s|
  {
    if p == 0 {
      at := 0;
      assert s[..0] == "" && s[0..] == s;
    } else {
      var n := Skipped(s);
      BareOfClean(s);
      FirstIsClean(s, n);
      hide *;
      var rest := CutAt(s[n..], p - 1);
      at := n + rest;
      CutMore(s, n, rest, p - 1);
    }
  }

  lemma FirstIsClean(s: string, n: nat)
    requires Clean(s) && s != "" && n == Skipped(s)
    ensures Clean(s[..n]) && Bare(s[..n]) == [s[n - 1]]
  {
    if n == 2 {
      assert s[..n] == [s[0], s[1]] && s[..n][1..] == [s[1]] && [s[1]][1..] == "";
    } else {
      assert s[..n] == [s[0]] && [s[0]][1..] == "";
    }
  }

  // ------------------------------------------------------------------ a step on lines and endings

  /** A match ends after its last line or after a newline, never inside one. */
  lemma {:induction false} EndsAligned(text: string, at: nat, parts: seq<string>)
    requires parts != [] && Whole(parts) && MatchesAt(text, at, parts)
    requires parts[0] != "" || |parts| > 1
    ensures var end := MatchEnd(text, at, parts).value; end > at && text[end - 1] != '\r'
    decreases |parts|
  {
    if |parts| == 1 {
      StartsWith(text, at, parts[0], |parts[0]| - 1);
    } else {
      var next := at + |parts[0]|;
      MatchParts(text, at, parts);
      var past := NewlineEnd(text, next).value;
      if |parts| == 2 && parts[1] == "" {
        NewlineIs(text, next);
        assert text[next..past][past - next - 1] == text[past - 1] == '\n';
        assert MatchEnd(text, past, parts[1..]) == Some(past);
      } else {
        hide MatchEnd, NewlineEnd, StartsAt;
        EndsAligned(text, past, parts[1..]);
      }
    }
  }

  /** Nor does the only match begin inside a newline: it would begin before it as well. */
  lemma BeginsAligned(text: string, from: string, at: nat)
    requires Clean(text) && Clean(from) && from != "" && OnlyPlace(text, from) == Some(at)
    ensures at == 0 || text[at - 1] != '\r'
  {
    var parts := Split(from);
    SplitIsWhole(from);
    if at > 0 && text[at - 1] == '\r' {
      assert text[at] == '\n';
      if parts[0] != "" {
        assert parts[0][0] in parts[0];
        MatchHasFirst(text, at, parts);
        assert false;
      }
      SplitOfNothing(from);
      SameTail(text, at, at - 1, parts);
      OnlyPlaceIsOnly(text, from, at - 1);
      assert false;
    }
  }

  lemma CleanCut(text: string, at: nat)
    requires Clean(text) && at <= |text| && (at == 0 || text[at - 1] != '\r')
    ensures Clean(text[..at]) && Clean(text[at..])
  {
    forall k | 0 <= k < |text[..at]| && text[..at][k] == '\r'
      ensures k + 1 < |text[..at]| && text[..at][k + 1] == '\n'
    {
      assert text[k] == '\r';
    }
    CleanTail(text, at);
  }

  lemma SplitOfSomething(from: string)
    requires from != ""
    ensures Split(from)[0] != "" || |Split(from)| > 1
  {
  }

  /** A text about the place a step replaces: what is before it, what it matches, what is after it. */
  datatype Cut = Cut(before: string, matched: string, after: string)

  function CutOf(text: string, from: string): Cut
    requires OnlyPlace(text, from).Some?
  {
    var at := OnlyPlace(text, from).value;
    var end := MatchEnd(text, at, Split(from)).value;
    Cut(text[..at], text[at..end], text[end..])
  }

  lemma CutParts(text: string, from: string)
    requires OnlyPlace(text, from).Some?
    ensures var c, at := CutOf(text, from), OnlyPlace(text, from).value;
      var end := MatchEnd(text, at, Split(from)).value;
      && at <= end <= |text| && c == Cut(text[..at], text[at..end], text[end..])
      && text == c.before + c.matched + c.after && c.matched == Matched(text, from) && |c.before| == at
  {
    hide MatchEnd, OnlyPlace, Split;
    var at := OnlyPlace(text, from).value;
    ThreeParts(text, at, MatchEnd(text, at, Split(from)).value);
  }

  lemma CleanThirds(text: string, at: nat, end: nat)
    requires Clean(text) && at <= end <= |text|
    requires (at == 0 || text[at - 1] != '\r') && (end == 0 || text[end - 1] != '\r')
    ensures Clean(text[..at]) && Clean(text[at..end]) && Clean(text[end..])
  {
    hide Clean;
    CleanCut(text, end);
    CleanCut(text[..end], at);
    assert text[..end][..at] == text[..at] && text[..end][at..] == text[at..end];
  }

  lemma MatchIsSome(text: string, from: string)
    requires OnlyPlace(text, from).Some?
    ensures MatchEnd(text, OnlyPlace(text, from).value, Split(from)).Some?
  {
  }

  lemma CutIsClean(text: string, from: string)
    requires Clean(text) && Clean(from) && from != "" && OnlyPlace(text, from).Some?
    ensures var c := CutOf(text, from);
      && Clean(c.before) && Clean(c.matched) && Clean(c.after) && text == c.before + c.matched + c.after
      && Bare(c.matched) == Join(Split(from), LF) && c.matched == Matched(text, from)
      && |c.before| == OnlyPlace(text, from).value
  {
    hide *;
    var at := OnlyPlace(text, from).value;
    CutParts(text, from);
    BeginsAligned(text, from, at);
    SplitIsWhole(from);
    SplitOfSomething(from);
    assert MatchEnd(text, at, Split(from)).Some? by {
      MatchIsSome(text, from);
    }
    EndsAligned(text, at, Split(from));
    BareOfMatch(text, at, Split(from));
    CleanThirds(text, at, MatchEnd(text, at, Split(from)).value);
  }

  /** How many newlines a string of a pair holds. */
  function Breaks(s: string): nat {
    |Split(s)| - 1
  }

  lemma CleanThree(a: string, b: string, c: string)
    requires Clean(a) && Clean(b) && Clean(c)
    ensures Clean(a + b + c) && Bare(a + b + c) == Bare(a) + Bare(b) + Bare(c)
    ensures Endings(a + b + c) == Endings(a) + Endings(b) + Endings(c)
  {
    hide Clean, Bare, Endings;
    CleanConcat(a, b);
    CleanConcat(a + b, c);
  }

  lemma BreaksOfMatch(matched: string, from: string)
    requires Clean(from) && Bare(matched) == Join(Split(from), LF)
    ensures |Endings(matched)| == Breaks(from)
  {
    SplitIsWhole(from);
    BareJoin(Split(from), LF);
    Newlines(matched);
    Newlines(Join(Split(from), LF));
    BareOfBare(Join(Split(from), LF), Split(from));
  }

  lemma BareOfBare(joined: string, parts: seq<string>)
    requires parts != [] && Whole(parts) && joined == Join(parts, LF)
    ensures Bare(joined) == joined
  {
    BareJoin(parts, LF);
  }

  /** A step, read on lines and on endings. */
  lemma StepOnLines(text: string, from: string, to: string, ending: string)
    requires (ending == LF || ending == CRLF) && Clean(text) && Clean(from) && Clean(to)
    requires Replaced(text, from, to, ending).Some?
    ensures from != "" && OnlyPlace(text, from).Some?
    ensures var next, c := Replaced(text, from, to, ending).value, CutOf(text, from);
      var put := EndingOf(c.matched, ending);
      && Clean(next) && Bare(next) == Bare(c.before) + Join(Split(to), LF) + Bare(c.after)
      && Endings(next) == Endings(c.before) + Many(put == CRLF, Breaks(to)) + Endings(c.after)
      && Bare(text) == Bare(c.before) + Join(Split(from), LF) + Bare(c.after)
      && Endings(text) == Endings(c.before) + Endings(c.matched) + Endings(c.after)
      && |Endings(c.matched)| == Breaks(from)
  {
    ReplacedIs(text, from, to, ending);
    CutIsClean(text, from);
    var c := CutOf(text, from);
    var put := EndingOf(c.matched, ending);
    EndingIsOne(c.matched, ending);
    SplitIsWhole(to);
    BareJoin(Split(to), put);
    BreaksOfMatch(c.matched, from);
    hide Clean, Bare, Endings, Replaced, OnlyPlace, Split, Join, EndingOf, Matched, MatchEnd;
    CleanThree(c.before, c.matched, c.after);
    CleanThree(c.before, Join(Split(to), put), c.after);
  }

  lemma SameLengthParts(a: string, b: string, c: string, x: string, y: string, z: string)
    requires a + b + c == x + y + z && |a| == |x| && |b| == |y|
    ensures a == x && b == y && c == z
  {
    Slices(a, b, c);
    Slices(x, y, z);
  }

  /** Whatever its endings, a text with the lines of another has its match where the other has it. */
  lemma FoundAtSameLines(text: string, to: string, before: string, after: string)
    requires Clean(text) && Clean(to) && to != "" && OnlyPlace(text, to).Some?
    requires Bare(text) == before + Join(Split(to), LF) + after
    ensures var c := CutOf(text, to); Bare(c.before) == before && Bare(c.after) == after
  {
    var lines := Join(Split(to), LF);
    SplitIsWhole(to);
    CutIsClean(text, to);
    var c := CutOf(text, to);
    assert |Bare(text)| == |before| + |lines| + |after|;
    var at := CutAt(text, |before|);
    Slices(before, lines, after);
    assert Bare(text)[|before|..][..|lines|] == lines;
    LinesThere(text, at, Split(to));
    OnlyPlaceIsOnly(text, to, at);
    hide Clean, Bare, Split, Join, OnlyPlace, MatchEnd;
    assert text[..at] == c.before;
    CleanThree(c.before, c.matched, c.after);
    SameLengthParts(Bare(c.before), Bare(c.matched), Bare(c.after), before, lines, after);
  }

  // ------------------------------------------------------------------ there and back

  /** The pairs made in order and then undone, the last first. */
  function ThereAndBack(text: string, pairs: seq<Pair>, ending: string, later: string): Option<string>
    decreases |pairs|
  {
    if pairs == [] then Some(text)
    else
      var next := Replaced(text, pairs[0].before, pairs[0].after, ending);
      if next.None? then None
      else
        var back := ThereAndBack(next.value, pairs[1..], ending, later);
        if back.None? then None else Replaced(back.value, pairs[0].after, pairs[0].before, later)
  }

  /** The same replacements, whatever their numbers. */
  ghost predicate Alike(xs: seq<Step>, ys: seq<Step>) {
    |xs| == |ys| && forall k :: 0 <= k < |xs| ==> xs[k].from == ys[k].from && xs[k].to == ys[k].to
  }

  lemma {:induction false} AlikeRun(text: string, xs: seq<Step>, ys: seq<Step>, ending: string)
    requires Alike(xs, ys)
    ensures Run(text, xs, ending) == Run(text, ys, ending)
    decreases |xs|
  {
    hide Replaced;
    if xs != [] {
      var next := Replaced(text, xs[0].from, xs[0].to, ending);
      if next.Some? {
        AlikeRun(next.value, xs[1..], ys[1..], ending);
      }
    }
  }

  lemma AlikeConcat(a: seq<Step>, b: seq<Step>, x: seq<Step>, y: seq<Step>)
    requires Alike(a, x) && Alike(b, y)
    ensures Alike(a + b, x + y)
  {
  }

  /** The first pair's step is made first and undone last. */
  lemma {:induction false} FirstStep(pairs: seq<Pair>, out: Step, home: Step)
    requires pairs != [] && out.from == home.to == pairs[0].before && out.to == home.from == pairs[0].after
    ensures Alike(Forward(pairs), [out] + Forward(pairs[1..])) && Alike(Back(pairs), Back(pairs[1..]) + [home])
  {
    if |pairs| == 1 {
      assert Forward(pairs[..0]) == [] && Back(pairs[..0]) == [];
      assert Forward(pairs[1..]) == [] && Back(pairs[1..]) == [];
    } else {
      var front, tail, last := pairs[..|pairs| - 1], pairs[1..], pairs[|pairs| - 1];
      FirstStep(front, out, home);
      assert tail[..|tail| - 1] == front[1..] && tail[|tail| - 1] == last;
      var there, back := Step(|pairs|, last.before, last.after), Step(|pairs|, last.after, last.before);
      var earlier, later := Step(|tail|, last.before, last.after), Step(|tail|, last.after, last.before);
      assert Forward(tail) == Forward(front[1..]) + [earlier] && Back(tail) == [later] + Back(front[1..]);
      assert Forward(pairs) == Forward(front) + [there] && Back(pairs) == [back] + Back(front);
      hide Forward, Back;
      AlikeConcat(Forward(front), [there], [out] + Forward(front[1..]), [earlier]);
      AlikeConcat([back], Back(front), [later], Back(front[1..]) + [home]);
      assert [out] + Forward(front[1..]) + [earlier] == [out] + Forward(tail);
      assert [later] + (Back(front[1..]) + [home]) == Back(tail) + [home];
    }
  }

  lemma RunFirst(text: string, first: Step, rest: seq<Step>, ending: string)
    ensures var next := Replaced(text, first.from, first.to, ending);
      Run(text, [first] + rest, ending) == if next.None? then None else Run(next.value, rest, ending)
  {
    hide Replaced;
    assert ([first] + rest)[1..] == rest;
  }

  /** The two runs, one after the other. */
  lemma {:induction false} RunsAreThereAndBack(text: string, pairs: seq<Pair>, ending: string, later: string)
    requires Run(text, Forward(pairs), ending).Some?
    ensures Run(Run(text, Forward(pairs), ending).value, Back(pairs), later) == ThereAndBack(text, pairs, ending, later)
    decreases |pairs|
  {
    if pairs != [] {
      var out, home := Step(1, pairs[0].before, pairs[0].after), Step(1, pairs[0].after, pairs[0].before);
      var there := Run(text, Forward(pairs), ending).value;
      FirstStep(pairs, out, home);
      hide Replaced, Run, Alike, Forward, Back;
      AlikeRun(text, Forward(pairs), [out] + Forward(pairs[1..]), ending);
      RunFirst(text, out, Forward(pairs[1..]), ending);
      AlikeRun(there, Back(pairs), Back(pairs[1..]) + [home], later);
      RunSnoc(there, Back(pairs[1..]), home, later);
      RunsAreThereAndBack(Replaced(text, out.from, out.to, ending).value, pairs[1..], ending, later);
    }
  }

  // ------------------------------------------------------------------ which endings come back

  /** The endings are the same wherever `own` says. */
  ghost predicate Agree(own: seq<bool>, a: seq<bool>, b: seq<bool>)
    requires |own| == |a| == |b|
  {
    forall k :: 0 <= k < |own| && own[k] ==> a[k] == b[k]
  }

  lemma AgreeTwo(own: seq<bool>, more: seq<bool>, a: seq<bool>, c: seq<bool>, b: seq<bool>, d: seq<bool>)
    requires |own| == |a| == |b| && |more| == |c| == |d|
    ensures Agree(own + more, a + c, b + d) <==> Agree(own, a, b) && Agree(more, c, d)
  {
    if Agree(own + more, a + c, b + d) {
      forall k | 0 <= k < |own| && own[k]
        ensures a[k] == b[k]
      {
        assert (own + more)[k] && (a + c)[k] == (b + d)[k];
      }
      forall k | 0 <= k < |more| && more[k]
        ensures c[k] == d[k]
      {
        assert (own + more)[|own| + k] && (a + c)[|own| + k] == (b + d)[|own| + k];
      }
    }
  }

  lemma NoneOwn(n: nat, a: seq<bool>, b: seq<bool>)
    requires |a| == |b| == n
    ensures Agree(Many(false, n), a, b)
  {
  }

  lemma AllOwn(a: seq<bool>, b: seq<bool>)
    requires |a| == |b|
    ensures Agree(Many(true, |a|), a, b) <==> a == b
  {
    if Agree(Many(true, |a|), a, b) {
      forall k | 0 <= k < |a|
        ensures a[k] == b[k]
      {
        assert Many(true, |a|)[k];
      }
    }
  }

  /** Which of the newlines a step takes are the file's own. */
  ghost function OwnTaken(text: string, pair: Pair, own: seq<bool>): (taken: seq<bool>)
    requires Clean(text) && Clean(pair.before) && pair.before != "" && OnlyPlace(text, pair.before).Some?
    requires |own| == |Endings(text)|
    ensures |taken| == |Endings(CutOf(text, pair.before).matched)|
  {
    var c := CutOf(text, pair.before);
    CutIsClean(text, pair.before);
    CleanThree(c.before, c.matched, c.after);
    own[|Endings(c.before)|..|Endings(c.before)| + |Endings(c.matched)|]
  }

  /** Which newlines are the file's own once the step has put others for those it took. */
  ghost function StillOwn(text: string, pair: Pair, own: seq<bool>): (still: seq<bool>)
    requires Clean(text) && Clean(pair.before) && pair.before != "" && OnlyPlace(text, pair.before).Some?
    requires |own| == |Endings(text)|
    ensures var c := CutOf(text, pair.before);
      |still| == |Endings(c.before)| + Breaks(pair.after) + |Endings(c.after)|
  {
    var c := CutOf(text, pair.before);
    CutIsClean(text, pair.before);
    CleanThree(c.before, c.matched, c.after);
    own[..|Endings(c.before)|] + Many(false, Breaks(pair.after)) + own[|Endings(c.before)| + |Endings(c.matched)|..]
  }

  /** The file's own newlines among those a step took are of the ending undoing it writes. */
  ghost predicate TakenPutBack(text: string, pair: Pair, own: seq<bool>, rest: string, later: string)
    requires Clean(text) && Clean(pair.before) && pair.before != "" && OnlyPlace(text, pair.before).Some?
    requires |own| == |Endings(text)|
  {
    var matched := CutOf(text, pair.before).matched;
    var written := EndingOf(Matched(rest, pair.after), later);
    Agree(OwnTaken(text, pair, own), Endings(matched), Many(written == CRLF, |Endings(matched)|))
  }

  /**
    Each newline of the file's own that a step takes is of the ending that undoing the step
    writes: that of the replacement as it is found then, or of the file when that has none.
    `own` says which of the text's newlines are the file's own.
    */
  ghost predicate OwnPutBack(text: string, pairs: seq<Pair>, own: seq<bool>, ending: string, later: string)
    requires (ending == LF || ending == CRLF) && Clean(text) && CleanPairs(pairs)
    requires ThereAndBack(text, pairs, ending, later).Some? && |own| == |Endings(text)|
    decreases |pairs|
  {
    pairs == []
    || (StepOnLines(text, pairs[0].before, pairs[0].after, ending);
        var next := Replaced(text, pairs[0].before, pairs[0].after, ending).value;
        && TakenPutBack(text, pairs[0], own, ThereAndBack(next, pairs[1..], ending, later).value, later)
        && OwnPutBack(next, pairs[1..], StillOwn(text, pairs[0], own), ending, later))
  }

  lemma SameBreaks(a: string, b: string)
    requires Bare(a) == Bare(b)
    ensures |Endings(a)| == |Endings(b)|
  {
    Newlines(a);
    Newlines(b);
  }

  lemma AgreeSwaps(own: seq<bool>, a: seq<bool>, b: seq<bool>)
    requires |own| == |a| == |b|
    ensures Agree(own, a, b) <==> Agree(own, b, a)
  {
  }

  /** One step out and back: agreement on the whole is agreement outside it and on what it took. */
  lemma ThreeAgree(x: seq<bool>, y: seq<bool>, z: seq<bool>, a: seq<bool>, b: seq<bool>, c: seq<bool>,
                   d: seq<bool>, e: seq<bool>, f: seq<bool>, mine: seq<bool>, found: seq<bool>, put: seq<bool>)
    requires |x| == |a| == |d| && |y| == |b| == |e| && |z| == |c| == |f| && |mine| == |found| == |put|
    requires Agree(mine, found, put)
    ensures Agree(x + y + z, a + b + c, d + e + f)
       <==> Agree(y, e, b) && Agree(x + mine + z, a + found + c, d + put + f)
  {
    hide Agree;
    AgreeTwo(x + y, z, a + b, c, d + e, f);
    AgreeTwo(x, y, a, b, d, e);
    AgreeTwo(x + mine, z, a + found, c, d + put, f);
    AgreeTwo(x, mine, a, found, d, put);
    AgreeSwaps(y, b, e);
  }

  /** A step made and, after whatever came between, undone on a text of the same lines. */
  lemma StepComesBack(text: string, pair: Pair, own: seq<bool>, ending: string, later: string, rest: string)
    requires (ending == LF || ending == CRLF) && (later == LF || later == CRLF)
    requires Clean(text) && Clean(pair.before) && Clean(pair.after) && |own| == |Endings(text)|
    requires Replaced(text, pair.before, pair.after, ending).Some?
    requires Clean(rest) && Bare(rest) == Bare(Replaced(text, pair.before, pair.after, ending).value)
    requires Replaced(rest, pair.after, pair.before, later).Some?
    ensures pair.before != "" && OnlyPlace(text, pair.before).Some?
    ensures var next := Replaced(text, pair.before, pair.after, ending).value;
      var back := Replaced(rest, pair.after, pair.before, later).value;
      && Clean(back) && Bare(back) == Bare(text) && |Endings(back)| == |Endings(text)|
      && |Endings(rest)| == |Endings(next)| == |StillOwn(text, pair, own)|
      && (Agree(own, Endings(back), Endings(text))
          <==> (TakenPutBack(text, pair, own, rest, later)
                && Agree(StillOwn(text, pair, own), Endings(rest), Endings(next))))
  {
    hide *;
    StepOnLines(text, pair.before, pair.after, ending);
    StepOnLines(rest, pair.after, pair.before, later);
    var c, d := CutOf(text, pair.before), CutOf(rest, pair.after);
    var next, back := Replaced(text, pair.before, pair.after, ending).value,
                      Replaced(rest, pair.after, pair.before, later).value;
    CutIsClean(rest, pair.after);
    FoundAtSameLines(rest, pair.after, Bare(c.before), Bare(c.after));
    SameBreaks(d.before, c.before);
    SameBreaks(d.after, c.after);
    SameBreaks(back, text);
    SameBreaks(rest, next);
    var put, written := EndingOf(c.matched, ending), EndingOf(d.matched, later);
    ManyAre(put == CRLF, Breaks(pair.after));
    ManyAre(false, Breaks(pair.after));
    ManyAre(written == CRLF, Breaks(pair.before));
    OwnParts(text, pair, own);
    var x, y := own[..|Endings(c.before)|], OwnTaken(text, pair, own);
    var z := own[|Endings(c.before)| + |Endings(c.matched)|..];
    NoneOwn(Breaks(pair.after), Endings(d.matched), Many(put == CRLF, Breaks(pair.after)));
    ThreeAgree(x, y, z, Endings(d.before), Many(written == CRLF, Breaks(pair.before)), Endings(d.after),
               Endings(c.before), Endings(c.matched), Endings(c.after),
               Many(false, Breaks(pair.after)), Endings(d.matched), Many(put == CRLF, Breaks(pair.after)));
    TakenIs(text, pair, own, rest, later);
  }

  lemma OwnParts(text: string, pair: Pair, own: seq<bool>)
    requires Clean(text) && Clean(pair.before) && pair.before != "" && OnlyPlace(text, pair.before).Some?
    requires |own| == |Endings(text)|
    ensures var c := CutOf(text, pair.before);
      var before, taken := |Endings(c.before)|, |Endings(c.matched)|;
      && before + taken + |Endings(c.after)| == |own|
      && own == own[..before] + OwnTaken(text, pair, own) + own[before + taken..]
      && StillOwn(text, pair, own) == own[..before] + Many(false, Breaks(pair.after)) + own[before + taken..]
  {
    hide Clean, Endings, CutOf, OnlyPlace;
    CutIsClean(text, pair.before);
    var c := CutOf(text, pair.before);
    CleanThree(c.before, c.matched, c.after);
  }

  lemma TakenIs(text: string, pair: Pair, own: seq<bool>, rest: string, later: string)
    requires Clean(text) && Clean(pair.before) && pair.before != "" && OnlyPlace(text, pair.before).Some?
    requires |own| == |Endings(text)|
    ensures var c := CutOf(text, pair.before);
      TakenPutBack(text, pair, own, rest, later)
      <==> Agree(OwnTaken(text, pair, own), Endings(c.matched),
                 Many(EndingOf(Matched(rest, pair.after), later) == CRLF, |Endings(c.matched)|))
  {
    hide Clean, Endings, CutOf, OnlyPlace, Agree, OwnTaken, Matched, EndingOf;
  }

  lemma ManyAre(b: bool, n: nat)
    ensures |Many(b, n)| == n
  {
  }

  lemma NothingMade(text: string, own: seq<bool>, ending: string, later: string)
    requires (ending == LF || ending == CRLF) && Clean(text) && |own| == |Endings(text)|
    ensures CleanPairs([]) && ThereAndBack(text, [], ending, later) == Some(text)
    ensures Agree(own, Endings(text), Endings(text)) && OwnPutBack(text, [], own, ending, later)
  {
  }

  /** The first pair apart, and the others from what it leaves. */
  lemma FirstMade(text: string, pairs: seq<Pair>, own: seq<bool>, ending: string, later: string)
    requires (ending == LF || ending == CRLF) && Clean(text) && CleanPairs(pairs) && pairs != []
    requires ThereAndBack(text, pairs, ending, later).Some? && |own| == |Endings(text)|
    ensures var pair := pairs[0];
      && Clean(pair.before) && Clean(pair.after) && CleanPairs(pairs[1..]) && pair.before != ""
      && Replaced(text, pair.before, pair.after, ending).Some? && OnlyPlace(text, pair.before).Some?
      && var next := Replaced(text, pair.before, pair.after, ending).value;
         && ThereAndBack(next, pairs[1..], ending, later).Some?
         && var rest := ThereAndBack(next, pairs[1..], ending, later).value;
            && Replaced(rest, pair.after, pair.before, later) == ThereAndBack(text, pairs, ending, later)
            && Clean(next) && |StillOwn(text, pair, own)| == |Endings(next)|
            && (OwnPutBack(text, pairs, own, ending, later)
                <==> (TakenPutBack(text, pair, own, rest, later)
                      && OwnPutBack(next, pairs[1..], StillOwn(text, pair, own), ending, later)))
  {
    hide Replaced, CutOf, Clean, Bare, Endings, OnlyPlace, StillOwn, TakenPutBack;
    var pair := pairs[0];
    assert Clean(pair.before) && Clean(pair.after);
    StepOnLines(text, pair.before, pair.after, ending);
  }

  /** The lines always come back; the file's own newlines at their endings exactly when each is put back. */
  lemma {:induction false} LinesComeBack(text: string, pairs: seq<Pair>, own: seq<bool>, ending: string, later: string)
    requires (ending == LF || ending == CRLF) && (later == LF || later == CRLF)
    requires Clean(text) && CleanPairs(pairs) && |own| == |Endings(text)|
    requires ThereAndBack(text, pairs, ending, later).Some?
    ensures var back := ThereAndBack(text, pairs, ending, later).value;
      && Clean(back) && Bare(back) == Bare(text) && |Endings(back)| == |Endings(text)|
      && (Agree(own, Endings(back), Endings(text)) <==> OwnPutBack(text, pairs, own, ending, later))
    decreases |pairs|
  {
    hide *;
    if pairs == [] {
      NothingMade(text, own, ending, later);
    } else {
      var pair := pairs[0];
      FirstMade(text, pairs, own, ending, later);
      var next := Replaced(text, pair.before, pair.after, ending).value;
      var rest := ThereAndBack(next, pairs[1..], ending, later).value;
      LinesComeBack(next, pairs[1..], StillOwn(text, pair, own), ending, later);
      StepComesBack(text, pair, own, ending, later, rest);
    }
  }

  /**
    Any pairs and any text, its newlines of either kind or both, with no carriage return astray
    in either: when both runs succeed and the edit leaves no byte order mark first, the lines come
    back; and `revert` gives the text back exactly when, besides, each newline of its own that a
    step took is of the ending that undoing the step writes.
    */
  lemma RevertRestoresIff(text: string, pairs: seq<Pair>)
    requires Clean(WithoutBom(text)) && CleanPairs(pairs)
    requires Outcome(text, pairs, false).Edited? && Outcome(Outcome(text, pairs, false).text, pairs, true).Edited?
    ensures var start, edited := WithoutBom(text), Outcome(text, pairs, false).text;
      !(BOM <= edited) ==>
        && ThereAndBack(start, pairs, FileEnding(start), FileEnding(edited)).Some?
        && Bare(Outcome(edited, pairs, true).text) == Bare(start)
    ensures var start, edited := WithoutBom(text), Outcome(text, pairs, false).text;
      Outcome(edited, pairs, true) == Edited(start)
      <==> (!(BOM <= edited)
            && OwnPutBack(start, pairs, Many(true, |Endings(start)|), FileEnding(start), FileEnding(edited)))
  {
    var start, edited := WithoutBom(text), Outcome(text, pairs, false).text;
    if BOM <= edited {
      LeadingMarkIsLost(text, pairs);
    } else {
      EditedIffEveryStep(text, pairs, false);
      EditedIffEveryStep(edited, pairs, true);
      hide Outcome, Run, Clean, Bare, Endings, HasCrlf, ThereAndBack, OwnPutBack, Agree;
      RunsAreThereAndBack(start, pairs, FileEnding(start), FileEnding(edited));
      LinesComeBack(start, pairs, Many(true, |Endings(start)|), FileEnding(start), FileEnding(edited));
      var back := Outcome(edited, pairs, true).text;
      AllOwn(Endings(back), Endings(start));
      if Endings(back) == Endings(start) {
        LinesAndEndings(back, start);
      }
    }
  }
}
