/**
  Routes out of source text: a bracket matcher, a splitter at the commas of the outermost
  level, and a walk that keeps the wrappers it is inside on a stack.
  */
module RouteTree {
  import opened Options
  import Threading

  // ------------------------------------------------------------------ counting brackets

  /** Which brackets are counted: one kind, or all alike. */
  datatype Kind = Square | Curly | Every

  function Weight(kind: Kind, c: char): int {
    match kind
    case Square => if c == '[' then 1 else if c == ']' then -1 else 0
    case Curly => if c == '{' then 1 else if c == '}' then -1 else 0
    case Every =>
      if c == '{' || c == '[' || c == '(' then 1
      else if c == '}' || c == ']' || c == ')' then -1
      else 0
  }

  /** How many of `s` are opened and not closed. */
  function Sum(kind: Kind, s: string): int {
    if s == "" then 0 else Sum(kind, s[..|s| - 1]) + Weight(kind, s[|s| - 1])
  }

  lemma SumSnoc(kind: Kind, source: string, at: nat, i: nat)
    requires at <= i < |source|
    ensures Sum(kind, source[at..i + 1]) == Sum(kind, source[at..i]) + Weight(kind, source[i])
  {
    assert source[at..i + 1][..i - at] == source[at..i];
  }

  // ------------------------------------------------------------------ the matching bracket

  function Opens(c: char): Option<Kind> {
    if c == '[' then Some(Square) else if c == '{' then Some(Curly) else None
  }

  /** The bracket at `at` is closed at `end`: there, and not before, as many have closed as opened. */
  ghost predicate ClosesAt(kind: Kind, source: string, at: nat, end: nat) {
    && at < end < |source|
    && Sum(kind, source[at..end + 1]) == 0
    && forall k :: at < k <= end ==> Sum(kind, source[at..k]) > 0
  }

  /** The scan from `i`, `depth` deep. */
  function SpanFrom(kind: Kind, source: string, i: nat, depth: int): Option<nat>
    requires i <= |source|
    decreases |source| - i
  {
    if i == |source| then None
    else
      var now := depth + Weight(kind, source[i]);
      if Weight(kind, source[i]) < 0 && now == 0 then Some(i) else SpanFrom(kind, source, i + 1, now)
  }

  /** Where what the bracket at `at` opens ends, or nothing when it is no bracket or never closed. */
  function Span(source: string, at: nat): Option<nat>
    requires at < |source|
  {
    var kind := Opens(source[at]);
    if kind.None? then None else SpanFrom(kind.value, source, at, 0)
  }

  method BracketSpan(source: string, at: nat) returns (end: Option<nat>)
    requires at < |source|
    ensures end == Span(source, at)
  {
    var open := source[at];
    if open != '[' && open != '{' {
      return None;
    }
    var close := if open == '[' then ']' else '}';
    var depth := 0;
    var i := at;
    while i < |source|
      invariant at <= i <= |source|
      invariant SpanFrom(Opens(open).value, source, i, depth) == Span(source, at)
    {
      if source[i] == open {
        depth := depth + 1;
      } else if source[i] == close {
        depth := depth - 1;
        if depth == 0 {
          return Some(i);
        }
      }
      i := i + 1;
    }
    return None;
  }

  lemma {:induction false} SpanFromIs(kind: Kind, source: string, at: nat, i: nat)
    requires at < i <= |source|
    requires forall k :: at < k <= i ==> Sum(kind, source[at..k]) > 0
    ensures var end := SpanFrom(kind, source, i, Sum(kind, source[at..i]));
      && (end.Some? ==> ClosesAt(kind, source, at, end.value))
      && (end.None? ==> forall e: nat :: !ClosesAt(kind, source, at, e))
    decreases |source| - i
  {
    if i < |source| {
      SumSnoc(kind, source, at, i);
      if Sum(kind, source[at..i + 1]) == 0 {
        assert ClosesAt(kind, source, at, i);
      } else {
        SpanFromIs(kind, source, at, i + 1);
      }
    }
  }

  /** The matcher finds the matching bracket, and finds none exactly when there is none. */
  lemma SpanIsMatch(source: string, at: nat)
    requires at < |source|
    ensures var kind := Opens(source[at]); var end := Span(source, at);
      if kind.None? then end.None?
      else (end.Some? ==> ClosesAt(kind.value, source, at, end.value))
           && (end.None? ==> forall e: nat :: !ClosesAt(kind.value, source, at, e))
  {
    var kind := Opens(source[at]);
    if kind.Some? {
      SumSnoc(kind.value, source, at, at);
      assert source[at..at] == "" && Sum(kind.value, "") == 0;
      SpanFromIs(kind.value, source, at, at + 1);
    }
  }

  lemma NotClosedBefore(kind: Kind, source: string, at: nat, sooner: nat, end: nat)
    requires ClosesAt(kind, source, at, end) && at < sooner < end
    ensures !ClosesAt(kind, source, at, sooner)
  {
    assert Sum(kind, source[at..sooner + 1]) > 0;
  }

  lemma MatchIsOne(kind: Kind, source: string, at: nat, a: nat, b: nat)
    requires ClosesAt(kind, source, at, a) && ClosesAt(kind, source, at, b)
    ensures a == b
  {
    if a < b {
      NotClosedBefore(kind, source, at, a, b);
    } else if b < a {
      NotClosedBefore(kind, source, at, b, a);
    }
  }

  // ------------------------------------------------------------------ the outermost commas

  /** The parts of `inner` from `start` on, the scan being at `i` and `depth` deep. */
  function PartsFrom(inner: string, i: nat, start: nat, depth: int): seq<string>
    requires start <= i <= |inner|
    decreases |inner| - i
  {
    if i == |inner| then [inner[start..]]
    else if inner[i] == ',' && depth == 0 then [inner[start..i]] + PartsFrom(inner, i + 1, i + 1, 0)
    else PartsFrom(inner, i + 1, start, depth + Weight(Every, inner[i]))
  }

  function Trim(s: string): string {
    Threading.TrimEnd(Threading.TrimStart(s))
  }

  /** Each part trimmed, those with nothing in them left out. */
  function Told(parts: seq<string>): seq<string> {
    if parts == [] then []
    else (if Trim(parts[0]) == "" then [] else [Trim(parts[0])]) + Told(parts[1..])
  }

  function TopLevel(inner: string): seq<string> {
    Told(PartsFrom(inner, 0, 0, 0))
  }

  method SplitTopLevel(inner: string) returns (elements: seq<string>)
    ensures elements == TopLevel(inner)
  {
    var parts: seq<string> := [];
    var depth := 0;
    var start := 0;
    for i := 0 to |inner|
      invariant start <= i && parts + PartsFrom(inner, i, start, depth) == PartsFrom(inner, 0, 0, 0)
    {
      var ch := inner[i];
      if ch == '{' || ch == '[' || ch == '(' {
        depth := depth + 1;
      } else if ch == '}' || ch == ']' || ch == ')' {
        depth := depth - 1;
      } else if ch == ',' && depth == 0 {
        parts := parts + [inner[start..i]];
        start := i + 1;
      }
    }
    parts := parts + [inner[start..]];
    elements := Trimmed(parts);
  }

  method Trimmed(parts: seq<string>) returns (elements: seq<string>)
    ensures elements == Told(parts)
  {
    hide *;
    elements := [];
    assert parts[0..] == parts;
    for i := 0 to |parts|
      invariant elements + Told(parts[i..]) == Told(parts)
    {
      ToldUnfold(parts, i);
      if Trim(parts[i]) != "" {
        elements := elements + [Trim(parts[i])];
      }
    }
    ToldNothing(parts[|parts|..]);
    assert elements + [] == elements;
  }

  lemma ToldUnfold(parts: seq<string>, i: nat)
    requires i < |parts|
    ensures Told(parts[i..]) == (if Trim(parts[i]) != "" then [Trim(parts[i])] else []) + Told(parts[i + 1..])
  {
    hide Trim;
    assert parts[i..][0] == parts[i] && parts[i..][1..] == parts[i + 1..];
  }

  lemma ToldNothing(parts: seq<string>)
    requires parts == []
    ensures Told(parts) == []
  {
  }

  function Joined(parts: seq<string>): string {
    if parts == [] then ""
    else if |parts| == 1 then parts[0]
    else parts[0] + "," + Joined(parts[1..])
  }

  /** Nothing is cut out but the commas cut at. */
  lemma {:induction false} PartsJoin(inner: string, i: nat, start: nat, depth: int)
    requires start <= i <= |inner|
    ensures PartsFrom(inner, i, start, depth) != [] && Joined(PartsFrom(inner, i, start, depth)) == inner[start..]
    decreases |inner| - i
  {
    if i < |inner| {
      if inner[i] == ',' && depth == 0 {
        PartsJoin(inner, i + 1, i + 1, 0);
        var rest := PartsFrom(inner, i + 1, i + 1, 0);
        assert ([inner[start..i]] + rest)[1..] == rest;
        assert inner[start..] == inner[start..i] + "," + inner[i + 1..];
      } else {
        PartsJoin(inner, i + 1, start, depth + Weight(Every, inner[i]));
      }
    }
  }

  /** Level at its end, and with no comma where it is level before. */
  ghost predicate Whole(part: string) {
    Sum(Every, part) == 0 && forall k :: 0 <= k < |part| && part[k] == ',' ==> Sum(Every, part[..k]) != 0
  }

  lemma {:induction false} ScansPart(inner: string, start: nat, part: string, k: nat)
    requires Whole(part) && k <= |part| && start + |part| <= |inner| && inner[start..start + |part|] == part
    ensures PartsFrom(inner, start + k, start, Sum(Every, part[..k])) == PartsFrom(inner, start + |part|, start, 0)
    decreases |part| - k
  {
    if k == |part| {
      assert part[..k] == part;
    } else {
      assert inner[start + k] == inner[start..start + |part|][k] == part[k];
      assert part[..k + 1][..k] == part[..k];
      ScansPart(inner, start, part, k + 1);
    }
  }

  /** Parts that are whole come back from their joining. */
  lemma {:induction false} JoinedParts(inner: string, start: nat, parts: seq<string>)
    requires parts != [] && (forall k :: 0 <= k < |parts| ==> Whole(parts[k]))
    requires start <= |inner| && inner[start..] == Joined(parts)
    ensures PartsFrom(inner, start, start, 0) == parts
    decreases |parts|
  {
    var part := parts[0];
    var rest := inner[start..];
    assert |part| <= |rest| && rest[..|part|] == part;
    assert inner[start..start + |part|] == part;
    assert part[..0] == "" && Sum(Every, "") == 0;
    ScansPart(inner, start, part, 0);
    var next := start + |part|;
    if |parts| > 1 {
      assert rest[|part|] == ',' && inner[next] == ',';
      assert rest[|part| + 1..] == Joined(parts[1..]);
      assert inner[next + 1..] == rest[|part| + 1..];
      JoinedParts(inner, next + 1, parts[1..]);
    } else {
      assert next == |inner|;
    }
  }

  /**
    The splitter undoes printing: however the elements are padded, and whatever empty places a
    trailing comma leaves, what was between the commas comes back trimmed, in order.
    */
  lemma SplitUndoesJoin(parts: seq<string>)
    requires parts != [] && forall k :: 0 <= k < |parts| ==> Whole(parts[k])
    ensures TopLevel(Joined(parts)) == Told(parts)
  {
    assert Joined(parts)[0..] == Joined(parts);
    JoinedParts(Joined(parts), 0, parts);
  }

  // ------------------------------------------------------------------ reading the tree's text

  /** What stands between two commas of the tree: a route object, another array spread in, or neither. */
  datatype Entry =
    | Leaf(own: string)
    | Branch(own: string, children: seq<Entry>)
    | Spread(name: string)
    | Odd(text: string)
    | Unclosed(text: string)

  const CHILDREN := "children:"

  predicate Occurs(s: string, what: string, at: nat) {
    at + |what| <= |s| && s[at..at + |what|] == what
  }

  /** `indexOf` from `from` on. */
  function IndexOf(s: string, what: string, from: nat): (at: Option<nat>)
    ensures at.Some? ==> from <= at.value && Occurs(s, what, at.value)
    ensures at.Some? ==> forall k: nat :: from <= k < at.value ==> !Occurs(s, what, k)
    ensures at.None? ==> forall k: nat :: from <= k ==> !Occurs(s, what, k)
    decreases |s| + 1 - from
  {
    if from + |what| > |s| then None
    else if Occurs(s, what, from) then Some(from)
    else IndexOf(s, what, from + 1)
  }

  lemma SpanIsInside(source: string, at: nat)
    requires at < |source| && Span(source, at).Some?
    ensures at < Span(source, at).value < |source|
  {
    SpanIsMatch(source, at);
  }

  /** The text of an object's own properties, and of its children's array when it has one. */
  function Halves(body: string): (halves: (string, Option<string>))
    ensures halves.1.Some? ==> |halves.1.value| <= |body|
  {
    var at := IndexOf(body, CHILDREN, 0);
    if at.None? then (body, None)
    else
      var bracket := IndexOf(body, "[", at.value);
      var own := body[..at.value];
      if bracket.None? || Span(body, bracket.value).None? then (own, None)
      else
        SpanIsInside(body, bracket.value);
        (own, Some(body[bracket.value + 1..Span(body, bracket.value).value]))
  }

  function ReadElement(element: string): Entry
    requires element != ""
    decreases |element|, 0
  {
    if "..." <= element then Spread(Trim(element[3..]))
    else if element[0] != '{' then Odd(element)
    else if Span(element, 0).None? then Unclosed(element)
    else
      SpanIsInside(element, 0);
      var halves := Halves(element[1..Span(element, 0).value]);
      if halves.1.None? then Leaf(halves.0) else Branch(halves.0, ReadAll(halves.1.value))
  }

  function ReadEach(elements: seq<string>, bound: nat): seq<Entry>
    requires forall k :: 0 <= k < |elements| ==> elements[k] != "" && |elements[k]| <= bound
    decreases bound, 1, |elements|
  {
    if elements == [] then [] else [ReadElement(elements[0])] + ReadEach(elements[1..], bound)
  }

  /** An array's text, as the entries it holds. */
  function ReadAll(inner: string): seq<Entry>
    decreases |inner|, 2
  {
    ElementsFit(inner);
    ReadEach(TopLevel(inner), |inner|)
  }

  lemma {:induction false} PartsFit(inner: string, i: nat, start: nat, depth: int)
    requires start <= i <= |inner|
    ensures forall k :: 0 <= k < |PartsFrom(inner, i, start, depth)| ==>
              |PartsFrom(inner, i, start, depth)[k]| <= |inner|
    decreases |inner| - i
  {
    if i < |inner| {
      PartsFit(inner, i + 1, if inner[i] == ',' && depth == 0 then i + 1 else start,
               if inner[i] == ',' && depth == 0 then 0 else depth + Weight(Every, inner[i]));
    }
  }

  lemma {:induction false} TrimFits(s: string)
    ensures |Threading.TrimEnd(s)| <= |s| && |Threading.TrimStart(s)| <= |s|
  {
    if s != "" {
      TrimFits(s[1..]);
      TrimFits(s[..|s| - 1]);
    }
  }

  lemma {:induction false} ToldFit(parts: seq<string>, bound: nat)
    requires forall k :: 0 <= k < |parts| ==> |parts[k]| <= bound
    ensures forall k :: 0 <= k < |Told(parts)| ==> Told(parts)[k] != "" && |Told(parts)[k]| <= bound
  {
    if parts != [] {
      ToldFit(parts[1..], bound);
      TrimFits(parts[0]);
      TrimFits(Threading.TrimStart(parts[0]));
    }
  }

  lemma ElementsFit(inner: string)
    ensures forall k :: 0 <= k < |TopLevel(inner)| ==> TopLevel(inner)[k] != "" && |TopLevel(inner)[k]| <= |inner|
  {
    PartsFit(inner, 0, 0, 0);
    ToldFit(PartsFrom(inner, 0, 0, 0), |inner|);
  }

  // ------------------------------------------------------------------ printing it

  /** Nothing closed that was not opened, and nothing left open. */
  ghost predicate Balanced(kind: Kind, s: string) {
    Sum(kind, s) == 0 && forall k :: 0 <= k <= |s| ==> Sum(kind, s[..k]) >= 0
  }

  ghost predicate AllBalanced(s: string) {
    Balanced(Square, s) && Balanced(Curly, s) && Balanced(Every, s)
  }

  lemma {:induction false} SumConcat(kind: Kind, a: string, b: string)
    ensures Sum(kind, a + b) == Sum(kind, a) + Sum(kind, b)
  {
    if b == "" {
      assert a + b == a;
    } else {
      assert (a + b)[..|a + b| - 1] == a + b[..|b| - 1];
      SumConcat(kind, a, b[..|b| - 1]);
    }
  }

  lemma BalancedConcat(kind: Kind, a: string, b: string)
    requires Balanced(kind, a) && Balanced(kind, b)
    ensures Balanced(kind, a + b)
  {
    SumConcat(kind, a, b);
    forall k | 0 <= k <= |a + b|
      ensures Sum(kind, (a + b)[..k]) >= 0
    {
      if k <= |a| {
        assert (a + b)[..k] == a[..k];
      } else {
        assert (a + b)[..k] == a + b[..k - |a|];
        SumConcat(kind, a, b[..k - |a|]);
      }
    }
  }

  lemma SumOne(kind: Kind, c: char)
    ensures Sum(kind, [c]) == Weight(kind, c)
  {
    assert [c][..0] == "";
  }

  /** Deeper by one all the way through. */
  lemma Wrapped(kind: Kind, open: char, mid: string, close: char, k: nat)
    requires Balanced(kind, mid) && Weight(kind, open) == 1 && Weight(kind, close) == -1 && 0 < k <= |mid| + 1
    ensures Sum(kind, ([open] + mid + [close])[..k]) > 0
    ensures Sum(kind, [open] + mid + [close]) == 0
  {
    SumOne(kind, open);
    SumOne(kind, close);
    SumConcat(kind, [open], mid);
    SumConcat(kind, [open] + mid, [close]);
    SumConcat(kind, [open], mid[..k - 1]);
    assert ([open] + mid + [close])[..k] == [open] + mid[..k - 1];
  }

  /** A bracketed text is matched whole, wherever it stands. */
  lemma SpanOfWrapped(kind: Kind, pre: string, open: char, mid: string, close: char, post: string)
    requires Opens(open) == Some(kind) && Balanced(kind, mid) && Weight(kind, close) == -1
    ensures Span(pre + ([open] + mid + [close]) + post, |pre|) == Some(|pre| + 1 + |mid|)
  {
    var list := [open] + mid + [close];
    var source := pre + list + post;
    var at, end := |pre|, |pre| + 1 + |mid|;
    assert source[at] == open;
    forall k | at < k <= end + 1
      ensures source[at..k] == list[..k - at]
    {
    }
    forall k | at < k <= end
      ensures Sum(kind, source[at..k]) > 0
    {
      Wrapped(kind, open, mid, close, k - at);
    }
    Wrapped(kind, open, mid, close, 1);
    assert list[..|list|] == list;
    assert ClosesAt(kind, source, at, end);
    SpanIsMatch(source, at);
    MatchIsOne(kind, source, at, Span(source, at).value, end);
  }

  lemma WrappedIsBalanced(kind: Kind, open: char, mid: string, close: char)
    requires Balanced(kind, mid)
    requires (Weight(kind, open) == 1 && Weight(kind, close) == -1)
          || (Weight(kind, open) == 0 && Weight(kind, close) == 0)
    ensures Balanced(kind, [open] + mid + [close])
  {
    var list := [open] + mid + [close];
    SumOne(kind, open);
    SumOne(kind, close);
    SumConcat(kind, [open], mid);
    SumConcat(kind, [open] + mid, [close]);
    forall k | 0 <= k <= |list|
      ensures Sum(kind, list[..k]) >= 0
    {
      if 0 < k < |list| {
        assert list[..k] == [open] + mid[..k - 1];
        SumConcat(kind, [open], mid[..k - 1]);
      } else if k == |list| {
        assert list[..k] == list;
      }
    }
  }

  /** A text no bracket or comma of which is at the outermost level of an object. */
  lemma WrappedIsWhole(mid: string)
    requires Balanced(Every, mid)
    ensures Whole("{" + mid + "}")
  {
    var s := ['{'] + mid + ['}'];
    assert "{" + mid + "}" == s;
    Wrapped(Every, '{', mid, '}', 1);
    forall k | 0 <= k < |s| && s[k] == ','
      ensures Sum(Every, s[..k]) != 0
    {
      Wrapped(Every, '{', mid, '}', k);
    }
  }

  function Print(entry: Entry): string
    decreases entry
  {
    match entry
    case Leaf(own) => "{" + own + "}"
    case Branch(own, children) => "{" + (own + CHILDREN + "[" + Joined(PrintEach(children)) + "]") + "}"
    case Spread(name) => "..." + name
    case Odd(text) => text
    case Unclosed(text) => text
  }

  function PrintEach(entries: seq<Entry>): seq<string>
    decreases entries
  {
    if entries == [] then [] else [Print(entries[0])] + PrintEach(entries[1..])
  }

  function PrintAll(entries: seq<Entry>): string {
    Joined(PrintEach(entries))
  }

  /** An object's own properties: balanced, and not themselves naming its children. */
  ghost predicate PlainOwn(own: string) {
    AllBalanced(own) && forall k: nat :: !Occurs(own, CHILDREN, k)
  }

  ghost predicate PlainName(name: string) {
    && (name != "" ==> !Threading.IsSpace(name[0]) && !Threading.IsSpace(name[|name| - 1]))
    && forall c :: c in name ==> c != ',' && Weight(Every, c) == 0
  }

  ghost predicate Printable(entry: Entry)
    decreases entry
  {
    match entry
    case Leaf(own) => PlainOwn(own)
    case Branch(own, children) => PlainOwn(own) && AllPrintable(children)
    case Spread(name) => PlainName(name)
    case _ => false
  }

  ghost predicate AllPrintable(entries: seq<Entry>)
    decreases entries
  {
    entries != [] ==> Printable(entries[0]) && AllPrintable(entries[1..])
  }

  lemma {:induction false} PlainNameHasNoBrackets(kind: Kind, name: string)
    requires forall c :: c in name ==> c != ',' && Weight(Every, c) == 0
    ensures Balanced(kind, name) && Sum(kind, name) == 0
  {
    if name != "" {
      var init := name[..|name| - 1];
      assert name[|name| - 1] in name && forall c :: c in init ==> c in name;
      PlainNameHasNoBrackets(kind, init);
      forall k | 0 <= k <= |name|
        ensures Sum(kind, name[..k]) >= 0
      {
        if k < |name| {
          assert init[..k] == name[..k];
        } else {
          assert name[..k] == name;
        }
      }
    }
  }

  /** What is printed is whole and balanced, with no space at either end. */
  ghost predicate Neat(s: string) {
    Whole(s) && AllBalanced(s) && s != "" && !Threading.IsSpace(s[0]) && !Threading.IsSpace(s[|s| - 1])
  }

  lemma {:induction false} JoinedIsBalanced(kind: Kind, parts: seq<string>)
    requires forall k :: 0 <= k < |parts| ==> Balanced(kind, parts[k])
    ensures Balanced(kind, Joined(parts))
  {
    if |parts| > 1 {
      JoinedIsBalanced(kind, parts[1..]);
      CommaIsBalanced(kind);
      BalancedConcat(kind, parts[0], ",");
      BalancedConcat(kind, parts[0] + ",", Joined(parts[1..]));
    } else if parts == [] {
      assert Sum(kind, "") == 0;
    }
  }

  lemma CommaIsBalanced(kind: Kind)
    ensures Balanced(kind, ",")
  {
    SumOne(kind, ',');
    assert ","[..0] == "" && ","[..1] == ",";
  }

  lemma ChildrenIsBalanced(kind: Kind)
    ensures Balanced(kind, CHILDREN)
  {
    PlainNameHasNoBrackets(kind, CHILDREN);
  }

  lemma SpreadIsNeat(name: string)
    requires PlainName(name)
    ensures Neat("..." + name)
  {
    var s := "..." + name;
    assert forall c :: c in s ==> c == '.' || c in name;
    PlainNameHasNoBrackets(Square, s);
    PlainNameHasNoBrackets(Curly, s);
    PlainNameHasNoBrackets(Every, s);
    forall k | 0 <= k < |s|
      ensures s[k] != ','
    {
      assert s[k] in s;
    }
  }

  lemma BracedIsNeat(mid: string)
    requires AllBalanced(mid)
    ensures Neat("{" + mid + "}")
  {
    WrappedIsWhole(mid);
    assert "{" + mid + "}" == ['{'] + mid + ['}'];
    WrappedIsBalanced(Square, '{', mid, '}');
    WrappedIsBalanced(Curly, '{', mid, '}');
    WrappedIsBalanced(Every, '{', mid, '}');
  }

  lemma BracketedIsBalanced(mid: string)
    requires AllBalanced(mid)
    ensures AllBalanced("[" + mid + "]")
  {
    assert "[" + mid + "]" == ['['] + mid + [']'];
    WrappedIsBalanced(Square, '[', mid, ']');
    WrappedIsBalanced(Curly, '[', mid, ']');
    WrappedIsBalanced(Every, '[', mid, ']');
  }

  lemma BodyIsBalanced(own: string, list: string)
    requires AllBalanced(own) && AllBalanced(list)
    ensures AllBalanced(own + CHILDREN + "[" + list + "]")
  {
    BracketedIsBalanced(list);
    assert own + CHILDREN + "[" + list + "]" == (own + CHILDREN) + ("[" + list + "]");
    ThreeBalanced(Square, own, list);
    ThreeBalanced(Curly, own, list);
    ThreeBalanced(Every, own, list);
  }

  lemma ThreeBalanced(kind: Kind, own: string, list: string)
    requires Balanced(kind, own) && Balanced(kind, "[" + list + "]")
    ensures Balanced(kind, (own + CHILDREN) + ("[" + list + "]"))
  {
    ChildrenIsBalanced(kind);
    BalancedConcat(kind, own, CHILDREN);
    BalancedConcat(kind, own + CHILDREN, "[" + list + "]");
  }

  lemma {:induction false} PrintIsNeat(entry: Entry)
    requires Printable(entry)
    ensures Neat(Print(entry))
    decreases entry
  {
    hide Neat, AllBalanced;
    match entry
    case Leaf(own) => BracedIsNeat(own);
    case Branch(own, children) =>
      PrintsAreNeat(children);
      ListIsBalanced(PrintEach(children));
      BodyIsBalanced(own, Joined(PrintEach(children)));
      BracedIsNeat(own + CHILDREN + "[" + Joined(PrintEach(children)) + "]");
    case Spread(name) => SpreadIsNeat(name);
  }

  lemma {:induction false} PrintsAreNeat(entries: seq<Entry>)
    requires AllPrintable(entries)
    ensures forall k :: 0 <= k < |PrintEach(entries)| ==> Neat(PrintEach(entries)[k])
    ensures |PrintEach(entries)| == |entries|
    decreases entries
  {
    if entries != [] {
      hide Neat;
      PrintIsNeat(entries[0]);
      PrintsAreNeat(entries[1..]);
    }
  }

  lemma ListIsBalanced(parts: seq<string>)
    requires forall k :: 0 <= k < |parts| ==> Neat(parts[k])
    ensures AllBalanced(Joined(parts))
  {
    JoinedIsBalanced(Square, parts);
    JoinedIsBalanced(Curly, parts);
    JoinedIsBalanced(Every, parts);
  }

  lemma {:induction false} NeatListTold(parts: seq<string>)
    requires forall k :: 0 <= k < |parts| ==> Neat(parts[k])
    ensures Told(parts) == parts
  {
    if parts != [] {
      NeatListTold(parts[1..]);
      assert Neat(parts[0]);
      assert Trim(parts[0]) == parts[0];
    }
  }

  /** A list of neat texts is split back into them. */
  lemma NeatListSplits(parts: seq<string>)
    requires forall k :: 0 <= k < |parts| ==> Neat(parts[k])
    ensures TopLevel(Joined(parts)) == parts
  {
    if parts == [] {
      assert PartsFrom("", 0, 0, 0) == [""] && Trim("") == "";
      assert [""][1..] == [];
    } else {
      forall k | 0 <= k < |parts|
        ensures Whole(parts[k])
      {
        assert Neat(parts[k]);
      }
      SplitUndoesJoin(parts);
      NeatListTold(parts);
    }
  }

  lemma FirstBracket(own: string, list: string)
    ensures IndexOf(own + CHILDREN + "[" + list + "]", "[", |own|) == Some(|own| + |CHILDREN|)
  {
    var body := own + CHILDREN + "[" + list + "]";
    var bracket := |own| + |CHILDREN|;
    forall k: nat | |own| <= k < bracket
      ensures !Occurs(body, "[", k)
    {
      assert body[k] == CHILDREN[k - |own|] && CHILDREN[k - |own|] != '[';
      OccursNot(body, "[", k, 0);
    }
    assert body[bracket..bracket + 1] == "[";
    assert Occurs(body, "[", bracket);
  }

  lemma BodySlices(own: string, list: string)
    ensures var body := own + CHILDREN + "[" + list + "]"; var bracket := |own| + |CHILDREN|;
      && body[..|own|] == own && body[bracket + 1..bracket + 1 + |list|] == list
      && (own + CHILDREN) + (['['] + list + [']']) + "" == body && own + CHILDREN + ("[" + list + "]") == body
  {
  }

  /** The children's array of a printed object is where the reader looks for it. */
  lemma HalvesOfBody(own: string, list: string)
    requires PlainOwn(own) && Balanced(Square, list)
    ensures Halves(own + CHILDREN + "[" + list + "]") == (own, Some(list))
  {
    hide Balanced, AllBalanced, Span, IndexOf, Occurs;
    FirstChildren(own, "[" + list + "]");
    FirstBracket(own, list);
    BodySlices(own, list);
    SpanOfWrapped(Square, own + CHILDREN, '[', list, ']', "");
  }

  /** The word before the children is not found any earlier. */
  lemma FirstChildren(own: string, rest: string)
    requires forall k: nat :: !Occurs(own, CHILDREN, k)
    ensures IndexOf(own + CHILDREN + rest, CHILDREN, 0) == Some(|own|)
  {
    var body := own + CHILDREN + rest;
    assert body[|own|..|own| + 9] == CHILDREN;
    assert Occurs(body, CHILDREN, |own|);
    forall k: nat | k < |own|
      ensures !Occurs(body, CHILDREN, k)
    {
      if k + 9 <= |own| {
        assert own[k..k + 9] == body[k..k + 9];
        assert !Occurs(own, CHILDREN, k);
      } else {
        assert body[|own|] == 'c' && CHILDREN[|own| - k] != 'c';
        OccursNot(body, CHILDREN, k, |own| - k);
      }
    }
  }

  lemma OccursThere(s: string, what: string, at: nat, j: nat)
    requires Occurs(s, what, at) && j < |what|
    ensures at + j < |s| && s[at + j] == what[j]
  {
    assert s[at..at + |what|][j] == s[at + j];
  }

  lemma OccursNot(s: string, what: string, at: nat, j: nat)
    requires j < |what| && at + j < |s| && s[at + j] != what[j]
    ensures !Occurs(s, what, at)
  {
    if Occurs(s, what, at) {
      OccursThere(s, what, at, j);
    }
  }

  lemma LeafReads(own: string)
    requires PlainOwn(own)
    ensures ReadElement("{" + own + "}") == Leaf(own)
  {
    var element := "{" + own + "}";
    SpanOfWrapped(Curly, "", '{', own, '}', "");
    assert "" + (['{'] + own + ['}']) + "" == element;
    assert element[1..1 + |own|] == own;
    assert IndexOf(own, CHILDREN, 0).None?;
  }

  lemma BranchReads(own: string, list: string)
    requires PlainOwn(own) && AllBalanced(list)
    ensures ReadElement("{" + (own + CHILDREN + "[" + list + "]") + "}") == Branch(own, ReadAll(list))
  {
    var body := own + CHILDREN + "[" + list + "]";
    var element := "{" + body + "}";
    BodyIsBalanced(own, list);
    SpanOfWrapped(Curly, "", '{', body, '}', "");
    assert "" + (['{'] + body + ['}']) + "" == element;
    assert element[1..1 + |body|] == body;
    HalvesOfBody(own, list);
  }

  lemma SpreadReads(name: string)
    requires PlainName(name)
    ensures ReadElement("..." + name) == Spread(name)
  {
    assert ("..." + name)[3..] == name;
    assert ("..." + name)[..3] == "...";
    assert Trim(name) == name;
  }

  /** Reading what was printed gives back the tree, to any depth. */
  lemma {:induction false} ReadUndoesPrint(entry: Entry)
    requires Printable(entry)
    ensures Print(entry) != "" && ReadElement(Print(entry)) == entry
    decreases entry
  {
    hide ReadElement, ReadAll, Neat, AllBalanced, PlainName;
    PrintIsNeat(entry);
    NeatIsSome(Print(entry));
    match entry
    case Leaf(own) => LeafReads(own);
    case Branch(own, children) =>
      PrintsAreNeat(children);
      ListIsBalanced(PrintEach(children));
      BranchReads(own, Joined(PrintEach(children)));
      TreeReadsBack(children);
    case Spread(name) => SpreadReads(name);
  }

  lemma NeatIsSome(s: string)
    requires Neat(s)
    ensures s != ""
  {
  }

  /** Reading an array's printed text gives back its entries, in order. */
  lemma {:induction false} TreeReadsBack(entries: seq<Entry>)
    requires AllPrintable(entries)
    ensures ReadAll(PrintAll(entries)) == entries
    decreases entries
  {
    hide ReadElement, Neat, TopLevel, Joined;
    PrintsAreNeat(entries);
    NeatListSplits(PrintEach(entries));
    ElementsFit(PrintAll(entries));
    EachReadsBack(entries, |PrintAll(entries)|);
  }

  lemma {:induction false} EachReadsBack(entries: seq<Entry>, bound: nat)
    requires AllPrintable(entries)
    requires forall k :: 0 <= k < |PrintEach(entries)| ==>
               PrintEach(entries)[k] != "" && |PrintEach(entries)[k]| <= bound
    ensures ReadEach(PrintEach(entries), bound) == entries
    decreases entries, 0
  {
    if entries != [] {
      hide ReadElement, Neat;
      ReadUndoesPrint(entries[0]);
      assert PrintEach(entries)[1..] == PrintEach(entries[1..]);
      EachReadsBack(entries[1..], bound);
    }
  }

  // ------------------------------------------------------------------ walking it

  /** What an object's own properties say, the patterns that read them left open. */
  datatype Own = Own(path: Option<string>, component: Option<string>, lazy: bool, notes: seq<string>)

  datatype Route = Route(path: string, component: string, lazy: bool, guards: seq<string>)

  datatype Warning =
    | MissingConst(name: string)
    | OddEntry(text: string)
    | UnclosedEntry(text: string)
    | UnknownObject
    | Note(text: string)

  datatype Found = Found(routes: seq<Route>, warnings: seq<Warning>)

  /** How the text is taken: what an object says, which wrappers go unnamed, the arrays there are to spread. */
  datatype Reader = Reader(classify: string -> Own, passThrough: set<string>, consts: map<string, string>)

  const NOTHING := Found([], [])

  function Both(a: Found, b: Found): Found {
    Found(a.routes + b.routes, a.warnings + b.warnings)
  }

  function Notes(notes: seq<string>): seq<Warning> {
    if notes == [] then [] else [Note(notes[0])] + Notes(notes[1..])
  }

  /** Names spread anywhere in the entries. */
  ghost function SpreadIn(entry: Entry): set<string>
    decreases entry
  {
    match entry
    case Branch(_, children) => SpreadInAll(children)
    case Spread(name) => {name}
    case _ => {}
  }

  ghost function SpreadInAll(entries: seq<Entry>): set<string>
    decreases entries
  {
    if entries == [] then {} else SpreadIn(entries[0]) + SpreadInAll(entries[1..])
  }

  /** Every array spread among `names` has a rank under `top`. */
  ghost predicate Under(reader: Reader, rank: map<string, nat>, names: set<string>, top: nat) {
    forall n :: n in names && n in reader.consts ==> n in rank && rank[n] < top
  }

  /** No array spreads itself in, through others or not: ranks fall along every spreading. */
  ghost predicate NoLoop(reader: Reader, rank: map<string, nat>) {
    forall n :: n in rank ==>
      n in reader.consts && Under(reader, rank, SpreadInAll(ReadAll(reader.consts[n])), rank[n])
  }

  // ------------------------------------------------------------------ arrays that never end

  /** Each name is an array's, and each but the first is spread in the one before it. */
  ghost predicate Chain(reader: Reader, names: seq<string>) {
    && (forall k :: 0 <= k < |names| ==> names[k] in reader.consts)
    && (forall k :: 0 < k < |names| ==> names[k] in SpreadInAll(ReadAll(reader.consts[names[k - 1]])))
  }

  /** Reading the array `a` comes to reading the array `b`, through others or not. */
  ghost predicate Spreads(reader: Reader, a: string, b: string) {
    exists names :: |names| > 1 && Chain(reader, names) && names[0] == a && names[|names| - 1] == b
  }

  /** Reading entries that spread `names` comes to reading the array `n`. */
  ghost predicate Comes(reader: Reader, names: set<string>, n: string) {
    n in reader.consts && (n in names || exists a :: a in names && Spreads(reader, a, n))
  }

  lemma SpreadsOne(reader: Reader, a: string, b: string)
    requires a in reader.consts && b in reader.consts && b in SpreadInAll(ReadAll(reader.consts[a]))
    ensures Spreads(reader, a, b)
  {
    hide SpreadInAll, ReadAll;
    assert Chain(reader, [a, b]);
    assert [a, b][0] == a && [a, b][|[a, b]| - 1] == b;
  }

  lemma SpreadsOn(reader: Reader, a: string, b: string, c: string)
    requires Spreads(reader, a, b) && Spreads(reader, b, c)
    ensures Spreads(reader, a, c)
  {
    hide SpreadInAll, ReadAll;
    var x :| |x| > 1 && Chain(reader, x) && x[0] == a && x[|x| - 1] == b;
    var y :| |y| > 1 && Chain(reader, y) && y[0] == b && y[|y| - 1] == c;
    var z := x + y[1..];
    forall k | 0 < k < |z|
      ensures z[k] in SpreadInAll(ReadAll(reader.consts[z[k - 1]]))
    {
      if k >= |x| {
        assert z[k] == y[k - |x| + 1] && z[k - 1] == y[k - |x|];
      }
    }
    assert z[0] == a && z[|z| - 1] == c;
  }

  /** Along a chain the ranks fall. */
  lemma {:induction false} RanksFall(reader: Reader, rank: map<string, nat>, names: seq<string>)
    requires NoLoop(reader, rank) && Chain(reader, names) && names != [] && names[0] in rank
    ensures var last := names[|names| - 1]; last in rank && (|names| > 1 ==> rank[last] < rank[names[0]])
  {
    if |names| > 1 {
      hide SpreadInAll, ReadAll;
      var front := names[..|names| - 1];
      assert Chain(reader, front);
      RanksFall(reader, rank, front);
      assert front[|front| - 1] == names[|names| - 2];
    }
  }

  ghost function SpreadBy(reader: Reader, n: string): set<string> {
    set m | m in reader.consts && Spreads(reader, n, m)
  }

  lemma SmallerSize(a: set<string>, b: set<string>)
    requires a < b
    ensures |a| < |b|
  {
    assert b == a + (b - a) && b - a != {};
  }

  lemma SpreadByLess(reader: Reader, n: string, m: string)
    requires n in reader.consts && m in reader.consts && m in SpreadInAll(ReadAll(reader.consts[n]))
    requires !Spreads(reader, m, m)
    ensures |SpreadBy(reader, m)| < |SpreadBy(reader, n)|
  {
    SpreadsOne(reader, n, m);
    hide Spreads, SpreadInAll, ReadAll;
    forall x | x in SpreadBy(reader, m)
      ensures x in SpreadBy(reader, n)
    {
      SpreadsOn(reader, n, m, x);
    }
    assert m in SpreadBy(reader, n) - SpreadBy(reader, m);
    SmallerSize(SpreadBy(reader, m), SpreadBy(reader, n));
  }

  lemma SpreadBySize(reader: Reader, n: string)
    ensures |SpreadBy(reader, n)| <= |reader.consts.Keys|
  {
    if SpreadBy(reader, n) != reader.consts.Keys {
      SmallerSize(SpreadBy(reader, n), reader.consts.Keys);
    }
  }

  lemma ComesOn(reader: Reader, names: set<string>, n: string, m: string)
    requires Comes(reader, names, n) && m in reader.consts && m in SpreadInAll(ReadAll(reader.consts[n]))
    ensures Comes(reader, names, m)
  {
    hide Spreads, SpreadInAll, ReadAll;
    SpreadsOne(reader, n, m);
    if n !in names {
      var a :| a in names && Spreads(reader, a, n);
      SpreadsOn(reader, a, n, m);
    }
  }

  /** An array's rank by how many it comes to read. */
  ghost function RankBySpread(reader: Reader, names: set<string>): map<string, nat> {
    map n | n in reader.consts && Comes(reader, names, n) :: |SpreadBy(reader, n)|
  }

  lemma RankedBySpread(reader: Reader, names: set<string>)
    requires forall n :: Comes(reader, names, n) ==> !Spreads(reader, n, n)
    ensures NoLoop(reader, RankBySpread(reader, names))
    ensures Under(reader, RankBySpread(reader, names), names, |reader.consts| + 1)
  {
    hide SpreadBy, Spreads, SpreadInAll, ReadAll;
    var rank := RankBySpread(reader, names);
    forall n | n in rank
      ensures Under(reader, rank, SpreadInAll(ReadAll(reader.consts[n])), rank[n])
    {
      forall m | m in SpreadInAll(ReadAll(reader.consts[n])) && m in reader.consts
        ensures m in rank && rank[m] < rank[n]
      {
        ComesOn(reader, names, n, m);
        SpreadByLess(reader, n, m);
      }
    }
    forall n | n in names && n in reader.consts
      ensures n in rank && rank[n] < |reader.consts| + 1
    {
      SpreadBySize(reader, n);
    }
  }

  /** The walk has a rank to go by exactly when no array it comes to spreads itself in, through others or not. */
  lemma RankedIffNoSelfSpread(reader: Reader, names: set<string>)
    ensures (exists rank, top :: NoLoop(reader, rank) && Under(reader, rank, names, top))
       <==> forall n :: Comes(reader, names, n) ==> !Spreads(reader, n, n)
  {
    hide SpreadInAll, ReadAll, RankBySpread;
    if forall n :: Comes(reader, names, n) ==> !Spreads(reader, n, n) {
      RankedBySpread(reader, names);
    }
    if rank, top :| NoLoop(reader, rank) && Under(reader, rank, names, top) {
      forall n | Comes(reader, names, n)
        ensures !Spreads(reader, n, n)
      {
        RankedComes(reader, rank, names, top, n);
        if Spreads(reader, n, n) {
          var loop :| |loop| > 1 && Chain(reader, loop) && loop[0] == n && loop[|loop| - 1] == n;
          RanksFall(reader, rank, loop);
          assert false;
        }
      }
    }
  }

  lemma RankedComes(reader: Reader, rank: map<string, nat>, names: set<string>, top: nat, n: string)
    requires NoLoop(reader, rank) && Under(reader, rank, names, top) && Comes(reader, names, n)
    ensures n in rank
  {
    hide SpreadInAll, ReadAll, NoLoop;
    if n !in names {
      var a :| a in names && Spreads(reader, a, n);
      var chain :| |chain| > 1 && Chain(reader, chain) && chain[0] == a && chain[|chain| - 1] == n;
      RanksFall(reader, rank, chain);
    }
  }

  predicate Given(value: Option<string>) {
    value.Some? && value.value != ""
  }

  /** The wrapper an object without a path of its own puts around its children. */
  function WrapperOf(reader: Reader, own: Own): seq<string> {
    if Given(own.component) && own.component.value !in reader.passThrough then [own.component.value] else []
  }

  predicate IsRoute(own: Own) {
    Given(own.path) && Given(own.component)
  }

  /** What an object itself is reported as, its children apart. */
  function Reported(own: Own, guards: seq<string>): Found {
    Found(if IsRoute(own) then [Route(own.path.value, own.component.value, own.lazy, guards)] else [], Notes(own.notes))
  }

  /** The wrappers a child of the object is behind. */
  function Inside(reader: Reader, own: Own, guards: seq<string>): seq<string> {
    if IsRoute(own) then guards else guards + WrapperOf(reader, own)
  }

  function Unknown(own: Own): seq<Warning> {
    if !Given(own.path) && !Given(own.component) then [UnknownObject] else []
  }

  /** What an entry behind `guards` comes to. */
  ghost function Walk(reader: Reader, rank: map<string, nat>, entry: Entry, guards: seq<string>, top: nat): Found
    requires NoLoop(reader, rank) && Under(reader, rank, SpreadIn(entry), top)
    decreases top, entry
  {
    match entry
    case Leaf(text) =>
      var own := reader.classify(text);
      Both(Reported(own, guards), Found([], Unknown(own)))
    case Branch(text, children) =>
      var own := reader.classify(text);
      Both(Reported(own, guards), WalkAll(reader, rank, children, Inside(reader, own, guards), top))
    case Spread(name) =>
      if name !in reader.consts then Found([], [MissingConst(name)])
      else WalkAll(reader, rank, ReadAll(reader.consts[name]), guards, rank[name])
    case Odd(text) => Found([], [OddEntry(text)])
    case Unclosed(text) => Found([], [UnclosedEntry(text)])
  }

  ghost function WalkAll(reader: Reader, rank: map<string, nat>, entries: seq<Entry>, guards: seq<string>,
                         top: nat): Found
    requires NoLoop(reader, rank) && Under(reader, rank, SpreadInAll(entries), top)
    decreases top, entries
  {
    if entries == [] then NOTHING
    else Both(Walk(reader, rank, entries[0], guards, top), WalkAll(reader, rank, entries[1..], guards, top))
  }

  /** Every route's guards with `outer` put around them. */
  function Behind(outer: seq<string>, routes: seq<Route>): seq<Route> {
    if routes == [] then []
    else [routes[0].(guards := outer + routes[0].guards)] + Behind(outer, routes[1..])
  }

  lemma {:induction false} BehindConcat(outer: seq<string>, a: seq<Route>, b: seq<Route>)
    ensures Behind(outer, a + b) == Behind(outer, a) + Behind(outer, b)
  {
    if a == [] {
      assert a + b == b;
    } else {
      assert (a + b)[1..] == a[1..] + b;
      BehindConcat(outer, a[1..], b);
    }
  }

  lemma ReportedBehind(own: Own, outer: seq<string>, guards: seq<string>)
    ensures Reported(own, outer + guards).routes == Behind(outer, Reported(own, guards).routes)
    ensures Reported(own, outer + guards).warnings == Reported(own, guards).warnings
  {
    if IsRoute(own) {
      var route := Route(own.path.value, own.component.value, own.lazy, guards);
      assert [route][1..] == [];
    }
  }

  /**
    What stands around a whole array stands, in that order, before what each route in it has of
    its own, and changes nothing else of what is reported.
    */
  lemma {:induction false} GuardsAreEnclosing(
    reader: Reader, rank: map<string, nat>, entries: seq<Entry>, outer: seq<string>, guards: seq<string>, top: nat)
    requires NoLoop(reader, rank) && Under(reader, rank, SpreadInAll(entries), top)
    ensures WalkAll(reader, rank, entries, outer + guards, top).routes
         == Behind(outer, WalkAll(reader, rank, entries, guards, top).routes)
    ensures WalkAll(reader, rank, entries, outer + guards, top).warnings
         == WalkAll(reader, rank, entries, guards, top).warnings
    decreases top, entries
  {
    if entries != [] {
      hide NoLoop, Behind, Walk;
      EntryIsBehind(reader, rank, entries[0], outer, guards, top);
      GuardsAreEnclosing(reader, rank, entries[1..], outer, guards, top);
      BehindConcat(outer, Walk(reader, rank, entries[0], guards, top).routes,
                   WalkAll(reader, rank, entries[1..], guards, top).routes);
    } else {
      assert Behind(outer, []) == [];
    }
  }

  lemma {:induction false} EntryIsBehind(
    reader: Reader, rank: map<string, nat>, entry: Entry, outer: seq<string>, guards: seq<string>, top: nat)
    requires NoLoop(reader, rank) && Under(reader, rank, SpreadIn(entry), top)
    ensures Walk(reader, rank, entry, outer + guards, top).routes
         == Behind(outer, Walk(reader, rank, entry, guards, top).routes)
    ensures Walk(reader, rank, entry, outer + guards, top).warnings == Walk(reader, rank, entry, guards, top).warnings
    decreases top, entry
  {
    match entry
    case Leaf(text) =>
      var own := reader.classify(text);
      ReportedBehind(own, outer, guards);
      assert Reported(own, guards).routes + [] == Reported(own, guards).routes;
      assert Reported(own, outer + guards).routes + [] == Reported(own, outer + guards).routes;
    case Branch(text, children) =>
      hide Reported, Behind;
      var own := reader.classify(text);
      var inside := Inside(reader, own, guards);
      ReportedBehind(own, outer, guards);
      assert Inside(reader, own, outer + guards) == outer + inside by {
        assert outer + guards + WrapperOf(reader, own) == outer + (guards + WrapperOf(reader, own));
      }
      GuardsAreEnclosing(reader, rank, children, outer, inside, top);
      BehindConcat(outer, Reported(own, guards).routes, WalkAll(reader, rank, children, inside, top).routes);
    case Spread(name) =>
      if name in reader.consts {
        GuardsAreEnclosing(reader, rank, ReadAll(reader.consts[name]), outer, guards, rank[name]);
      }
    case _ =>
  }

  // ------------------------------------------------------------------ the way to a route

  /** The entries an entry leads to: an object's children, a spread array's entries. */
  function LeadsTo(reader: Reader, entry: Entry): seq<Entry> {
    match entry
    case Branch(_, children) => children
    case Spread(name) => if name in reader.consts then ReadAll(reader.consts[name]) else []
    case _ => []
  }

  /** A way into an array: one of its entries, then one that leads to, and so on. */
  ghost predicate IsWay(reader: Reader, entries: seq<Entry>, way: seq<Entry>)
    decreases |way|
  {
    way != [] && way[0] in entries && (|way| > 1 ==> IsWay(reader, LeadsTo(reader, way[0]), way[1..]))
  }

  /** The wrapper an entry is: an object that is no route itself and names a component that is not passed through. */
  function WrapperAt(reader: Reader, entry: Entry): seq<string> {
    if entry.Branch? && !IsRoute(reader.classify(entry.own)) then WrapperOf(reader, reader.classify(entry.own)) else []
  }

  /** The wrappers met along a way before its end, outermost first. */
  function Enclosing(reader: Reader, way: seq<Entry>): seq<string> {
    if |way| <= 1 then [] else WrapperAt(reader, way[0]) + Enclosing(reader, way[1..])
  }

  /** The way ends at an object that is the route, behind `guards` and the wrappers on the way. */
  ghost predicate EndsAs(reader: Reader, way: seq<Entry>, guards: seq<string>, route: Route) {
    && way != []
    && var last := way[|way| - 1];
       && (last.Leaf? || last.Branch?)
       && var own := reader.classify(last.own);
          IsRoute(own)
          && route == Route(own.path.value, own.component.value, own.lazy, guards + Enclosing(reader, way))
  }

  /** A way of one entry, or a first entry and a way into what it leads to. */
  lemma WayUnfolds(reader: Reader, entry: Entry, rest: seq<Entry>, guards: seq<string>, route: Route)
    requires IsWay(reader, LeadsTo(reader, entry), rest)
    ensures IsWay(reader, [entry], [entry] + rest)
    ensures EndsAs(reader, [entry] + rest, guards, route)
       <==> EndsAs(reader, rest, guards + WrapperAt(reader, entry), route)
  {
    var way := [entry] + rest;
    assert way[1..] == rest && way[|way| - 1] == rest[|rest| - 1];
    assert guards + (WrapperAt(reader, entry) + Enclosing(reader, rest))
        == guards + WrapperAt(reader, entry) + Enclosing(reader, rest);
  }

  lemma WayOfOne(reader: Reader, entry: Entry, guards: seq<string>, route: Route)
    ensures IsWay(reader, [entry], [entry])
    ensures EndsAs(reader, [entry], guards, route)
       <==> (entry.Leaf? || entry.Branch?) && route in Reported(reader.classify(entry.own), guards).routes
  {
    assert guards + [] == guards;
  }

  lemma WayFromOne(reader: Reader, entries: seq<Entry>, entry: Entry, way: seq<Entry>)
    requires IsWay(reader, [entry], way) && entry in entries
    ensures IsWay(reader, entries, way)
  {
  }

  /** What a walk reports is what a way into the array ends at, with that way's wrappers. */
  lemma {:induction false} RouteHasWay(reader: Reader, rank: map<string, nat>, entries: seq<Entry>, guards: seq<string>,
                                       top: nat, route: Route) returns (way: seq<Entry>)
    requires NoLoop(reader, rank) && Under(reader, rank, SpreadInAll(entries), top)
    requires route in WalkAll(reader, rank, entries, guards, top).routes
    ensures IsWay(reader, entries, way) && EndsAs(reader, way, guards, route)
    decreases top, entries
  {
    hide NoLoop, Walk, IsWay, EndsAs;
    assert entries[0] in entries;
    if route in Walk(reader, rank, entries[0], guards, top).routes {
      way := EntryHasWay(reader, rank, entries[0], guards, top, route);
      WayFromOne(reader, entries, entries[0], way);
    } else {
      way := RouteHasWay(reader, rank, entries[1..], guards, top, route);
      WayIntoMore(reader, entries, way);
    }
  }

  lemma WayIntoMore(reader: Reader, entries: seq<Entry>, way: seq<Entry>)
    requires entries != [] && IsWay(reader, entries[1..], way)
    ensures IsWay(reader, entries, way)
  {
  }

  lemma {:induction false} EntryHasWay(reader: Reader, rank: map<string, nat>, entry: Entry, guards: seq<string>,
                                       top: nat, route: Route) returns (way: seq<Entry>)
    requires NoLoop(reader, rank) && Under(reader, rank, SpreadIn(entry), top)
    requires route in Walk(reader, rank, entry, guards, top).routes
    ensures IsWay(reader, [entry], way) && EndsAs(reader, way, guards, route)
    decreases top, entry
  {
    hide IsWay, EndsAs, Reported, ReadAll;
    if (entry.Leaf? || entry.Branch?) && route in Reported(reader.classify(entry.own), guards).routes {
      way := [entry];
      WayOfOne(reader, entry, guards, route);
    } else {
      var rest;
      NoWrapperIsNone(reader, entry, guards);
      if entry.Branch? {
        var inside := Inside(reader, reader.classify(entry.own), guards);
        rest := RouteHasWay(reader, rank, entry.children, inside, top, route);
      } else {
        rest := RouteHasWay(reader, rank, ReadAll(reader.consts[entry.name]), guards, rank[entry.name], route);
      }
      way := [entry] + rest;
      WayUnfolds(reader, entry, rest, guards, route);
    }
  }

  /** What an entry's own wrapper makes of the wrappers around it. */
  lemma NoWrapperIsNone(reader: Reader, entry: Entry, guards: seq<string>)
    ensures guards + WrapperAt(reader, entry)
         == if entry.Branch? then Inside(reader, reader.classify(entry.own), guards) else guards
  {
    assert guards + [] == guards;
  }

  lemma {:induction false} WayIsReported(reader: Reader, rank: map<string, nat>, entries: seq<Entry>,
                                         guards: seq<string>, top: nat, way: seq<Entry>, route: Route)
    requires NoLoop(reader, rank) && Under(reader, rank, SpreadInAll(entries), top)
    requires IsWay(reader, entries, way) && EndsAs(reader, way, guards, route)
    ensures route in WalkAll(reader, rank, entries, guards, top).routes
    decreases top, entries
  {
    hide NoLoop, Walk, EndsAs;
    if way[0] == entries[0] {
      EntryIsReported(reader, rank, entries[0], guards, top, way, route);
    } else {
      assert entries == [entries[0]] + entries[1..];
      WayIsReported(reader, rank, entries[1..], guards, top, way, route);
    }
  }

  lemma {:induction false} EntryIsReported(reader: Reader, rank: map<string, nat>, entry: Entry, guards: seq<string>,
                                           top: nat, way: seq<Entry>, route: Route)
    requires NoLoop(reader, rank) && Under(reader, rank, SpreadIn(entry), top)
    requires way != [] && way[0] == entry && (|way| > 1 ==> IsWay(reader, LeadsTo(reader, entry), way[1..]))
    requires EndsAs(reader, way, guards, route)
    ensures route in Walk(reader, rank, entry, guards, top).routes
    decreases top, entry
  {
    hide IsWay, EndsAs, Reported, ReadAll;
    if |way| == 1 {
      assert way == [entry];
      WayOfOne(reader, entry, guards, route);
    } else {
      var rest := way[1..];
      assert way == [entry] + rest;
      WayUnfolds(reader, entry, rest, guards, route);
      NoWrapperIsNone(reader, entry, guards);
      match entry
      case Branch(text, children) =>
        WayIsReported(reader, rank, children, Inside(reader, reader.classify(text), guards), top, rest, route);
      case Spread(name) =>
        NoWayIntoNothing(reader, rest);
        if name in reader.consts {
          WayIsReported(reader, rank, ReadAll(reader.consts[name]), guards, rank[name], rest, route);
        }
      case _ => NoWayIntoNothing(reader, rest);
    }
  }

  lemma NoWayIntoNothing(reader: Reader, way: seq<Entry>)
    ensures !IsWay(reader, [], way)
  {
  }

  /**
    The routes a walk reports are those some way into the array ends at, through children and
    spread arrays, and a route's guards are the wrappers standing on its way, outermost first.
    */
  lemma RoutesAreWhereWaysEnd(reader: Reader, rank: map<string, nat>, entries: seq<Entry>, top: nat, route: Route)
    requires NoLoop(reader, rank) && Under(reader, rank, SpreadInAll(entries), top)
    ensures route in WalkAll(reader, rank, entries, [], top).routes
       <==> exists way :: IsWay(reader, entries, way) && EndsAs(reader, way, [], route)
  {
    hide IsWay, EndsAs, NoLoop, WalkAll;
    if route in WalkAll(reader, rank, entries, [], top).routes {
      var way := RouteHasWay(reader, rank, entries, [], top, route);
    }
    if way :| IsWay(reader, entries, way) && EndsAs(reader, way, [], route) {
      WayIsReported(reader, rank, entries, [], top, way, route);
    }
  }

  // ------------------------------------------------------------------ as the program runs it

  class RouteReader {
    const reader: Reader
    var stack: seq<string>
    var routes: seq<Route>
    var warnings: seq<Warning>

    constructor (reader: Reader)
      ensures this.reader == reader && stack == [] && routes == [] && warnings == []
    {
      this.reader := reader;
      stack, routes, warnings := [], [], [];
    }

    /** What has been reported so far. */
    ghost function Report(): Found
      reads this
    {
      Found(routes, warnings)
    }

    method Warn(warning: Warning)
      modifies `warnings
      ensures Report() == Both(old(Report()), Found([], [warning]))
    {
      warnings := warnings + [warning];
      assert routes + [] == routes;
    }

    method NoteAll(notes: seq<string>)
      modifies `warnings
      ensures warnings == old(warnings) + Notes(notes)
    {
      assert notes[0..] == notes;
      for i := 0 to |notes|
        invariant warnings + Notes(notes[i..]) == old(warnings) + Notes(notes)
      {
        assert notes[i..][0] == notes[i] && notes[i..][1..] == notes[i + 1..];
        warnings := warnings + [Note(notes[i])];
      }
    }

    /** An array's entries, behind the wrappers on the stack, which is left as it was. */
    method ParseArray(inner: string, ghost rank: map<string, nat>, ghost top: nat)
      requires NoLoop(reader, rank) && Under(reader, rank, SpreadInAll(ReadAll(inner)), top)
      modifies this
      ensures stack == old(stack)
      ensures Report() == Both(old(Report()), WalkAll(reader, rank, ReadAll(inner), old(stack), top))
      decreases top, |inner|, 1
    {
      ElementsFit(inner);
      hide NoLoop, Under, ReadElement, Walk, TopLevel, Both;
      ghost var was := Report();
      ghost var guards := stack;
      var elements := SplitTopLevel(inner);
      assert elements[0..] == elements;
      for k := 0 to |elements|
        invariant stack == guards
        invariant Under(reader, rank, SpreadInAll(ReadEach(elements[k..], |inner|)), top)
        invariant Both(Report(), WalkAll(reader, rank, ReadEach(elements[k..], |inner|), guards, top))
               == Both(was, WalkAll(reader, rank, ReadAll(inner), guards, top))
      {
        assert elements[k..][0] == elements[k] && elements[k..][1..] == elements[k + 1..];
        UnderParts(reader, rank, ReadEach(elements[k..], |inner|), top);
        ghost var before := Report();
        ParseElement(elements[k], rank, top);
        BothAgain(before, Walk(reader, rank, ReadElement(elements[k]), guards, top),
                  WalkAll(reader, rank, ReadEach(elements[k + 1..], |inner|), guards, top));
      }
      BothNothing(Report());
    }

    method ParseElement(element: string, ghost rank: map<string, nat>, ghost top: nat)
      requires element != ""
      requires NoLoop(reader, rank) && Under(reader, rank, SpreadIn(ReadElement(element)), top)
      modifies this
      ensures stack == old(stack)
      ensures Report() == Both(old(Report()), Walk(reader, rank, ReadElement(element), old(stack), top))
      decreases top, |element|, 0
    {
      if "..." <= element {
        var name := Trim(element[3..]);
        if name !in reader.consts {
          Warn(MissingConst(name));
        } else {
          ParseArray(reader.consts[name], rank, rank[name]);
        }
        return;
      }
      if element[0] != '{' {
        Warn(OddEntry(element));
        return;
      }
      var span := BracketSpan(element, 0);
      if span.None? {
        Warn(UnclosedEntry(element));
        return;
      }
      SpanIsInside(element, 0);
      var halves := Halves(element[1..span.value]);
      ParseObject(halves.0, halves.1, |element|, rank, top);
    }

    /** One route object: itself, then its children behind it. */
    method ParseObject(text: string, childrenInner: Option<string>, ghost bound: nat, ghost rank: map<string, nat>,
                       ghost top: nat)
      requires childrenInner.Some? ==> |childrenInner.value| < bound
      requires NoLoop(reader, rank) && Under(reader, rank, SpreadIn(AsEntry(text, childrenInner)), top)
      modifies this
      ensures stack == old(stack)
      ensures Report() == Both(old(Report()), Walk(reader, rank, AsEntry(text, childrenInner), old(stack), top))
      decreases top, bound, -1
    {
      hide NoLoop, Under, ReadAll, Notes, WrapperOf, WalkAll, Both, Reported, Unknown;
      var own := reader.classify(text);
      ghost var was := Report();
      ghost var guards := stack;
      Announce(own);
      ghost var mine := Reported(own, guards);
      var wrapper := if IsRoute(own) then [] else WrapperOf(reader, own);
      stack := stack + wrapper;
      assert stack == Inside(reader, own, guards);
      if childrenInner.Some? {
        ParseArray(childrenInner.value, rank, top);
        BothAgain(was, mine, WalkAll(reader, rank, ReadAll(childrenInner.value), Inside(reader, own, guards), top));
      } else {
        NoteUnknown(own);
        BothAgain(was, mine, Found([], Unknown(own)));
      }
      stack := stack[..|stack| - |wrapper|];
      assert stack == guards;
    }

    /** What the object itself says: its notes, and a route when it has a path and a component. */
    method Announce(own: Own)
      modifies `routes, `warnings
      ensures Report() == Both(old(Report()), Reported(own, stack))
    {
      hide Notes;
      NoteAll(own.notes);
      if IsRoute(own) {
        routes := routes + [Route(own.path.value, own.component.value, own.lazy, stack)];
      } else {
        assert routes + [] == routes;
      }
    }

    method NoteUnknown(own: Own)
      modifies `warnings
      ensures Report() == Both(old(Report()), Found([], Unknown(own)))
    {
      assert routes + [] == routes;
      if !Given(own.path) && !Given(own.component) {
        warnings := warnings + [UnknownObject];
      } else {
        assert warnings + [] == warnings;
      }
    }
  }

  function AsEntry(text: string, children: Option<string>): Entry {
    if children.None? then Leaf(text) else Branch(text, ReadAll(children.value))
  }

  lemma UnderParts(reader: Reader, rank: map<string, nat>, entries: seq<Entry>, top: nat)
    requires Under(reader, rank, SpreadInAll(entries), top) && entries != []
    ensures Under(reader, rank, SpreadIn(entries[0]), top) && Under(reader, rank, SpreadInAll(entries[1..]), top)
  {
  }

  lemma BothAgain(a: Found, b: Found, c: Found)
    ensures Both(Both(a, b), c) == Both(a, Both(b, c))
  {
    assert a.routes + b.routes + c.routes == a.routes + (b.routes + c.routes);
    assert a.warnings + b.warnings + c.warnings == a.warnings + (b.warnings + c.warnings);
  }

  lemma BothNothing(a: Found)
    ensures Both(a, NOTHING) == a
  {
    assert a.routes + [] == a.routes && a.warnings + [] == a.warnings;
  }
}
