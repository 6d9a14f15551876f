/**
  Blanking the comments out of a source, held against a tokenising of it: which stretches
  are comments, strings and regular expressions, said without reference to the scan.
  */
module StripComments {
  import opened Options
  import Threading

  datatype Kind = LineComment | BlockComment | Quoted | Regex | Plain

  datatype Token = Token(kind: Kind, from: nat, to: nat)

  predicate Has(source: string, at: int, c: char) {
    0 <= at < |source| && source[at] == c
  }

  predicate IsQuote(c: char) {
    c == '"' || c == '\'' || c == '`'
  }

  predicate RegexMayFollow(c: char) {
    c in "(,=:[!&|?{;+-*%<>~^\n"
  }

  /** The inner whitespace of a line, which does not say what a slash after it is. */
  predicate IsGap(c: char) {
    c == ' ' || c == '\t' || c == '\r'
  }

  // ------------------------------------------------------------------ where tokens end

  /** Inside a string or regex opened at `start`: the character at `k` is not escaped. */
  predicate Active(source: string, start: nat, k: nat)
    requires start < k
    decreases k
  {
    k == start + 1 || !(Active(source, start, k - 1) && Has(source, k - 1, '\\'))
  }

  /** A string stops at its quote, and one that is not a template at a newline too. */
  predicate QuoteStops(source: string, start: nat, k: nat)
    requires start < k && start < |source|
  {
    Active(source, start, k) && (Has(source, k, source[start]) || (source[start] != '`' && Has(source, k, '\n')))
  }

  /** Whether the character at `k` of a regex opened at `start` is inside a class. */
  predicate InClass(source: string, start: nat, k: nat)
    requires start < k
    decreases k
  {
    k > start + 1
    && (if Active(source, start, k - 1) && Has(source, k - 1, '[') then true
        else if Active(source, start, k - 1) && Has(source, k - 1, ']') then false
        else InClass(source, start, k - 1))
  }

  predicate RegexStops(source: string, start: nat, k: nat)
    requires start < k && start < |source|
  {
    Active(source, start, k) && ((Has(source, k, '/') && !InClass(source, start, k)) || Has(source, k, '\n'))
  }

  /** Past `stop`, which belongs to the token unless it is the newline that cut it short. */
  function Past(source: string, stop: nat): nat {
    if stop < |source| && source[stop] != '\n' then stop + 1 else stop
  }

  ghost predicate QuoteEnds(source: string, start: nat, to: nat)
    requires start < |source|
  {
    exists stop: nat :: start < stop <= |source| && to == Past(source, stop) && FirstQuoteStop(source, start, stop)
  }

  ghost predicate FirstQuoteStop(source: string, start: nat, stop: nat)
    requires start < |source| && start < stop
  {
    && (stop < |source| ==> QuoteStops(source, start, stop))
    && (forall k: nat :: start < k < stop ==> !QuoteStops(source, start, k))
  }

  ghost predicate RegexEnds(source: string, start: nat, to: nat)
    requires start < |source|
  {
    exists stop: nat :: start < stop <= |source| && to == Past(source, stop) && FirstRegexStop(source, start, stop)
  }

  ghost predicate FirstRegexStop(source: string, start: nat, stop: nat)
    requires start < |source| && start < stop
  {
    && (stop < |source| ==> RegexStops(source, start, stop))
    && (forall k: nat :: start < k < stop ==> !RegexStops(source, start, k))
  }

  /** A line comment runs up to the newline. */
  ghost predicate LineEnds(source: string, start: nat, to: nat) {
    && start < to <= |source| && (to < |source| ==> source[to] == '\n')
    && (forall k :: start <= k < to ==> source[k] != '\n')
  }

  predicate Closes(source: string, k: int) {
    Has(source, k, '*') && Has(source, k + 1, '/')
  }

  /** A block comment runs past the first closing mark after its opening one, or to the end. */
  ghost predicate BlockEnds(source: string, start: nat, to: nat) {
    && start + 2 <= to <= |source|
    && (forall k :: start + 2 <= k < to - 2 ==> !Closes(source, k))
    && ((to >= start + 4 && Closes(source, to - 2))
        || (to == |source| && forall k :: start + 2 <= k < |source| ==> !Closes(source, k)))
  }

  // ------------------------------------------------------------------ the tokens of a source

  /** What a slash after `tokens` is judged by: their last character, comments and gaps aside. */
  function Before(source: string, tokens: seq<Token>): char {
    if tokens == [] then '\n'
    else
      var last := tokens[|tokens| - 1];
      match last.kind
      case Quoted => if last.from < |source| then source[last.from] else '\n'
      case Regex => '/'
      case Plain =>
        if last.from < |source| && !IsGap(source[last.from]) then source[last.from]
        else Before(source, tokens[..|tokens| - 1])
      case _ => Before(source, tokens[..|tokens| - 1])
  }

  function KindAt(source: string, at: nat, previous: char): Kind
    requires at < |source|
  {
    if source[at] == '/' && Has(source, at + 1, '/') then LineComment
    else if source[at] == '/' && Has(source, at + 1, '*') then BlockComment
    else if IsQuote(source[at]) then Quoted
    else if source[at] == '/' && RegexMayFollow(previous) then Regex
    else Plain
  }

  ghost predicate Ends(source: string, kind: Kind, from: nat, to: nat)
    requires from < |source|
  {
    match kind
    case LineComment => LineEnds(source, from, to)
    case BlockComment => BlockEnds(source, from, to)
    case Quoted => QuoteEnds(source, from, to)
    case Regex => RegexEnds(source, from, to)
    case Plain => to == from + 1
  }

  function EndOf(tokens: seq<Token>): nat {
    if tokens == [] then 0 else tokens[|tokens| - 1].to
  }

  /** A token that begins where those before it end, of the kind its first characters make it. */
  ghost predicate Follows(source: string, tokens: seq<Token>, token: Token) {
    && token.from == EndOf(tokens) && token.from < token.to <= |source|
    && token.kind == KindAt(source, token.from, Before(source, tokens))
    && Ends(source, token.kind, token.from, token.to)
  }

  ghost predicate Tokenises(source: string, tokens: seq<Token>) {
    forall i :: 0 <= i < |tokens| ==> Follows(source, tokens[..i], tokens[i])
  }

  /** The tokens are laid end to end over the whole source. */
  ghost predicate TokensOf(source: string, tokens: seq<Token>) {
    Tokenises(source, tokens) && EndOf(tokens) == |source|
  }

  // ------------------------------------------------------------------ there is one tokenising

  lemma EndIsOne(source: string, kind: Kind, from: nat, a: nat, b: nat)
    requires from < |source| && Ends(source, kind, from, a) && Ends(source, kind, from, b)
    ensures a == b
  {
    match kind
    case Quoted =>
      var j: nat :| from < j <= |source| && a == Past(source, j) && FirstQuoteStop(source, from, j);
      var k: nat :| from < k <= |source| && b == Past(source, k) && FirstQuoteStop(source, from, k);
      assert j == k;
    case Regex =>
      var j: nat :| from < j <= |source| && a == Past(source, j) && FirstRegexStop(source, from, j);
      var k: nat :| from < k <= |source| && b == Past(source, k) && FirstRegexStop(source, from, k);
      assert j == k;
    case _ =>
  }

  lemma NextIsOne(source: string, tokens: seq<Token>, x: Token, y: Token)
    requires Follows(source, tokens, x) && Follows(source, tokens, y)
    ensures x == y
  {
    hide Ends, Before;
    EndIsOne(source, x.kind, x.from, x.to, y.to);
  }

  lemma FollowsAt(source: string, tokens: seq<Token>, i: nat)
    requires Tokenises(source, tokens) && i < |tokens|
    ensures Follows(source, tokens[..i], tokens[i])
  {
  }

  lemma {:induction false} SamePrefix(source: string, a: seq<Token>, b: seq<Token>, n: nat)
    requires Tokenises(source, a) && Tokenises(source, b) && n <= |a| && n <= |b|
    ensures a[..n] == b[..n]
  {
    if n > 0 {
      hide Tokenises, Follows;
      SamePrefix(source, a, b, n - 1);
      FollowsAt(source, a, n - 1);
      FollowsAt(source, b, n - 1);
      NextIsOne(source, a[..n - 1], a[n - 1], b[n - 1]);
      TakeOneMore(a, n);
      TakeOneMore(b, n);
    }
  }

  lemma TakeOneMore(tokens: seq<Token>, n: nat)
    requires 0 < n <= |tokens|
    ensures tokens[..n] == tokens[..n - 1] + [tokens[n - 1]]
  {
  }

  /** A source has one tokenising. */
  lemma TokensAreOne(source: string, a: seq<Token>, b: seq<Token>)
    requires TokensOf(source, a) && TokensOf(source, b)
    ensures a == b
  {
    var n := if |a| <= |b| then |a| else |b|;
    SamePrefix(source, a, b, n);
    if |a| < |b| {
      LongerGoesPast(source, a, b);
    } else if |b| < |a| {
      LongerGoesPast(source, b, a);
    } else {
      assert a[..n] == a && b[..n] == b;
    }
  }

  lemma LongerGoesPast(source: string, a: seq<Token>, b: seq<Token>)
    requires Tokenises(source, b) && |a| < |b| && b[..|a|] == a[..|a|]
    ensures EndOf(a) < |source|
  {
    hide Ends;
    assert Follows(source, b[..|a|], b[|a|]);
    assert a[..|a|] == a;
  }

  // ------------------------------------------------------------------ the scan's loops

  /** Where a string opened at `start` ends; an escape at the end runs one past the source. */
  method SkipQuoted(source: string, start: nat, quote: char) returns (at: nat)
    requires start < |source| && source[start] == quote && IsQuote(quote)
    ensures start < at <= |source| + 1
    ensures QuoteEnds(source, start, if at <= |source| then at else |source|)
  {
    at := start + 1;
    while at < |source|
      invariant start < at <= |source| + 1 && Active(source, start, at)
      invariant forall k: nat :: start < k < at ==> !QuoteStops(source, start, k)
      decreases |source| + 1 - at
    {
      var ch := source[at];
      if ch == '\\' {
        at := at + 2;
      } else if ch == quote {
        assert FirstQuoteStop(source, start, at) && Past(source, at) == at + 1;
        return at + 1;
      } else if quote != '`' && ch == '\n' {
        assert FirstQuoteStop(source, start, at) && Past(source, at) == at;
        return at;
      } else {
        at := at + 1;
      }
    }
    assert FirstQuoteStop(source, start, |source|) && Past(source, |source|) == |source|;
  }

  /** Past the closing slash of the regular expression starting at `start`. */
  method SkipRegex(source: string, start: nat) returns (at: nat)
    requires start < |source| && source[start] == '/'
    ensures start < at <= |source| + 1
    ensures RegexEnds(source, start, if at <= |source| then at else |source|)
  {
    at := start + 1;
    var inClass := false;
    while at < |source|
      invariant start < at <= |source| + 1 && Active(source, start, at)
      invariant inClass == InClass(source, start, at)
      invariant forall k: nat :: start < k < at ==> !RegexStops(source, start, k)
      decreases |source| + 1 - at
    {
      var ch := source[at];
      if ch == '\\' {
        EscapeKeepsClass(source, start, at);
        at := at + 2;
        continue;
      }
      if ch == '[' {
        inClass := true;
      } else if ch == ']' {
        inClass := false;
      } else if ch == '/' && !inClass {
        assert FirstRegexStop(source, start, at) && Past(source, at) == at + 1;
        return at + 1;
      } else if ch == '\n' {
        assert FirstRegexStop(source, start, at) && Past(source, at) == at;
        return at;
      }
      at := at + 1;
    }
    assert FirstRegexStop(source, start, |source|) && Past(source, |source|) == |source|;
  }

  lemma EscapeKeepsClass(source: string, start: nat, at: nat)
    requires start < at < |source| && Active(source, start, at) && source[at] == '\\'
    ensures Active(source, start, at + 2) && !Active(source, start, at + 1)
    ensures InClass(source, start, at + 2) == InClass(source, start, at)
  {
    assert InClass(source, start, at + 1) == InClass(source, start, at);
  }

  /** `indexOf` of a newline, or the end. */
  function NewlineFrom(source: string, at: nat): (end: nat)
    requires at <= |source|
    ensures at <= end <= |source| && (end < |source| ==> source[end] == '\n')
    ensures forall k :: at <= k < end ==> source[k] != '\n'
    decreases |source| - at
  {
    if at == |source| || source[at] == '\n' then at else NewlineFrom(source, at + 1)
  }

  /** `indexOf` of a closing mark. */
  function CloseFrom(source: string, at: nat): (close: Option<nat>)
    ensures close.Some? ==> at <= close.value && Closes(source, close.value)
    ensures close.Some? ==> forall k :: at <= k < close.value ==> !Closes(source, k)
    ensures close.None? ==> forall k :: at <= k < |source| ==> !Closes(source, k)
    decreases |source| - at
  {
    if at >= |source| then None
    else if Closes(source, at) then Some(at)
    else CloseFrom(source, at + 1)
  }

  // ------------------------------------------------------------------ what is left

  /** `k` is inside a comment. */
  ghost predicate Commented(tokens: seq<Token>, k: nat) {
    exists i :: 0 <= i < |tokens| && tokens[i].from <= k < tokens[i].to && IsComment(tokens[i])
  }

  predicate IsComment(token: Token) {
    token.kind.LineComment? || token.kind.BlockComment?
  }

  /** Comments are blanked but for their newlines; every other character is as it was. */
  ghost predicate Blanked(source: string, tokens: seq<Token>, code: string) {
    && |code| == |source|
    && forall k: nat :: k < |source| ==>
         code[k] == if Commented(tokens, k) && source[k] != '\n' then ' ' else source[k]
  }

  /** The same, as far as the scan has come. */
  ghost predicate BlankedTo(source: string, tokens: seq<Token>, code: string, at: nat) {
    && |code| == |source|
    && forall k: nat :: k < |source| ==>
         code[k] == if k < at && Commented(tokens, k) && source[k] != '\n' then ' ' else source[k]
  }

  method Blank(chars: array<char>, from: nat, to: nat)
    requires from <= to
    modifies chars
    ensures forall k :: 0 <= k < chars.Length ==>
              chars[k] == if from <= k < to && old(chars[k]) != '\n' then ' ' else old(chars[k])
  {
    var at := from;
    while at < to && at < chars.Length
      invariant from <= at <= to
      invariant forall k :: 0 <= k < chars.Length ==>
                  chars[k] == if from <= k < at && old(chars[k]) != '\n' then ' ' else old(chars[k])
    {
      if chars[at] != '\n' {
        chars[at] := ' ';
      }
      at := at + 1;
    }
  }

  lemma CommentedSnoc(tokens: seq<Token>, token: Token, k: nat)
    ensures Commented(tokens + [token], k) <==>
            Commented(tokens, k) || (token.from <= k < token.to && IsComment(token))
  {
    var all := tokens + [token];
    if Commented(tokens, k) {
      var i :| 0 <= i < |tokens| && tokens[i].from <= k < tokens[i].to && IsComment(tokens[i]);
      assert all[i] == tokens[i];
    }
    if token.from <= k < token.to && IsComment(token) {
      assert all[|tokens|] == token;
    }
  }

  lemma TokenisesSnoc(source: string, tokens: seq<Token>, token: Token)
    requires Tokenises(source, tokens) && Follows(source, tokens, token)
    ensures Tokenises(source, tokens + [token]) && EndOf(tokens + [token]) == token.to
  {
    hide Follows;
    var all := tokens + [token];
    forall i | 0 <= i < |all|
      ensures Follows(source, all[..i], all[i])
    {
      if i < |tokens| {
        assert all[..i] == tokens[..i];
      } else {
        assert all[..i] == tokens;
      }
    }
  }

  lemma BeforeSnoc(source: string, tokens: seq<Token>, token: Token)
    ensures Before(source, tokens + [token]) == PreviousAfter(source, token, Before(source, tokens))
  {
    assert (tokens + [token])[..|tokens + [token]| - 1] == tokens;
  }

  lemma {:induction false} TokensWithin(source: string, tokens: seq<Token>, i: nat)
    requires Tokenises(source, tokens) && i < |tokens|
    ensures tokens[i].to <= EndOf(tokens)
    decreases |tokens| - i
  {
    if i + 1 < |tokens| {
      assert Follows(source, tokens[..i + 1], tokens[i + 1]);
      hide Follows;
      assert tokens[..i + 1][i] == tokens[i];
      TokensWithin(source, tokens, i + 1);
    }
  }

  lemma NotYetCommented(source: string, tokens: seq<Token>, k: nat)
    requires Tokenises(source, tokens) && EndOf(tokens) <= k
    ensures !Commented(tokens, k)
  {
    if Commented(tokens, k) {
      var i :| 0 <= i < |tokens| && tokens[i].from <= k < tokens[i].to && IsComment(tokens[i]);
      TokensWithin(source, tokens, i);
    }
  }

  /** One token further: blanked if it is a comment, left alone if it is not. */
  lemma TokenDone(source: string, tokens: seq<Token>, token: Token, was: string, code: string)
    requires Tokenises(source, tokens) && Follows(source, tokens, token) && BlankedTo(source, tokens, was, token.from)
    requires |code| == |was|
    requires forall k: nat :: k < |was| ==>
               code[k] == if IsComment(token) && token.from <= k < token.to && was[k] != '\n' then ' ' else was[k]
    ensures BlankedTo(source, tokens + [token], code, token.to)
  {
    hide Tokenises, Ends;
    forall k: nat | k < |source|
      ensures code[k]
           == if k < token.to && Commented(tokens + [token], k) && source[k] != '\n' then ' ' else source[k]
    {
      CommentedSnoc(tokens, token, k);
      if token.from <= k {
        NotYetCommented(source, tokens, k);
      }
    }
  }

  lemma AllDone(source: string, tokens: seq<Token>, code: string)
    requires BlankedTo(source, tokens, code, |source|)
    ensures Blanked(source, tokens, code)
  {
  }

  lemma LineFollows(source: string, tokens: seq<Token>, at: nat)
    requires at < |source| && at == EndOf(tokens) && source[at] == '/' && Has(source, at + 1, '/')
    ensures Follows(source, tokens, Token(LineComment, at, NewlineFrom(source, at)))
  {
    hide Before;
  }

  lemma BlockFollows(source: string, tokens: seq<Token>, at: nat)
    requires at < |source| && at == EndOf(tokens) && source[at] == '/' && Has(source, at + 1, '*')
    ensures var close := CloseFrom(source, at + 2);
      Follows(source, tokens, Token(BlockComment, at, if close.None? then |source| else close.value + 2))
  {
    hide Before;
  }

  lemma OtherFollows(source: string, tokens: seq<Token>, at: nat, kind: Kind, to: nat)
    requires at < |source| && at == EndOf(tokens) && at < to <= |source|
    requires kind == KindAt(source, at, Before(source, tokens)) && Ends(source, kind, at, to)
    ensures Follows(source, tokens, Token(kind, at, to))
  {
  }

  /** What the scan takes the previous character to be, once past a token. */
  function PreviousAfter(source: string, token: Token, previous: char): char {
    match token.kind
    case Quoted => if token.from < |source| then source[token.from] else '\n'
    case Regex => '/'
    case Plain => if token.from < |source| && !IsGap(source[token.from]) then source[token.from] else previous
    case _ => previous
  }

  /** One round of the scan: the token at `at`, blanked when it is a comment. */
  method ScanOne(source: string, chars: array<char>, at: nat, previous: char, ghost tokens: seq<Token>)
    returns (next: nat, now: char, ghost token: Token)
    requires at < |source| == chars.Length && at == EndOf(tokens) && previous == Before(source, tokens)
    modifies chars
    ensures Follows(source, tokens, token) && token.from == at < next
    ensures token.to == if next <= |source| then next else |source|
    ensures now == PreviousAfter(source, token, previous)
    ensures forall k: nat :: k < chars.Length ==>
              chars[k]
              == if IsComment(token) && token.from <= k < token.to && old(chars[k]) != '\n' then ' ' else old(chars[k])
  {
    hide Before, QuoteEnds, RegexEnds, LineEnds, BlockEnds, Follows;
    var ch := source[at];
    now := previous;
    if ch == '/' && at + 1 < |source| && source[at + 1] == '/' {
      next := NewlineFrom(source, at);
      LineFollows(source, tokens, at);
      token := Token(LineComment, at, next);
      Blank(chars, at, next);
    } else if ch == '/' && at + 1 < |source| && source[at + 1] == '*' {
      var close := CloseFrom(source, at + 2);
      next := if close.None? then |source| else close.value + 2;
      BlockFollows(source, tokens, at);
      token := Token(BlockComment, at, next);
      Blank(chars, at, next);
    } else if IsQuote(ch) {
      next := SkipQuoted(source, at, ch);
      token := Token(Quoted, at, if next <= |source| then next else |source|);
      OtherFollows(source, tokens, at, Quoted, token.to);
      now := ch;
    } else if ch == '/' && RegexMayFollow(previous) {
      next := SkipRegex(source, at);
      token := Token(Regex, at, if next <= |source| then next else |source|);
      OtherFollows(source, tokens, at, Regex, token.to);
      now := '/';
    } else {
      next := at + 1;
      token := Token(Plain, at, next);
      OtherFollows(source, tokens, at, Plain, next);
      if ch == '\n' {
        now := '\n';
      } else if !IsGap(ch) {
        now := ch;
      }
    }
  }

  method Strip(source: string) returns (code: string, ghost tokens: seq<Token>)
    ensures TokensOf(source, tokens) && Blanked(source, tokens, code)
  {
    hide Before, Follows, Tokenises, BlankedTo, Blanked, PreviousAfter;
    var chars := new char[|source|](i requires 0 <= i < |source| => source[i]);
    tokens := [];
    var at := 0;
    var previous := '\n';
    NothingBefore(source, chars[..]);
    while at < |source|
      invariant fresh(chars) && chars.Length == |source|
      invariant Tokenises(source, tokens) && EndOf(tokens) == (if at <= |source| then at else |source|)
      invariant previous == Before(source, tokens)
      invariant BlankedTo(source, tokens, chars[..], EndOf(tokens))
      decreases |source| - at
    {
      ghost var was := chars[..];
      var next, now, token := ScanOne(source, chars, at, previous, tokens);
      FollowsIs(source, tokens, token);
      BeforeSnoc(source, tokens, token);
      TokenisesSnoc(source, tokens, token);
      TokenDone(source, tokens, token, was, chars[..]);
      tokens := tokens + [token];
      at, previous := next, now;
    }
    AllDone(source, tokens, chars[..]);
    code := chars[..];
  }

  lemma FollowsIs(source: string, tokens: seq<Token>, token: Token)
    requires Follows(source, tokens, token)
    ensures token.from < token.to <= |source|
  {
  }

  lemma NothingBefore(source: string, code: string)
    requires code == source
    ensures Before(source, []) == '\n' && Tokenises(source, []) && BlankedTo(source, [], code, 0)
  {
  }

  // ------------------------------------------------------------------ what a reader can rely on

  lemma {:induction false} TokenHolds(source: string, tokens: seq<Token>, k: nat, n: nat)
    requires Tokenises(source, tokens) && n <= |tokens| && k < EndOf(tokens[..n])
    ensures exists i: nat :: i < n && tokens[i].from <= k < tokens[i].to
  {
    if n > 0 {
      FollowsAt(source, tokens, n - 1);
      FollowsIs(source, tokens[..n - 1], tokens[n - 1]);
      hide Tokenises, Follows;
      if k < EndOf(tokens[..n - 1]) {
        TokenHolds(source, tokens, k, n - 1);
      } else {
        assert tokens[n - 1].from <= k < tokens[n - 1].to;
      }
    }
  }

  lemma TokensApart(source: string, tokens: seq<Token>, i: nat, j: nat)
    requires Tokenises(source, tokens) && i < j < |tokens|
    ensures tokens[i].to <= tokens[j].from
  {
    FollowsAt(source, tokens, j);
    assert tokens[..j][i] == tokens[i];
    assert Tokenises(source, tokens[..j]) by {
      forall k | 0 <= k < j
        ensures Follows(source, tokens[..j][..k], tokens[..j][k])
      {
        assert tokens[..j][..k] == tokens[..k];
      }
    }
    FollowsIs(source, tokens[..j], tokens[j]);
    TokensWithin(source, tokens[..j], i);
  }

  /** The tokens part the source: every character is in one, and in one only. */
  lemma TokensPartSource(source: string, tokens: seq<Token>, k: nat)
    requires TokensOf(source, tokens) && k < |source|
    ensures exists i: nat :: i < |tokens| && tokens[i].from <= k < tokens[i].to
    ensures forall i: nat, j: nat ::
              (i < |tokens| && j < |tokens| && tokens[i].from <= k < tokens[i].to && tokens[j].from <= k < tokens[j].to)
              ==> i == j
  {
    assert tokens[..|tokens|] == tokens;
    TokenHolds(source, tokens, k, |tokens|);
    hide Tokenises;
    forall i: nat, j: nat | i < |tokens| && j < |tokens| && tokens[i].from <= k < tokens[i].to
      && tokens[j].from <= k < tokens[j].to
      ensures i == j
    {
      if i < j {
        TokensApart(source, tokens, i, j);
      } else if j < i {
        TokensApart(source, tokens, j, i);
      }
    }
  }

  /**
    Nothing in a string, a template, a regular expression or plain code changes; nothing of a
    comment but its newlines is left.
    */
  lemma OnlyCommentsGo(source: string, tokens: seq<Token>, code: string, i: nat, k: nat)
    requires TokensOf(source, tokens) && Blanked(source, tokens, code)
    requires i < |tokens| && k < |source| && tokens[i].from <= k < tokens[i].to
    ensures |code| == |source|
    ensures code[k] == if IsComment(tokens[i]) && source[k] != '\n' then ' ' else source[k]
  {
    TokensPartSource(source, tokens, k);
    hide Tokenises;
    if Commented(tokens, k) {
      var j :| 0 <= j < |tokens| && tokens[j].from <= k < tokens[j].to && IsComment(tokens[j]);
      assert i == j;
    } else {
      assert !IsComment(tokens[i]);
    }
  }

  // ------------------------------------------------------------------ lines

  /** `split("\n")`. */
  function Lines(s: string): (lines: seq<string>)
    ensures lines != []
  {
    if s == "" then [""]
    else if s[0] == '\n' then [""] + Lines(s[1..])
    else
      var rest := Lines(s[1..]);
      [[s[0]] + rest[0]] + rest[1..]
  }

  /** `trim().length > 0`. */
  predicate Holds(line: string) {
    exists k :: 0 <= k < |line| && !Threading.IsSpace(line[k])
  }

  /** Same newlines, and what is not space in `code` is as it is in `source`. */
  ghost predicate Fades(source: string, code: string) {
    && |code| == |source|
    && (forall k :: 0 <= k < |source| ==> (code[k] == '\n' <==> source[k] == '\n'))
    && (forall k :: 0 <= k < |source| ==> code[k] == source[k] || code[k] == ' ')
  }

  lemma BlankedFades(source: string, tokens: seq<Token>, code: string)
    requires Blanked(source, tokens, code)
    ensures Fades(source, code)
  {
  }

  lemma {:induction false} LinesFade(source: string, code: string)
    requires Fades(source, code)
    ensures |Lines(code)| == |Lines(source)|
    ensures forall i :: 0 <= i < |Lines(code)| ==> Fades(Lines(source)[i], Lines(code)[i])
  {
    if source != "" {
      LinesFade(source[1..], code[1..]);
      if source[0] != '\n' {
        assert Fades([source[0]] + Lines(source[1..])[0], [code[0]] + Lines(code[1..])[0]);
      }
    }
  }

  lemma FadedHolds(before: string, after: string)
    requires Fades(before, after) && Holds(after)
    ensures Holds(before)
  {
    var k :| 0 <= k < |after| && !Threading.IsSpace(after[k]);
    assert before[k] == after[k];
  }

  function HoldingLines(lines: seq<string>): nat {
    if lines == [] then 0
    else HoldingLines(lines[..|lines| - 1]) + if Holds(lines[|lines| - 1]) then 1 else 0
  }

  /**
    The comment-free text and its line counts. Lines stand where they stood, and every line of
    the source that holds anything is counted once: as code if anything of it is left, as
    comment if nothing is.
    */
  method StripComments(source: string)
    returns (code: string, codeLines: nat, commentLines: nat, ghost tokens: seq<Token>)
    ensures TokensOf(source, tokens) && Blanked(source, tokens, code)
    ensures |Lines(code)| == |Lines(source)|
    ensures codeLines == HoldingLines(Lines(code))
    ensures codeLines + commentLines == HoldingLines(Lines(source))
  {
    hide TokensOf, Blanked;
    code, tokens := Strip(source);
    BlankedFades(source, tokens, code);
    LinesFade(source, code);
    hide Fades;
    var before, after := Lines(source), Lines(code);
    codeLines, commentLines := 0, 0;
    for line := 0 to |after|
      invariant codeLines == HoldingLines(after[..line])
      invariant codeLines + commentLines == HoldingLines(before[..line])
    {
      assert after[..line + 1][..line] == after[..line] && before[..line + 1][..line] == before[..line];
      if Holds(after[line]) {
        FadedHolds(before[line], after[line]);
        codeLines := codeLines + 1;
      } else if Holds(before[line]) {
        commentLines := commentLines + 1;
      }
    }
    assert after[..|after|] == after && before[..|before|] == before;
  }
}
