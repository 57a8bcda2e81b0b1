/**
 * The lexer of src/lexer.rs: `Lexer::new` cuts the whole input into token
 * views up to one final EOF, and a `Lexer` is a cursor over that vector.
 * The pattern table is a parameter, so the same lexer runs with the
 * fifteen-entry table of src/lexer/tokens.rs or with a larger one.
 * Characters stand for bytes: the input is taken to be ASCII.
 */
module Lexer {
  import opened Util
  import opened Tokens

  /** `u8::is_ascii_whitespace`: space, tab, line feed, form feed, carriage return. */
  predicate IsAsciiWhitespace(c: char) {
    c == ' ' || c == '\t' || c == '\n' || c == '\U{C}' || c == '\r'
  }

  /** `char::is_whitespace`, the Unicode White_Space property `str::trim` strips. */
  predicate IsWhiteSpace(c: char) {
    || '\t' <= c <= '\r' || c == ' ' || c == '\U{85}' || c == '\U{A0}' || c == '\U{1680}'
    || '\U{2000}' <= c <= '\U{200A}' || c == '\U{2028}' || c == '\U{2029}'
    || c == '\U{202F}' || c == '\U{205F}' || c == '\U{3000}'
  }

  /** `str::trim_start`. */
  function TrimStart(s: string): (t: string)
    ensures |t| <= |s|
  {
    if |s| > 0 && IsWhiteSpace(s[0]) then TrimStart(s[1..]) else s
  }

  /** `str::trim_end`. */
  function TrimEnd(s: string): (t: string)
    ensures |t| <= |s|
  {
    if |s| > 0 && IsWhiteSpace(s[|s| - 1]) then TrimEnd(s[..|s| - 1]) else s
  }

  /** `str::trim`: white space off both ends. */
  function Trim(s: string): string {
    TrimEnd(TrimStart(s))
  }

  /** Trimming the start removes only white space, up to a character that is not. */
  lemma {:induction false} TrimStartKeepsInside(s: string)
    ensures var t := TrimStart(s);
      && t == s[|s| - |t|..]
      && (forall k :: 0 <= k < |s| - |t| ==> IsWhiteSpace(s[k]))
      && (|t| > 0 ==> !IsWhiteSpace(t[0]))
  {
    if |s| > 0 && IsWhiteSpace(s[0]) {
      TrimStartKeepsInside(s[1..]);
    }
  }

  /** Trimming the end removes only white space, back to a character that is not. */
  lemma {:induction false} TrimEndKeepsInside(s: string)
    ensures var t := TrimEnd(s);
      && t == s[..|t|]
      && (forall k :: |t| <= k < |s| ==> IsWhiteSpace(s[k]))
      && (|t| > 0 ==> !IsWhiteSpace(t[|t| - 1]))
  {
    if |s| > 0 && IsWhiteSpace(s[|s| - 1]) {
      TrimEndKeepsInside(s[..|s| - 1]);
    }
  }

  /** The first offset from `i` on that is not ASCII white space, or the end. */
  function SkipSpace(s: string, i: nat): (j: nat)
    requires i <= |s|
    ensures i <= j <= |s|
    decreases |s| - i
  {
    if i < |s| && IsAsciiWhitespace(s[i]) then SkipSpace(s, i + 1) else i
  }

  /** Skipping passes only white space and stops before anything else. */
  lemma {:induction false} SkipSpaceSkipsSpace(s: string, i: nat)
    requires i <= |s|
    ensures forall k :: i <= k < SkipSpace(s, i) ==> IsAsciiWhitespace(s[k])
    ensures SkipSpace(s, i) < |s| ==> !IsAsciiWhitespace(s[SkipSpace(s, i)])
    decreases |s| - i
  {
    if i < |s| && IsAsciiWhitespace(s[i]) {
      SkipSpaceSkipsSpace(s, i + 1);
    }
  }

  /** The pattern of `rule` matches a non-empty text that starts exactly at `i`. */
  predicate Hits(rule: Rule, s: string, i: nat)
    requires i <= |s|
  {
    MatchEnd(rule.pattern, s, i).Some?
  }

  /**
   * The pattern choice of `next_token`: the first rule, from index `from` on,
   * whose match starts at `i` and is non-empty, with the kind it produces
   * and the end of its match.
   */
  function FirstMatch(rules: seq<Rule>, s: string, i: nat, from: nat): (r: Option<(Token, nat)>)
    requires i <= |s| && from <= |rules|
    ensures r.Some? ==> i < r.value.1 <= |s|
    decreases |rules| - from
  {
    if from == |rules| then None
    else match MatchEnd(rules[from].pattern, s, i)
      case Some(end) => Some((rules[from].token, end))
      case None => FirstMatch(rules, s, i, from + 1)
  }

  /** `FirstMatch` finds a rule exactly when one hits, and then the first that hits. */
  lemma {:induction false} FirstMatchIsFirst(rules: seq<Rule>, s: string, i: nat, from: nat)
    requires i <= |s| && from <= |rules|
    ensures FirstMatch(rules, s, i, from).Some? <==> exists k :: from <= k < |rules| && Hits(rules[k], s, i)
    ensures FirstMatch(rules, s, i, from).Some? ==>
      exists k :: && from <= k < |rules| && Hits(rules[k], s, i)
                  && (forall m :: from <= m < k ==> !Hits(rules[m], s, i))
                  && FirstMatch(rules, s, i, from).value == (rules[k].token, MatchEnd(rules[k].pattern, s, i).value)
    decreases |rules| - from
  {
    if from < |rules| && !Hits(rules[from], s, i) {
      FirstMatchIsFirst(rules, s, i, from + 1);
      var r := FirstMatch(rules, s, i, from);
      if r.Some? {
        var k :| && from + 1 <= k < |rules| && Hits(rules[k], s, i)
                 && (forall m :: from + 1 <= m < k ==> !Hits(rules[m], s, i))
                 && r.value == (rules[k].token, MatchEnd(rules[k].pattern, s, i).value);
        assert forall m :: from <= m < k ==> !Hits(rules[m], s, i);
      }
    }
  }

  /** The rule `FirstMatch` picks is the one with the least index among those that hit. */
  lemma FirstMatchIsLeast(rules: seq<Rule>, s: string, i: nat, k: nat)
    requires i <= |s| && k < |rules| && Hits(rules[k], s, i)
    requires forall m :: 0 <= m < k ==> !Hits(rules[m], s, i)
    ensures FirstMatch(rules, s, i, 0) == Some((rules[k].token, MatchEnd(rules[k].pattern, s, i).value))
  {
    FirstMatchIsFirst(rules, s, i, 0);
    var r := FirstMatch(rules, s, i, 0);
    var k' :| 0 <= k' < |rules| && Hits(rules[k'], s, i)
      && (forall m :: 0 <= m < k' ==> !Hits(rules[m], s, i))
      && r.value == (rules[k'].token, MatchEnd(rules[k'].pattern, s, i).value);
    assert k' == k;
  }

  /**
   * `next_token` from offset `i`: skip ASCII white space; at the end, EOF;
   * otherwise the first matching rule, which moves the offset to the end of
   * its match.  `None` is the panic on text no pattern matches.
   */
  function NextToken(rules: seq<Rule>, s: string, i: nat): (r: Option<(Token, nat)>)
    requires i <= |s|
    ensures r.Some? ==> i <= r.value.1 <= |s|
    ensures r.Some? && r.value.0 != EOF ==> i < r.value.1
  {
    var j := SkipSpace(s, i);
    if j == |s| then Some((EOF, j)) else FirstMatch(rules, s, j, 0)
  }

  /** `next_token` panics exactly when text other than white space is left and no rule hits where it begins. */
  lemma NextTokenPanics(rules: seq<Rule>, s: string, i: nat)
    requires i <= |s|
    ensures NextToken(rules, s, i).None? <==>
      SkipSpace(s, i) < |s| && forall k :: 0 <= k < |rules| ==> !Hits(rules[k], s, SkipSpace(s, i))
  {
    if SkipSpace(s, i) < |s| {
      FirstMatchIsFirst(rules, s, SkipSpace(s, i), 0);
    }
  }

  /** With a table that never produces EOF, EOF comes exactly when only white space is left, and ends the text. */
  lemma NextTokenEof(rules: seq<Rule>, s: string, i: nat)
    requires i <= |s| && NeverEof(rules)
    ensures NextToken(rules, s, i) == Some((EOF, |s|)) <==> forall k :: i <= k < |s| ==> IsAsciiWhitespace(s[k])
    ensures NextToken(rules, s, i).Some? && NextToken(rules, s, i).value.0 == EOF ==> NextToken(rules, s, i).value.1 == |s|
  {
    var j := SkipSpace(s, i);
    SkipSpaceSkipsSpace(s, i);
    if j < |s| {
      assert !IsAsciiWhitespace(s[j]);
      FirstMatchIsFirst(rules, s, j, 0);
      var r := FirstMatch(rules, s, j, 0);
      if r.Some? {
        var k :| 0 <= k < |rules| && Hits(rules[k], s, j)
          && (forall m :: 0 <= m < k ==> !Hits(rules[m], s, j))
          && r.value == (rules[k].token, MatchEnd(rules[k].pattern, s, j).value);
        assert rules[k].token != EOF;
      }
    }
  }

  /** Line and column, as `Lexer::new` counts them. */
  datatype Position = Position(line: nat, col: nat)

  /** The position before the first token: line 1, column 0. */
  const Start := Position(1, 0)

  /** One byte of the inner loop: the column rises; a newline starts the next line at column 0. */
  function Step(p: Position, c: char): Position {
    if c == '\n' then Position(p.line + 1, 0) else Position(p.line, p.col + 1)
  }

  /** The position after the bytes of `text`, from `p`. */
  function Advance(text: string, p: Position): Position
    decreases |text|
  {
    if text == [] then p else Step(Advance(text[..|text| - 1], p), text[|text| - 1])
  }

  /** Counting through two texts in turn is counting through their concatenation. */
  lemma {:induction false} AdvanceAppend(a: string, b: string, p: Position)
    ensures Advance(a + b, p) == Advance(b, Advance(a, p))
    decreases |b|
  {
    if b == [] {
      assert a + b == a;
    } else {
      assert (a + b)[..|a + b| - 1] == a + b[..|b| - 1];
      AdvanceAppend(a, b[..|b| - 1], p);
    }
  }

  /** The number of newlines in `text`. */
  function Newlines(text: string): nat
    decreases |text|
  {
    if text == [] then 0 else Newlines(text[..|text| - 1]) + (if text[|text| - 1] == '\n' then 1 else 0)
  }

  /** The line rises by one per newline. */
  lemma {:induction false} AdvanceCountsLines(text: string, p: Position)
    ensures Advance(text, p).line == p.line + Newlines(text)
    decreases |text|
  {
    if text != [] {
      AdvanceCountsLines(text[..|text| - 1], p);
    }
  }

  /** The column adds the length of a text without a newline. */
  lemma {:induction false} AdvanceCountsColumns(text: string, p: Position)
    requires forall k :: 0 <= k < |text| ==> text[k] != '\n'
    ensures Advance(text, p).col == p.col + |text|
    decreases |text|
  {
    if text != [] {
      var init := text[..|text| - 1];
      assert forall k :: 0 <= k < |init| ==> init[k] == text[k];
      AdvanceCountsColumns(init, p);
    }
  }

  /** After a newline the column counts the bytes that follow the last one. */
  lemma {:induction false} AdvanceRestartsColumn(text: string, p: Position, k: nat)
    requires k < |text| && text[k] == '\n'
    requires forall m :: k < m < |text| ==> text[m] != '\n'
    ensures Advance(text, p).col == |text| - 1 - k
    decreases |text|
  {
    var init := text[..|text| - 1];
    if k < |text| - 1 {
      assert init[k] == '\n';
      assert forall m :: k < m < |init| ==> init[m] == text[m];
      AdvanceRestartsColumn(init, p, k);
    }
  }

  /** What the lexer keeps of each token: kind, trimmed text, position after it, and where it began. */
  datatype TokenView = TokenView(token: Token, str: string, line: nat, col: nat, index: nat)

  /** A token vector the cursor can run over: it is not empty and ends with EOF. */
  predicate Terminated(ts: seq<TokenView>) {
    |ts| > 0 && ts[|ts| - 1].token == EOF
  }

  /**
   * The views `Lexer::new` produces from offset `pos` at position `p`:
   * each round reads one token, records the trimmed text from where the
   * previous token ended, and stops after the first EOF.  `None` when some
   * round panics.
   */
  function Scan(rules: seq<Rule>, s: string, pos: nat, p: Position): Option<seq<TokenView>>
    requires pos <= |s|
    decreases |s| - pos
  {
    match NextToken(rules, s, pos)
    case None => None
    case Some((token, end)) =>
      var at := Advance(s[pos..end], p);
      var view := TokenView(token, Trim(s[pos..end]), at.line, at.col, pos);
      if token == EOF then Some([view])
      else match Scan(rules, s, end, at)
        case None => None
        case Some(rest) => Some([view] + rest)
  }

  /** `ts` in front of a scan's views; a panic stays a panic. */
  function Prepend(ts: seq<TokenView>, r: Option<seq<TokenView>>): Option<seq<TokenView>> {
    if r.Some? then Some(ts + r.value) else None
  }

  lemma PrependNothing(r: Option<seq<TokenView>>)
    ensures Prepend([], r) == r
  {
    if r.Some? {
      assert [] + r.value == r.value;
    }
  }

  /** The scan makes exactly one EOF, the last view. */
  lemma {:induction false} ScanEndsWithOneEof(rules: seq<Rule>, s: string, pos: nat, p: Position)
    requires pos <= |s|
    ensures Scan(rules, s, pos, p).Some? ==> Terminated(Scan(rules, s, pos, p).value)
    ensures Scan(rules, s, pos, p).Some? ==>
      forall k :: 0 <= k < |Scan(rules, s, pos, p).value| - 1 ==> Scan(rules, s, pos, p).value[k].token != EOF
    decreases |s| - pos
  {
    var r := NextToken(rules, s, pos);
    if r.Some? && r.value.0 != EOF {
      var (token, end) := r.value;
      ScanEndsWithOneEof(rules, s, end, Advance(s[pos..end], p));
    }
  }

  /** Where the k-th view's token ends: where the next one begins, and the end of the text for the last. */
  function End(views: seq<TokenView>, k: nat, s: string): nat
    requires k < |views|
  {
    if k + 1 < |views| then views[k + 1].index else |s|
  }

  /**
   * The first view begins at `pos`, and `next_token` from a view's beginning
   * produces its kind and ends where the next view begins.
   */
  predicate Chained(rules: seq<Rule>, s: string, pos: nat, views: seq<TokenView>)
    requires pos <= |s|
  {
    && |views| > 0 && views[0].index == pos
    && (forall k {:trigger End(views, k, s)} :: 0 <= k < |views| ==>
          && pos <= views[k].index <= End(views, k, s) <= |s|
          && NextToken(rules, s, views[k].index) == Some((views[k].token, End(views, k, s))))
  }

  /** Each view's text is the trimmed slice from its beginning to its end. */
  predicate Trimmed(s: string, views: seq<TokenView>) {
    forall k {:trigger End(views, k, s)} :: 0 <= k < |views| && views[k].index <= End(views, k, s) <= |s| ==>
      views[k].str == Trim(s[views[k].index..End(views, k, s)])
  }

  /** Each view's position counts every byte from `pos` to its end. */
  predicate Positioned(s: string, pos: nat, p: Position, views: seq<TokenView>) {
    forall k {:trigger End(views, k, s)} :: 0 <= k < |views| && pos <= End(views, k, s) <= |s| ==>
      Position(views[k].line, views[k].col) == Advance(s[pos..End(views, k, s)], p)
  }

  /** What each view holds. */
  predicate Describes(rules: seq<Rule>, s: string, pos: nat, p: Position, views: seq<TokenView>)
    requires pos <= |s|
  {
    Chained(rules, s, pos, views) && Trimmed(s, views) && Positioned(s, pos, p, views)
  }

  /** A scan that does not panic produces views as `Describes` says. */
  lemma {:induction false} ScanDescribes(rules: seq<Rule>, s: string, pos: nat, p: Position)
    requires pos <= |s| && NeverEof(rules)
    requires Scan(rules, s, pos, p).Some?
    ensures Describes(rules, s, pos, p, Scan(rules, s, pos, p).value)
    decreases |s| - pos
  {
    var (token, end) := NextToken(rules, s, pos).value;
    var at := Advance(s[pos..end], p);
    var views := Scan(rules, s, pos, p).value;
    NextTokenEof(rules, s, pos);
    if token != EOF {
      var rest := Scan(rules, s, end, at).value;
      ScanDescribes(rules, s, end, at);
      assert views == [views[0]] + rest;
      ChainedCons(rules, s, pos, end, views[0], rest);
      TrimmedCons(s, end, views[0], rest);
      PositionedCons(s, pos, p, end, views[0], rest);
    }
  }

  lemma ChainedCons(rules: seq<Rule>, s: string, pos: nat, end: nat, view: TokenView, rest: seq<TokenView>)
    requires pos < end <= |s|
    requires NextToken(rules, s, pos) == Some((view.token, end)) && view.index == pos
    requires Chained(rules, s, end, rest)
    ensures Chained(rules, s, pos, [view] + rest)
  {
    var views := [view] + rest;
    forall k | 1 <= k < |views|
      ensures pos <= views[k].index <= End(views, k, s) <= |s|
      ensures NextToken(rules, s, views[k].index) == Some((views[k].token, End(views, k, s)))
    {
      assert views[k] == rest[k - 1];
      assert End(views, k, s) == End(rest, k - 1, s);
    }
    assert End(views, 0, s) == end;
  }

  lemma TrimmedCons(s: string, end: nat, view: TokenView, rest: seq<TokenView>)
    requires end <= |s| && view.index <= end && |rest| > 0 && rest[0].index == end
    requires view.str == Trim(s[view.index..end])
    requires Trimmed(s, rest)
    ensures Trimmed(s, [view] + rest)
  {
    var views := [view] + rest;
    forall k | 1 <= k < |views| && views[k].index <= End(views, k, s) <= |s|
      ensures views[k].str == Trim(s[views[k].index..End(views, k, s)])
    {
      assert views[k] == rest[k - 1];
      assert End(views, k, s) == End(rest, k - 1, s);
    }
    assert End(views, 0, s) == end;
  }

  lemma PositionedCons(s: string, pos: nat, p: Position, end: nat, view: TokenView, rest: seq<TokenView>)
    requires pos <= end <= |s| && |rest| > 0 && rest[0].index == end
    requires Position(view.line, view.col) == Advance(s[pos..end], p)
    requires Positioned(s, end, Position(view.line, view.col), rest)
    requires forall j {:trigger End(rest, j, s)} :: 0 <= j < |rest| ==> end <= End(rest, j, s) <= |s|
    ensures Positioned(s, pos, p, [view] + rest)
  {
    forall k | 0 <= k < |[view] + rest| && pos <= End([view] + rest, k, s) <= |s|
      ensures Position(([view] + rest)[k].line, ([view] + rest)[k].col) == Advance(s[pos..End([view] + rest, k, s)], p)
    {
      PositionedConsAt(s, pos, p, end, view, rest, k);
    }
  }

  lemma PositionedConsAt(s: string, pos: nat, p: Position, end: nat, view: TokenView, rest: seq<TokenView>, k: nat)
    requires pos <= end <= |s| && |rest| > 0 && rest[0].index == end
    requires Position(view.line, view.col) == Advance(s[pos..end], p)
    requires Positioned(s, end, Position(view.line, view.col), rest)
    requires forall j {:trigger End(rest, j, s)} :: 0 <= j < |rest| ==> end <= End(rest, j, s) <= |s|
    requires k < |[view] + rest| && pos <= End([view] + rest, k, s) <= |s|
    ensures Position(([view] + rest)[k].line, ([view] + rest)[k].col) == Advance(s[pos..End([view] + rest, k, s)], p)
  {
    var views := [view] + rest;
    if k == 0 {
      assert End(views, 0, s) == end;
    } else {
      assert views[k] == rest[k - 1];
      var e := End(rest, k - 1, s);
      assert End(views, k, s) == e;
      ShiftPosition(s, pos, end, e, p);
    }
  }

  /** Counting from `pos` to `e` is counting to `end`, then on to `e`. */
  lemma ShiftPosition(s: string, pos: nat, end: nat, e: nat, p: Position)
    requires pos <= end <= e <= |s|
    ensures Advance(s[pos..e], p) == Advance(s[end..e], Advance(s[pos..end], p))
  {
    assert s[pos..e] == s[pos..end] + s[end..e];
    AdvanceAppend(s[pos..end], s[end..e], p);
  }

  /** The tokenising loop of `Lexer::new`; `None` is its panic on untokenisable text. */
  method Tokenize(rules: seq<Rule>, content: string) returns (r: Option<seq<TokenView>>)
    ensures r == Scan(rules, content, 0, Start)
  {
    var tokens: seq<TokenView> := [];
    var index: nat := 0;
    var column: nat := 0;
    var lineBreaks: nat := 1;
    PrependNothing(Scan(rules, content, 0, Start));
    while true
      invariant index <= |content|
      invariant Scan(rules, content, 0, Start) == Prepend(tokens, Scan(rules, content, index, Position(lineBreaks, column)))
      decreases |content| - index
    {
      var lastIndex := index;
      ghost var before := Position(lineBreaks, column);
      var next := NextTokenAt(rules, content, index);
      if next.None? {
        return None;
      }
      var token := next.value.0;
      index := next.value.1;
      var tokenString := content[lastIndex..index];
      lineBreaks, column := CountBytes(tokenString, lineBreaks, column);
      var view := TokenView(token, Trim(tokenString), lineBreaks, column, lastIndex);
      ScanStep(rules, content, lastIndex, before, tokens, view);
      tokens := tokens + [view];
      if token == EOF {
        return Some(tokens);
      }
    }
  }

  /** The byte loop inside `Lexer::new`: the column rises per byte and a newline moves to the next line. */
  method CountBytes(text: string, line: nat, col: nat) returns (lineBreaks: nat, column: nat)
    ensures Position(lineBreaks, column) == Advance(text, Position(line, col))
  {
    lineBreaks, column := line, col;
    var i := 0;
    while i < |text|
      invariant 0 <= i <= |text|
      invariant Position(lineBreaks, column) == Advance(text[..i], Position(line, col))
    {
      assert text[..i + 1][..i] == text[..i];
      column := column + 1;
      if text[i] == '\n' {
        lineBreaks := lineBreaks + 1;
        column := 0;
      }
      i := i + 1;
    }
    assert text[..i] == text;
  }

  /** One round of the loop: the view it records goes from the scan to the vector. */
  lemma ScanStep(rules: seq<Rule>, s: string, pos: nat, p: Position, tokens: seq<TokenView>, view: TokenView)
    requires pos <= |s| && NextToken(rules, s, pos).Some?
    requires var (token, end) := NextToken(rules, s, pos).value;
      view == TokenView(token, Trim(s[pos..end]), Advance(s[pos..end], p).line, Advance(s[pos..end], p).col, pos)
    ensures var (token, end) := NextToken(rules, s, pos).value;
      && (token == EOF ==> Prepend(tokens, Scan(rules, s, pos, p)) == Some(tokens + [view]))
      && (token != EOF ==>
            Prepend(tokens, Scan(rules, s, pos, p)) ==
            Prepend(tokens + [view], Scan(rules, s, end, Position(view.line, view.col))))
  {
    var (token, end) := NextToken(rules, s, pos).value;
    if token != EOF {
      var rest := Scan(rules, s, end, Position(view.line, view.col));
      if rest.Some? {
        assert tokens + ([view] + rest.value) == tokens + [view] + rest.value;
      }
    }
  }

  /** `next_token`: the white-space loop, then the first matching pattern. */
  method NextTokenAt(rules: seq<Rule>, content: string, start: nat) returns (r: Option<(Token, nat)>)
    requires start <= |content|
    ensures r == NextToken(rules, content, start)
  {
    var index := start;
    while index < |content| && IsAsciiWhitespace(content[index])
      invariant start <= index <= |content|
      invariant SkipSpace(content, start) == SkipSpace(content, index)
    {
      assert SkipSpace(content, index) == SkipSpace(content, index + 1);
      index := index + 1;
    }
    if index == |content| {
      return Some((EOF, index));
    }
    r := FirstMatch(rules, content, index, 0);
  }

  /** A scanned vector: it ends with EOF and holds no other EOF. */
  predicate OneEof(ts: seq<TokenView>) {
    Terminated(ts) && forall k :: 0 <= k < |ts| - 1 ==> ts[k].token != EOF
  }

  /**
   * The message of an error, kept as the facts it is formatted from: an
   * unexpected token and the expected one, a file that could not be opened,
   * or a message whose text the caller composed.  `Text` gives the words.
   */
  datatype Message =
    | Unexpected(found: Token, expected: Token)
    | CannotOpen(file: string)
    | Says(text: string)

  /** The text the source formats for a message. */
  function Text(m: Message): string {
    match m
    case Unexpected(found, expected) => "Unexpected token: " + Name(found) + " expected: " + Name(expected)
    case CannotOpen(file) => "Cannot open file: " + file
    case Says(text) => text
  }

  /** `LexerError`: a message with the line and column of the token it points at. */
  datatype LexerError = LexerError(msg: Message, line: nat, index: nat)

  /**
   * How an operation of the compiler's front end fails: a reported
   * `LexerError`, or a panic, such as indexing the token vector past its end.
   */
  datatype Failure = Reported(error: LexerError) | Panic

  /** `error`: the message at the token at `i`; past the end the indexing panics. */
  function ErrorAt(ts: seq<TokenView>, i: nat, msg: Message): (f: Failure)
    ensures f.Panic? <==> i >= |ts|
    ensures f.Reported? ==> f.error == LexerError(msg, ts[i].line, ts[i].col)
  {
    if i < |ts| then Reported(LexerError(msg, ts[i].line, ts[i].col)) else Panic
  }

  /** A token read and the index after it. */
  datatype Read = Read(token: Token, index: nat)

  /** `next` on a vector and an index: the token there and the index after it. */
  function NextAt(ts: seq<TokenView>, i: nat): Read {
    if i >= |ts| then Read(EOF, i) else Read(ts[i].token, i + 1)
  }

  /** `current_view`: the view at `i`, or the last view once `i` is at the end. */
  function ViewAt(ts: seq<TokenView>, i: nat): (v: TokenView)
    requires Terminated(ts) && i <= |ts|
    ensures i < |ts| ==> v == ts[i]
    ensures i == |ts| ==> v == ts[|ts| - 1] && v.token == EOF
  {
    if i == |ts| then ts[|ts| - 1] else ts[i]
  }

  /** `last_string`: the text of the token before `i`; an escaped newline gives back its two characters. */
  function LastStringAt(ts: seq<TokenView>, i: nat): string
    requires 0 < i <= |ts|
  {
    if ts[i - 1].token == ESCAPELINE then "\\\n" else ts[i - 1].str
  }

  /** The outcome of a cursor operation: its result and the index it leaves. */
  datatype Moved = Moved(result: Result<string, Failure>, index: nat)

  /** `expect`: consume one token; the text of it if it is `token`, else the error at the next one. */
  function ExpectAt(ts: seq<TokenView>, i: nat, token: Token): (r: Moved)
    requires |ts| > 0 && i <= |ts|
    ensures 0 < r.index <= |ts|
    ensures Terminated(ts) && token != EOF && r.result.Ok? ==> r.index < |ts|
  {
    var next := NextAt(ts, i);
    if next.token != token then Moved(Err(ErrorAt(ts, next.index, Unexpected(next.token, token))), next.index)
    else Moved(Ok(LastStringAt(ts, next.index)), next.index)
  }

  /**
   * `expect` consumes one token even when it is the wrong one; it succeeds
   * exactly when that token is the expected kind, and then gives its text.
   * Otherwise the error points at the token after it, which panics when the
   * consumed token was the last.
   */
  lemma ExpectAtCases(ts: seq<TokenView>, i: nat, token: Token)
    requires |ts| > 0 && i <= |ts|
    ensures var r := ExpectAt(ts, i, token);
      && r.index == (if i < |ts| then i + 1 else i)
      && (r.result.Ok? <==> (i < |ts| && ts[i].token == token) || (i == |ts| && token == EOF))
      && (r.result.Ok? ==> r.result.value == LastStringAt(ts, r.index))
      && (r.result.Err? ==> r.result.error == ErrorAt(ts, r.index, Unexpected(NextAt(ts, i).token, token)))
      && (r.result.Err? && r.result.error.Panic? <==> r.result.Err? && r.index == |ts|)
  {
  }

  /** `expect_tokens`: `expect` each of `want` in turn, stopping at the first mismatch. */
  function ExpectAllAt(ts: seq<TokenView>, i: nat, want: seq<Token>, last: string): (r: Moved)
    requires |ts| > 0 && i <= |ts|
    ensures r.index <= |ts|
    decreases |want|
  {
    if want == [] then Moved(Ok(last), i)
    else
      var step := ExpectAt(ts, i, want[0]);
      if step.result.Err? then step else ExpectAllAt(ts, step.index, want[1..], step.result.value)
  }

  /**
   * `expect_tokens` succeeds exactly when the next tokens are `want`; it then
   * moves past all of them and gives the text of the last one.
   */
  lemma {:induction false} ExpectAllMatches(ts: seq<TokenView>, i: nat, want: seq<Token>, last: string)
    requires |ts| > 0 && i + |want| <= |ts|
    ensures ExpectAllAt(ts, i, want, last).result.Ok? <==> forall k :: 0 <= k < |want| ==> ts[i + k].token == want[k]
    decreases |want|
  {
    if want != [] {
      ExpectAllStep(ts, i, want, last);
      if ts[i].token == want[0] {
        var tail := want[1..];
        ExpectAllMatches(ts, i + 1, tail, LastStringAt(ts, i + 1));
        if forall k :: 0 <= k < |tail| ==> ts[i + 1 + k].token == tail[k] {
          forall k | 0 <= k < |want| ensures ts[i + k].token == want[k] {
            if k > 0 {
              assert ts[i + 1 + (k - 1)].token == tail[k - 1];
            }
          }
        } else {
          var k :| 0 <= k < |tail| && ts[i + 1 + k].token != tail[k];
          assert ts[i + (k + 1)].token != want[k + 1];
        }
      }
    }
  }

  /** A successful `expect_tokens` has moved past all of `want` and gives the text of the last one. */
  lemma {:induction false} ExpectAllLands(ts: seq<TokenView>, i: nat, want: seq<Token>, last: string)
    requires |ts| > 0 && i + |want| <= |ts|
    ensures var r := ExpectAllAt(ts, i, want, last);
      r.result.Ok? ==> r.index == i + |want| && r.result.value == (if want == [] then last else LastStringAt(ts, i + |want|))
    decreases |want|
  {
    if want != [] {
      ExpectAllStep(ts, i, want, last);
      if ts[i].token == want[0] {
        ExpectAllLands(ts, i + 1, want[1..], LastStringAt(ts, i + 1));
      }
    }
  }

  /** One step of `expect_tokens`: a mismatch at `i` fails, a match goes on from `i + 1`. */
  lemma ExpectAllStep(ts: seq<TokenView>, i: nat, want: seq<Token>, last: string)
    requires |ts| > 0 && i < |ts| && want != []
    ensures ts[i].token != want[0] ==> ExpectAllAt(ts, i, want, last).result.Err?
    ensures ts[i].token == want[0] ==>
      ExpectAllAt(ts, i, want, last) == ExpectAllAt(ts, i + 1, want[1..], LastStringAt(ts, i + 1))
  {
    ExpectAtCases(ts, i, want[0]);
  }

  /** `consume_line` from `i`: the index it stops at. */
  function ConsumeLineEnd(ts: seq<TokenView>, i: nat): (j: nat)
    requires Terminated(ts) && i <= |ts|
    ensures i <= j <= |ts| && (i < |ts| ==> i < j)
    decreases |ts| - i, 1
  {
    ConsumeLineLoop(ts, i, ViewAt(ts, i).line)
  }

  /** The loop of `consume_line`: one `next`, then follow an escape, stop at a new line or EOF, or go on. */
  function ConsumeLineLoop(ts: seq<TokenView>, i: nat, start: nat): (j: nat)
    requires Terminated(ts) && i <= |ts|
    ensures i <= j <= |ts| && (i < |ts| ==> i < j)
    decreases |ts| - i, 0
  {
    var k := NextAt(ts, i).index;
    var current := ViewAt(ts, k);
    if current.token == ESCAPELINE then ConsumeLineEnd(ts, k)
    else if current.line != start || current.token == EOF then k
    else ConsumeLineLoop(ts, k, start)
  }

  /**
   * `consume_line` stops at the first token after `i` that is EOF or that
   * begins a new line, where a line ending in an escaped newline goes on:
   * every token it passes is an escape or on the line of the one before.
   */
  lemma {:induction false} ConsumeLineStops(ts: seq<TokenView>, i: nat)
    requires Terminated(ts) && i < |ts|
    ensures var j := ConsumeLineEnd(ts, i);
      && i < j <= |ts|
      && ViewAt(ts, j).token != ESCAPELINE
      && (ViewAt(ts, j).token == EOF || ts[j].line != ts[j - 1].line)
      && forall k :: i < k < j ==> ts[k].token != EOF && (ts[k].token == ESCAPELINE || ts[k].line == ts[k - 1].line)
    decreases |ts| - i, 1
  {
    ConsumeLineLoopStops(ts, i, ts[i].line);
  }

  lemma {:induction false} ConsumeLineLoopStops(ts: seq<TokenView>, i: nat, start: nat)
    requires Terminated(ts) && i < |ts| && ts[i].line == start
    ensures var j := ConsumeLineLoop(ts, i, start);
      && i < j <= |ts|
      && ViewAt(ts, j).token != ESCAPELINE
      && (ViewAt(ts, j).token == EOF || ts[j].line != ts[j - 1].line)
      && forall k :: i < k < j ==> ts[k].token != EOF && (ts[k].token == ESCAPELINE || ts[k].line == ts[k - 1].line)
    decreases |ts| - i, 0
  {
    var k := i + 1;
    if k < |ts| {
      if ts[k].token == ESCAPELINE {
        ConsumeLineStops(ts, k);
      } else if ts[k].line != start || ts[k].token == EOF {
      } else {
        ConsumeLineLoopStops(ts, k, start);
      }
    }
  }

  /**
   * `Lexer::new`: tokenise the whole content and start at the first view;
   * `null` where tokenising panics.
   */
  method NewLexer(rules: seq<Rule>, content: string) returns (l: Lexer?)
    ensures l == null <==> Scan(rules, content, 0, Start).None?
    ensures l != null ==> fresh(l) && l.Valid() && l.index == 0 && l.tokens == Scan(rules, content, 0, Start).value
  {
    var r := Tokenize(rules, content);
    if r.None? {
      return null;
    }
    ScanEndsWithOneEof(rules, content, 0, Start);
    l := new Lexer(r.value);
  }

  /** The cursor over a token vector. */
  class Lexer {
    /** The views `Lexer::new` produced; never changed afterwards. */
    const tokens: seq<TokenView>
    /** The position of the cursor. */
    var index: nat

    ghost predicate Valid()
      reads this
    {
      OneEof(tokens) && index <= |tokens|
    }

    /** A cursor at the first of the given views. */
    constructor (views: seq<TokenView>)
      requires OneEof(views)
      ensures Valid() && index == 0 && tokens == views
    {
      tokens := views;
      index := 0;
    }

    /** `error`: the message placed at the token at the cursor; at the end of the vector this panics. */
    function Error(msg: Message): (f: Failure)
      reads this
      requires Valid()
      ensures f.Panic? <==> index == |tokens|
      ensures f.Reported? ==> f.error.line == tokens[index].line && f.error.index == tokens[index].col
    {
      ErrorAt(tokens, index, msg)
    }

    /** `next`: EOF without moving once past the end; otherwise the token at the cursor, moving by one. */
    method Next() returns (t: Token)
      requires Valid()
      modifies this`index
      ensures Valid()
      ensures old(index) < |tokens| ==> t == tokens[old(index)].token && index == old(index) + 1
      ensures old(index) >= |tokens| ==> t == EOF && index == old(index)
    {
      if index >= |tokens| {
        return EOF;
      }
      t := tokens[index].token;
      index := index + 1;
    }

    /** `current`: the token at the cursor, or the last one at the end; EOF exactly from the last view on. */
    function Current(): (t: Token)
      reads this
      requires Valid()
      ensures t == ViewAt(tokens, index).token
      ensures t == EOF <==> index >= |tokens| - 1
    {
      if index == |tokens| then tokens[|tokens| - 1].token else tokens[index].token
    }

    /** `current_view`: the view at the cursor, or the last one at the end. */
    function CurrentView(): (v: TokenView)
      reads this
      requires Valid()
      ensures v == ViewAt(tokens, index)
      ensures v.token == EOF <==> index >= |tokens| - 1
    {
      if index == |tokens| then tokens[|tokens| - 1] else tokens[index]
    }

    /** `expect`: consumes one token even when it is the wrong one. */
    method Expect(token: Token) returns (r: Result<string, Failure>)
      requires Valid()
      modifies this`index
      ensures Valid()
      ensures Moved(r, index) == ExpectAt(tokens, old(index), token)
    {
      var next := Next();
      if next != token {
        return Err(Error(Unexpected(next, token)));
      }
      r := Ok(LastString());
    }

    /** `expect_tokens`: each expected kind in turn; the text of the last on success. */
    method ExpectTokens(want: seq<Token>) returns (r: Result<string, Failure>)
      requires Valid() && index > 0
      modifies this`index
      ensures Valid()
      ensures Moved(r, index) == ExpectAllAt(tokens, old(index), want, LastStringAt(tokens, old(index)))
    {
      ghost var start := index;
      var i := 0;
      while i < |want|
        invariant Valid() && 0 <= i <= |want| && index > 0
        invariant ExpectAllAt(tokens, start, want, LastStringAt(tokens, start)) ==
          ExpectAllAt(tokens, index, want[i..], LastStringAt(tokens, index))
      {
        ExpectAtCases(tokens, index, want[i]);
        var next := Next();
        if next != want[i] {
          return Err(Error(Unexpected(next, want[i])));
        }
        assert want[i..][1..] == want[i + 1..];
        i := i + 1;
      }
      r := Ok(LastString());
    }

    /** `last_string`: the text of the token before the cursor. */
    function LastString(): (s: string)
      reads this
      requires Valid() && index > 0
      ensures s == LastStringAt(tokens, index)
    {
      if tokens[index - 1].token == ESCAPELINE then "\\\n" else tokens[index - 1].str
    }

    /** `peek`: the token at the cursor; past the end the indexing panics, so callers stay before it. */
    function Peek(): (t: Token)
      reads this
      requires Valid() && index < |tokens|
      ensures t == tokens[index].token
      ensures t == EOF <==> index == |tokens| - 1
    {
      tokens[index].token
    }

    /** `peek_str`: the text of the token at the cursor. */
    function PeekStr(): (s: string)
      reads this
      requires Valid() && index < |tokens|
      ensures s == tokens[index].str
    {
      tokens[index].str
    }

    /** `reset`: back to the first view. */
    method Reset()
      requires Valid()
      modifies this`index
      ensures Valid() && index == 0
    {
      index := 0;
    }

    /** `consume_line`: move past the rest of the current line and any lines it continues with escapes. */
    method ConsumeLine()
      requires Valid()
      modifies this`index
      ensures Valid() && index == ConsumeLineEnd(tokens, old(index))
      decreases |tokens| - index, 1
    {
      var start := CurrentLine();
      ghost var entry := index;
      while true
        invariant Valid() && entry <= index
        invariant ConsumeLineEnd(tokens, entry) == ConsumeLineLoop(tokens, index, start)
        decreases |tokens| - index
      {
        ghost var before := index;
        var _ := Next();
        if Current() == ESCAPELINE {
          ConsumeLine();
          return;
        }
        if CurrentView().line != start || Current() == EOF {
          return;
        }
      }
    }

    /** `current_index`: where the token at the cursor began. */
    function CurrentIndex(): (i: nat)
      reads this
      requires Valid()
      ensures i == ViewAt(tokens, index).index
    {
      CurrentView().index
    }

    /** `current_line`: the line of the token at the cursor. */
    function CurrentLine(): (l: nat)
      reads this
      requires Valid()
      ensures l == ViewAt(tokens, index).line
    {
      CurrentView().line
    }
  }
}
