/** The boot monitor's command language: taking a line apart, and printing a function body. */
module MonitorTokens {
  import opened Maybe

  type Octet = c: nat | c < 256
  type Text = seq<Octet>                // a C string without its terminating 0

  const SPACE: Octet := 32
  const NEWLINE: Octet := 10
  const OPEN: Octet := 40
  const CLOSE: Octet := 41
  const SEMI: Octet := 59
  const LBRACE: Octet := 123
  const RBRACE: Octet := 125

  /** strchr("=(){};\n", c): the terminating 0 is found too. */
  predicate Sugar(c: Octet) { c == 0 || c == NEWLINE || c == OPEN || c == CLOSE || c == SEMI || c == 61 ||
      c == LBRACE || c == RBRACE }

  // ---------------------------------------------------------------- onetoken

  /** Without leading spaces and runs of newlines. */
  function Skip(s: Text): (r: Text)
    ensures |r| <= |s|
  {
    if s != [] && (s[0] == SPACE || (s[0] == NEWLINE && |s| > 1 && s[1] == NEWLINE)) then Skip(s[1..]) else s
  }

  /** The depth after reading c. */
  function Deeper(c: Octet,
                  depth: int): int { if c == OPEN then depth + 1 else if c == CLOSE then depth - 1 else depth }

  /** How far a function argument goes: to the matching parenthesis, or to a control character. */
  function ArgLen(s: Text, depth: int): (n: nat)
    ensures n <= |s|
  {
    if s == [] || s[0] < SPACE then 0
    else if s[0] == CLOSE && depth == 1 then 1
    else 1 + ArgLen(s[1..], Deeper(s[0], depth))
  }

  function WordLen(s: Text): (n: nat)
    ensures n <= |s|
  {
    if s != [] && s[0] > SPACE && !Sugar(s[0]) then 1 + WordLen(s[1..]) else 0
  }

  function TokenLen(s: Text): (n: nat)
    requires s != [] && (s[0] >= SPACE || s[0] == NEWLINE)
    ensures 0 < n <= |s|
  {
    if s[0] == OPEN then 1 + ArgLen(s[1..], 1)
    else if Sugar(s[0]) then 1
    else 1 + WordLen(s[1..])
  }

  /** One token, ';' standing for '\n', and the rest of the line; nothing at odd junk or the end. */
  function OneToken(line: Text): (r: Option<(Text, Text)>)
    ensures r.Some? ==> |r.value.1| < |line|
  {
    var s := Skip(line);
    if s == [] || (s[0] < SPACE && s[0] != NEWLINE) then None
    else
      var n := TokenLen(s);
      Some((if s[0] == NEWLINE then [SEMI] else s[..n], s[n..]))
  }

  function Tokenize(line: Text): seq<Text>
    decreases |line|
  {
    match OneToken(line)
    case None => []
    case Some(pair) => [pair.0] + Tokenize(pair.1)
  }

  // ---------------------------------------------------------------- the tokens there are

  /** t continues an argument at this depth without closing it. */
  predicate Opens(t: Text, depth: int) {
    t == [] || (t[0] >= SPACE && !(t[0] == CLOSE && depth == 1) && Opens(t[1..], Deeper(t[0], depth)))
  }

  /** t continues an argument and its last character closes it. */
  predicate Closes(t: Text, depth: int) {
    t != [] && t[0] >= SPACE &&
    if t[0] == CLOSE && depth == 1 then |t| == 1 else Closes(t[1..], Deeper(t[0], depth))
  }

  predicate IsSugar(t: Text) { |t| == 1 && t[0] > SPACE && Sugar(t[0]) && t[0] != OPEN }
  predicate IsWord(t: Text) { t != [] && forall i :: 0 <= i < |t| ==> t[i] > SPACE && !Sugar(t[i]) }
  predicate IsArg(t: Text) { t != [] && t[0] == OPEN && Closes(t[1..], 1) }
  /** An argument that a control character or the end of the line cut short. */
  predicate IsTorn(t: Text) { t != [] && t[0] == OPEN && Opens(t[1..], 1) }

  predicate IsToken(t: Text) { IsSugar(t) || IsWord(t) || IsArg(t) || IsTorn(t) }

  // ---------------------------------------------------------------- printing a function body

  /** Tokens run together, with a space between two that are not sugar; end tells if a sugar token follows. */
  function Print(ts: seq<Text>, end: bool): Text
    requires forall i :: 0 <= i < |ts| ==> ts[i] != []
  {
    if ts == [] then []
    else ts[0] + Gap(ts[0], if |ts| > 1 then Sugar(ts[1][0]) else end) + Print(ts[1..], end)
  }

  function Gap(t: Text, sweet: bool): Text
    requires t != []
  {
    if !Sugar(t[0]) && !sweet then [SPACE] else []
  }

  // ---------------------------------------------------------------- reading one token back

  lemma {:induction false} ArgLenCloses(t: Text, rest: Text, depth: int)
    requires Closes(t, depth)
    ensures ArgLen(t + rest, depth) == |t|
  {
    if !(t[0] == CLOSE && depth == 1) {
      ArgLenCloses(t[1..], rest, Deeper(t[0], depth));
      assert (t + rest)[1..] == t[1..] + rest;
    }
  }

  lemma {:induction false} ArgLenOpens(t: Text, rest: Text, depth: int) returns (d: int)
    requires Opens(t, depth)
    ensures ArgLen(t + rest, depth) == |t| + ArgLen(rest, d)
  {
    if t == [] {
      d := depth;
      assert t + rest == rest;
    } else {
      d := ArgLenOpens(t[1..], rest, Deeper(t[0], depth));
      assert (t + rest)[1..] == t[1..] + rest;
    }
  }

  lemma {:induction false} WordLenStops(t: Text, rest: Text)
    requires forall i :: 0 <= i < |t| ==> t[i] > SPACE && !Sugar(t[i])
    requires rest == [] || rest[0] <= SPACE || Sugar(rest[0])
    ensures WordLen(t + rest) == |t|
  {
    if t == [] {
      assert t + rest == rest;
    } else {
      WordLenStops(t[1..], rest);
      assert (t + rest)[1..] == t[1..] + rest;
    }
  }

  /** What may follow a token without changing it. */
  predicate Ends(t: Text, rest: Text)
    requires IsToken(t)
  {
    rest == []
    || ((IsWord(t) ==> rest[0] <= SPACE || Sugar(rest[0])) && (IsTorn(t) ==> rest[0] < SPACE))
  }

  lemma TokenStart(t: Text, rest: Text)
    requires IsToken(t)
    ensures Skip(t + rest) == t + rest && (t + rest)[1..] == t[1..] + rest && (t + rest)[0] == t[0] > SPACE
  {
  }

  lemma ReadsBack(t: Text, rest: Text)
    requires IsToken(t) && Ends(t, rest)
    ensures OneToken(t + rest) == Some((t, rest))
  {
    TokenStart(t, rest);
    var s := t + rest;
    assert TokenLen(s) == |t| by {
      if IsArg(t) {
        ArgLenCloses(t[1..], rest, 1);
      } else if IsTorn(t) {
        var d := ArgLenOpens(t[1..], rest, 1);
      } else if IsWord(t) {
        WordLenStops(t[1..], rest);
      }
    }
    assert s[..|t|] == t && s[|t|..] == rest;
  }

  /** A torn argument swallows what is printed after it. */
  lemma TornSwallows(t: Text, rest: Text)
    requires IsTorn(t) && rest != [] && rest[0] >= SPACE
    ensures OneToken(t + rest).Some? && OneToken(t + rest).value.0 != t
  {
    TokenStart(t, rest);
    var d := ArgLenOpens(t[1..], rest, 1);
    assert ArgLen(rest, d) >= 1;
    assert TokenLen(t + rest) > |t|;
  }

  // ---------------------------------------------------------------- the round trip

  predicate AllTokens(ts: seq<Text>) { forall i :: 0 <= i < |ts| ==> ts[i] != [] && IsToken(ts[i]) }

  /** Only the last token may be torn. */
  predicate Whole(ts: seq<Text>) { forall i :: 0 <= i < |ts| - 1 ==> !IsTorn(ts[i]) }

  lemma PrintStarts(ts: seq<Text>, end: bool)
    requires AllTokens(ts) && ts != []
    ensures Print(ts, end) != [] && Print(ts, end)[0] == ts[0][0]
  {
  }

  /** A space before the rest of a line is skipped. */
  lemma SkipsSpace(s: Text)
    ensures Tokenize([SPACE] + s) == Tokenize(s)
  {
    assert ([SPACE] + s)[1..] == s;
    assert Skip([SPACE] + s) == Skip(s);
    assert OneToken([SPACE] + s) == OneToken(s);
  }

  lemma TokenKinds(t: Text)
    requires IsToken(t)
    ensures Sugar(t[0]) <==> !IsWord(t)
    ensures IsTorn(t) ==> !IsArg(t) && !IsSugar(t)
  {
    if t[0] == OPEN && Opens(t[1..], 1) && Closes(t[1..], 1) { NotBoth(t[1..], 1); }
  }

  lemma {:induction false} NotBoth(t: Text, depth: int)
    requires Opens(t, depth)
    ensures !Closes(t, depth)
  {
    if t != [] { NotBoth(t[1..], Deeper(t[0], depth)); }
  }

  lemma PrintSplit(ts: seq<Text>, end: bool)
    requires AllTokens(ts) && ts != []
    ensures var gap := Gap(ts[0], if |ts| > 1 then Sugar(ts[1][0]) else end);
            Print(ts, end) == ts[0] + (gap + Print(ts[1..], end))
  {
    var gap, tail := Gap(ts[0], if |ts| > 1 then Sugar(ts[1][0]) else end), Print(ts[1..], end);
    assert ts[0] + gap + tail == ts[0] + (gap + tail);
  }

  lemma WholeSplit(ts: seq<Text>)
    requires ts != []
    ensures Whole(ts) <==> Whole(ts[1..]) && (|ts| > 1 ==> !IsTorn(ts[0]))
  {
    assert forall i :: 0 <= i < |ts| - 1 ==> ts[1..][i] == ts[i + 1];
  }

  lemma TokenizeStep(t: Text, gap: Text, tail: Text)
    requires IsToken(t) && Ends(t, gap + tail) && (gap == [] || gap == [SPACE])
    ensures Tokenize(t + (gap + tail)) == [t] + Tokenize(tail)
  {
    ReadsBack(t, gap + tail);
    if gap == [SPACE] { SkipsSpace(tail); } else { assert gap + tail == tail; }
  }

  /** A torn argument that is not the last token is lost. */
  lemma TornBreaks(ts: seq<Text>, end: bool)
    requires AllTokens(ts) && |ts| > 1 && IsTorn(ts[0])
    ensures Tokenize(Print(ts, end)) != ts
  {
    var t, tail := ts[0], Print(ts[1..], end);
    PrintSplit(ts, end);
    PrintStarts(ts[1..], end);
    TokenKinds(ts[1]);
    assert [] + tail == tail;
    TornSwallows(t, tail);
  }

  /** Any other token is read back, and then the rest. */
  lemma FirstReadsBack(ts: seq<Text>, end: bool)
    requires AllTokens(ts) && ts != [] && (|ts| == 1 || !IsTorn(ts[0]))
    ensures Tokenize(Print(ts, end)) == [ts[0]] + Tokenize(Print(ts[1..], end))
  {
    var t := ts[0];
    PrintSplit(ts, end);
    TokenKinds(t);
    if |ts| > 1 {
      PrintStarts(ts[1..], end);
      TokenKinds(ts[1]);
    }
    TokenizeStep(t, Gap(t, if |ts| > 1 then Sugar(ts[1][0]) else end), Print(ts[1..], end));
  }

  /**
   * Printing tokens and taking the result apart gives them back exactly when no token but the last
   * is a torn argument.
   */
  lemma {:induction false} RoundTripIff(ts: seq<Text>, end: bool)
    requires AllTokens(ts)
    ensures Tokenize(Print(ts, end)) == ts <==> Whole(ts)
  {
    if ts != [] {
      WholeSplit(ts);
      if |ts| > 1 && IsTorn(ts[0]) {
        TornBreaks(ts, end);
      } else {
        RoundTripIff(ts[1..], end);
        FirstReadsBack(ts, end);
        assert ts == [ts[0]] + ts[1..];
      }
    }
  }

  // ---------------------------------------------------------------- what tokenizing yields

  lemma {:induction false} ArgSplits(s: Text, depth: int)
    ensures var n := ArgLen(s, depth); Closes(s[..n], depth) || (Opens(s[..n], depth) && (n < |s| ==> s[n] < SPACE))
  {
    var n := ArgLen(s, depth);
    if n > 0 && !(s[0] == CLOSE && depth == 1) {
      ArgSplits(s[1..], Deeper(s[0], depth));
      assert s[..n][1..] == s[1..][..n - 1];
    }
  }

  lemma {:induction false} WordSplits(s: Text)
    ensures forall i :: 0 <= i < WordLen(s) ==> s[i] > SPACE && !Sugar(s[i])
  {
    if WordLen(s) > 0 {
      WordSplits(s[1..]);
      assert forall i :: 1 <= i < WordLen(s) ==> s[i] == s[1..][i - 1];
    }
  }

  lemma {:induction false} SkipStops(s: Text)
    ensures Skip(s) != [] ==> Skip(s)[0] != SPACE
    ensures s != [] && s[0] == NEWLINE ==> Skip(s) != [] && Skip(s)[0] == NEWLINE
  {
    if Skip(s) != s { SkipStops(s[1..]); }
  }

  /** A token is one of the four kinds, and only a control character or the end tears an argument. */
  lemma OneTokenIs(line: Text)
    requires OneToken(line).Some?
    ensures var (t, rest) := OneToken(line).value; IsToken(t) && (IsTorn(t) && rest != [] ==> rest[0] < SPACE)
  {
    var s := Skip(line);
    SkipStops(line);
    var n := TokenLen(s);
    if s[0] == OPEN {
      ArgSplits(s[1..], 1);
      assert s[..n][1..] == s[1..][..n - 1];
      TokenKinds(s[..n]);
    } else if !Sugar(s[0]) {
      WordSplits(s[1..]);
      assert forall i :: 1 <= i < n ==> s[i] == s[1..][i - 1];
    }
  }

  /** Every line gives tokens; one that is torn is the last, or a newline follows it. */
  lemma {:induction false} TokenizeYields(line: Text)
    ensures var ts := Tokenize(line);
            AllTokens(ts) && forall i :: 0 <= i < |ts| - 1 && IsTorn(ts[i]) ==> ts[i + 1] == [SEMI]
    decreases |line|
  {
    if OneToken(line).Some? {
      var (t, rest) := OneToken(line).value;
      OneTokenIs(line);
      TokenizeYields(rest);
      var ts, more := Tokenize(line), Tokenize(rest);
      assert ts == [t] + more;
      if IsTorn(t) && more != [] {
        SkipStops(rest);
        assert rest[0] == NEWLINE && more[0] == [SEMI];
      }
      forall i | 0 <= i < |ts| - 1 && IsTorn(ts[i]) ensures ts[i + 1] == [SEMI] {
        if i > 0 { assert ts[i] == more[i - 1] && ts[i + 1] == more[i]; }
      }
    }
  }
}
