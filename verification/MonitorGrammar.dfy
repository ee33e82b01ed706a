/** The lines of the boot monitor, character by character, and the tokens they stand for. */
module MonitorGrammar {
  import opened Maybe
  import opened MonitorTokens

  /** The characters that are tokens of their own. */
  predicate Mark(c: Octet) {
    c == '=' as int || c == '{' as int || c == '}' as int || c == ';' as int || c == ')' as int
  }

  predicate Letter(c: Octet) { c > ' ' as int && c != '(' as int && !Mark(c) }

  /** The parentheses left open by t. */
  function Depth(t: Text): int {
    if t == [] then 0
    else Depth(t[..|t| - 1]) + (if t[|t| - 1] == '(' as int then 1 else if t[|t| - 1] == ')' as int then -1 else 0)
  }

  /** Printable text whose parentheses match. */
  predicate Balanced(t: Text) {
    && (forall i :: 0 <= i < |t| ==> t[i] >= ' ' as int)
    && (forall i :: 0 <= i <= |t| ==> Depth(t[..i]) >= 0) && Depth(t) == 0
  }

  /** What a line is made of: words, marks, stretches of spaces and of newlines, and arguments in parentheses. */
  datatype Piece = Word(t: Text) | Sign(c: Octet) | Blanks(n: nat) | Lines(n: nat) | Arg(inner: Text) {

    predicate Valid() {
      match this
      case Word(t) => t != [] && forall i :: 0 <= i < |t| ==> Letter(t[i])
      case Sign(c) => Mark(c)
      case Blanks(n) => n > 0
      case Lines(n) => n > 0
      case Arg(inner) => Balanced(inner)
    }

    function Text(): Text {
      match this
      case Word(t) => t
      case Sign(c) => [c]
      case Blanks(n) => Many(' ' as int, n)
      case Lines(n) => Many('\n' as int, n)
      case Arg(inner) => ['(' as int] + inner + [')' as int]
    }

    /** A word, a mark and an argument are tokens as they are; newlines are a semicolon. */
    function Tokens(): seq<Text> {
      match this
      case Word(t) => [t]
      case Sign(c) => [[c]]
      case Blanks(_) => []
      case Lines(_) => [[';' as int]]
      case Arg(inner) => [['(' as int] + inner + [')' as int]]
    }
  }

  function Many(c: Octet, n: nat): (t: Text)
    ensures |t| == n && forall i :: 0 <= i < n ==> t[i] == c
  {
    seq(n, _ => c)
  }

  /** No two words and no two stretches of newlines come one after the other. */
  predicate Separate(ps: seq<Piece>) {
    && (forall i :: 0 <= i < |ps| ==> ps[i].Valid())
    && forall i :: 0 < i < |ps| ==> !(ps[i - 1].Word? && ps[i].Word?) && !(ps[i - 1].Lines? && ps[i].Lines?)
  }

  function Line(ps: seq<Piece>): Text { if ps == [] then [] else ps[0].Text() + Line(ps[1..]) }

  function Meaning(ps: seq<Piece>): seq<Text> { if ps == [] then [] else ps[0].Tokens() + Meaning(ps[1..]) }

  // ---------------------------------------------------------------- one piece

  lemma DepthNext(t: Text, i: nat)
    requires i < |t|
    ensures Depth(t[..i + 1]) ==
            Depth(t[..i]) + (if t[i] == '(' as int then 1 else if t[i] == ')' as int then -1 else 0)
  {
    assert t[..i + 1][..i] == t[..i];
  }

  /** What is left of a balanced argument closes it. */
  lemma {:induction false} RestCloses(inner: Text, i: nat)
    requires Balanced(inner) && i <= |inner|
    ensures Closes(inner[i..] + [CLOSE], 1 + Depth(inner[..i]))
    decreases |inner| - i
  {
    var rest := inner[i..] + [CLOSE];
    if i == |inner| {
      assert inner[..i] == inner && rest == [CLOSE];
    } else {
      DepthNext(inner, i);
      RestCloses(inner, i + 1);
      assert rest[1..] == inner[i + 1..] + [CLOSE];
      assert Depth(inner[..i + 1]) >= 0;
    }
  }

  lemma ArgIs(inner: Text)
    requires Balanced(inner)
    ensures IsArg([OPEN] + inner + [CLOSE])
  {
    RestCloses(inner, 0);
    var t := [OPEN] + inner + [CLOSE];
    assert t[1..] == inner[0..] + [CLOSE] && inner[..0] == [];
  }

  /** What comes after a word or a stretch of newlines is something else. */
  lemma LineStarts(ps: seq<Piece>)
    requires Separate(ps) && ps != []
    ensures Line(ps) != [] && Line(ps)[0] == ps[0].Text()[0]
    ensures !ps[0].Word? ==> Line(ps)[0] <= SPACE || Sugar(Line(ps)[0])
    ensures !ps[0].Lines? ==> Line(ps)[0] != NEWLINE
  {
  }

  lemma Skipping(t: Text, rest: Text)
    requires t != [] && t[0] == SPACE
    ensures Tokenize(t + rest) == Tokenize(t[1..] + rest)
  {
    assert t + rest == [SPACE] + (t[1..] + rest);
    SkipsSpace(t[1..] + rest);
  }

  lemma {:induction false} BlanksSkipped(n: nat, rest: Text)
    ensures Tokenize(Many(SPACE, n) + rest) == Tokenize(rest)
  {
    var t := Many(SPACE, n);
    if n == 0 {
      assert t + rest == rest;
    } else {
      assert t[1..] == Many(SPACE, n - 1);
      Skipping(t, rest);
      BlanksSkipped(n - 1, rest);
    }
  }

  lemma {:induction false} RunSkipped(n: nat, rest: Text)
    requires n > 0 && (rest == [] || rest[0] != NEWLINE)
    ensures Skip(Many(NEWLINE, n) + rest) == [NEWLINE] + rest
  {
    var s := Many(NEWLINE, n) + rest;
    if n == 1 {
      assert s == [NEWLINE] + rest;
    } else {
      assert s[1..] == Many(NEWLINE, n - 1) + rest && s[1] == NEWLINE;
      RunSkipped(n - 1, rest);
    }
  }

  lemma LinesAreSemicolon(n: nat, rest: Text)
    requires n > 0 && (rest == [] || rest[0] != NEWLINE)
    ensures Tokenize(Many(NEWLINE, n) + rest) == [[SEMI]] + Tokenize(rest)
  {
    RunSkipped(n, rest);
    var s := [NEWLINE] + rest;
    assert TokenLen(s) == 1 && s[1..] == rest;
  }

  lemma TokenFirst(t: Text, rest: Text)
    requires IsToken(t) && Ends(t, rest)
    ensures Tokenize(t + rest) == [t] + Tokenize(rest)
  {
    ReadsBack(t, rest);
  }

  lemma PieceFirst(ps: seq<Piece>)
    requires Separate(ps) && ps != []
    ensures Tokenize(Line(ps)) == ps[0].Tokens() + Tokenize(Line(ps[1..]))
  {
    var rest := Line(ps[1..]);
    if |ps| > 1 {
      assert Separate(ps[1..]);
      LineStarts(ps[1..]);
    }
    match ps[0]
    case Word(t) =>
      assert IsWord(t);
      TokenFirst(t, rest);
    case Sign(c) =>
      assert IsSugar([c]) && !IsWord([c]);
      TokenFirst([c], rest);
    case Blanks(n) => BlanksSkipped(n, rest);
    case Lines(n) => LinesAreSemicolon(n, rest);
    case Arg(inner) =>
      ArgIs(inner);
      TokenKinds([OPEN] + inner + [CLOSE]);
      TokenFirst([OPEN] + inner + [CLOSE], rest);
  }

  /** tokenize takes every line apart into what it stands for. */
  lemma {:induction false} TokenizeMeans(ps: seq<Piece>)
    requires Separate(ps)
    ensures Tokenize(Line(ps)) == Meaning(ps)
  {
    if ps != [] {
      assert Separate(ps[1..]);
      PieceFirst(ps);
      TokenizeMeans(ps[1..]);
    }
  }

  lemma Cons(p: Piece, ps: seq<Piece>)
    ensures Line([p] + ps) == p.Text() + Line(ps) && Meaning([p] + ps) == p.Tokens() + Meaning(ps)
  {
    assert ([p] + ps)[1..] == ps;
  }

  lemma Regroup<T>(a: seq<T>, b: seq<T>, c: seq<T>)
    ensures a + (b + (c + [])) == a + b + c
  {
  }

  lemma ThreePieces(x: Piece, y: Piece, z: Piece)
    ensures Line([x, y, z]) == x.Text() + y.Text() + z.Text()
    ensures Meaning([x, y, z]) == x.Tokens() + y.Tokens() + z.Tokens()
  {
    Cons(z, []);
    Cons(y, [z]);
    Cons(x, [y, z]);
    assert [z] + [] == [z] && [y] + [z] == [y, z] && [x] + [y, z] == [x, y, z];
    Regroup(x.Text(), y.Text(), z.Text());
    Regroup(x.Tokens(), y.Tokens(), z.Tokens());
  }

  /** Two words with something between them. */
  lemma BetweenWords(a: Text, mid: Piece, b: Text)
    requires Word(a).Valid() && Word(b).Valid() && mid.Valid() && !mid.Word?
    ensures Tokenize(a + mid.Text() + b) == [a] + mid.Tokens() + [b]
  {
    ThreePieces(Word(a), mid, Word(b));
    TokenizeMeans([Word(a), mid, Word(b)]);
  }

  /** Two words with a mark, a space or a newline between them. */
  lemma TwoWords(a: Text, c: Octet, b: Text)
    requires Word(a).Valid() && Word(b).Valid() && (Mark(c) || c == ' ' as int || c == '\n' as int)
    ensures Tokenize(a + [c] + b) ==
            if Mark(c) then [a, [c], b] else if c == ' ' as int then [a, b] else [a, [';' as int], b]
  {
    var mid := if Mark(c) then Sign(c) else if c == ' ' as int then Blanks(1) else Lines(1);
    assert mid.Text() == [c];
    BetweenWords(a, mid, b);
  }
}
