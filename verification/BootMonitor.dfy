/** The boot monitor's command chain and environment: defining a function, and calling it. */
module BootMonitor {
  import opened Maybe
  import opened MonitorTokens

  // ---------------------------------------------------------------- the environment

  datatype Entry = Entry(special: bool, dev: bool, reserved: bool, variable: bool, function_: bool,
                         arg: Text, value: Text, defval: Option<Text>)

  type Environment = map<Text, Entry>

  function Octets(s: string): Text
    requires forall i :: 0 <= i < |s| ==> s[i] as int < 256
  {
    seq(|s|, i requires 0 <= i < |s| => s[i] as int)
  }

  predicate Reserved(name: Text) {
    name in {Octets("boot"), Octets("ctty"), Octets("delay"), Octets("echo"), Octets("exit"), Octets("help"),
        Octets("ls"),
             Octets("menu"), Octets("off"), Octets("save"), Octets("set"), Octets("trap"), Octets("unset")}
  }

  /** b_body */
  function FunctionBody(env: Environment, name: Text): Option<Text> {
    if name in env && env[name].function_ then Some(env[name].value) else None
  }

  /** b_setenv(E_FUNCTION, ...): refused for reserved names and special variables. */
  function SetFunction(env: Environment, name: Text, arg: Text, body: Text): (r: Option<Environment>)
    ensures r.Some? ==> FunctionBody(r.value, name) == Some(body) && r.value.Keys == env.Keys + {name}
    ensures r.Some? ==> r.value[name].arg == arg && forall x :: x in env && x != name ==> r.value[x] == env[x]
    ensures r.None? <==> if name in env then env[name].special && FunctionBody(env, name).None? else Reserved(name)
  {
    if name !in env then
      if Reserved(name) then None
      else Some(env[name := Entry(false, false, false, false, true, arg, body, None)])
    else
      var e := env[name];
      if e.special && !e.function_ then None
      else
        var defval := if e.special && e.defval.None? then Some(e.value) else e.defval;
        Some(env[name := Entry(e.special, e.dev, e.reserved, false, true, arg, body, defval)])
  }

  // ---------------------------------------------------------------- define and call, on values

  datatype Mon = Mon(cmds: seq<Text>, env: Environment, err: bool)

  /** No empty tokens, and a separator at the end. */
  predicate Chained(cmds: seq<Text>) {
    cmds != [] && cmds[|cmds| - 1] == [SEMI] && forall i :: 0 <= i < |cmds| ==> cmds[i] != []
  }

  /** Where a function body ends, and how many braces it leaves open. */
  function BodyEnd(ts: seq<Text>, depth: int): (r: (nat, int))
    requires forall i :: 0 <= i < |ts| ==> ts[i] != []
    ensures r.0 <= |ts|
  {
    if ts == [] || (ts[0][0] == SEMI && depth == 0) then (0, depth)
    else
      var c := ts[0][0];
      var d := if c == LBRACE then depth + 1 else if c == RBRACE then depth - 1 else depth;
      if c == RBRACE && d == 0 then (1, 0)
      else
        var (n, e) := BodyEnd(ts[1..], d);
        (n + 1, e)
  }

  /** The braces that tokens leave open. */
  function Braces(ts: seq<Text>): int
    requires forall i :: 0 <= i < |ts| ==> ts[i] != []
  {
    if ts == [] then 0
    else
      var t := ts[|ts| - 1][0];
      Braces(ts[..|ts| - 1]) + (if t == '{' as int then 1 else if t == '}' as int then -1 else 0)
  }

  /** A body may end at place k: all braces are closed, and there is a semicolon, or just was a closing brace. */
  predicate MayEnd(ts: seq<Text>, k: nat)
    requires k <= |ts| && forall i :: 0 <= i < |ts| ==> ts[i] != []
  {
    Braces(ts[..k]) == 0 && ((k < |ts| && ts[k][0] == ';' as int) || (k > 0 && ts[k - 1][0] == '}' as int))
  }

  lemma BracesNext(ts: seq<Text>, k: nat)
    requires k < |ts| && forall i :: 0 <= i < |ts| ==> ts[i] != []
    ensures Braces(ts[..k + 1]) ==
            Braces(ts[..k]) + (if ts[k][0] == '{' as int then 1 else if ts[k][0] == '}' as int then -1 else 0)
  {
    assert ts[..k + 1][..k] == ts[..k];
  }

  /** From place k on, e is the first place where a body may end, or the last, with depth braces left open. */
  predicate EndsAt(ts: seq<Text>, k: nat, e: nat, depth: int)
    requires forall i :: 0 <= i < |ts| ==> ts[i] != []
  {
    && k <= e <= |ts| && depth == Braces(ts[..e]) && (e == |ts| || MayEnd(ts, e))
    && forall j :: k <= j < e ==> !MayEnd(ts, j)
  }

  lemma EndsBefore(ts: seq<Text>, k: nat, e: nat, depth: int)
    requires k < |ts| && (forall i :: 0 <= i < |ts| ==> ts[i] != []) && EndsAt(ts, k + 1, e, depth) && !MayEnd(ts, k)
    ensures EndsAt(ts, k, e, depth)
  {
  }

  lemma EndsHere(ts: seq<Text>, k: nat, rest: seq<Text>, d: int)
    requires k <= |ts| && (forall i :: 0 <= i < |ts| ==> ts[i] != []) && rest == ts[k..] && d == Braces(ts[..k])
    requires k == |ts| || (ts[k][0] == SEMI && d == 0)
    ensures EndsAt(ts, k, k, d) && BodyEnd(rest, d) == (0, d)
  {
  }

  /** One token further; a closing brace may be the last. */
  lemma EndsNext(ts: seq<Text>, k: nat, rest: seq<Text>, d: int, d': int)
    requires k < |ts| && (forall i :: 0 <= i < |ts| ==> ts[i] != []) && rest == ts[k..]
    requires d == Braces(ts[..k]) && d' == Braces(ts[..k + 1]) && !(ts[k][0] == SEMI && d == 0)
    ensures rest[1..] == ts[k + 1..]
    ensures BodyEnd(rest, d) == if ts[k][0] == RBRACE && d' == 0 then (1, 0)
                                else (1 + BodyEnd(rest[1..], d').0, BodyEnd(rest[1..], d').1)
  {
    BracesNext(ts, k);
  }

  lemma {:induction false} EndFrom(ts: seq<Text>, k: nat, rest: seq<Text>, d: int)
    requires k <= |ts| && (forall i :: 0 <= i < |ts| ==> ts[i] != []) && rest == ts[k..] && d == Braces(ts[..k])
    requires k > 0 ==> !(ts[k - 1][0] == RBRACE && d == 0)
    ensures EndsAt(ts, k, k + BodyEnd(rest, d).0, BodyEnd(rest, d).1)
    decreases |ts| - k
  {
    if k == |ts| || (ts[k][0] == SEMI && d == 0) {
      EndsHere(ts, k, rest, d);
    } else {
      var d' := Braces(ts[..k + 1]);
      EndsNext(ts, k, rest, d, d');
      if ts[k][0] == RBRACE && d' == 0 {
        assert MayEnd(ts, k + 1);
        EndsBefore(ts, k, k + 1, 0);
      } else {
        EndFrom(ts, k + 1, rest[1..], d');
        EndsBefore(ts, k, k + BodyEnd(rest, d).0, BodyEnd(rest, d).1);
      }
    }
  }

  /** A function body goes to the first place where it may end, or to the end of the commands. */
  lemma BodyEndIs(ts: seq<Text>)
    requires forall i :: 0 <= i < |ts| ==> ts[i] != []
    ensures EndsAt(ts, 0, BodyEnd(ts, 0).0, BodyEnd(ts, 0).1)
  {
    assert ts[0..] == ts && ts[..0] == [];
    EndFrom(ts, 0, ts, 0);
  }

  /** name '(arg)' ...: the branch of execute that defines a function. */
  predicate Defines(cmds: seq<Text>) {
    && Chained(cmds) && |cmds| >= 4 && cmds[0][0] != SEMI && cmds[2][0] != SEMI
    && !Sugar(cmds[0][0]) && cmds[1][0] == OPEN
  }

  function BodyOf(cmds: seq<Text>): (ts: seq<Text>)
    requires Defines(cmds)
    ensures forall i :: 0 <= i < |ts| ==> ts[i] != []
  {
    cmds[2..][..BodyEnd(cmds[2..], 0).0]
  }

  function Following(cmds: seq<Text>): bool
    requires Defines(cmds)
  {
    var k := 2 + BodyEnd(cmds[2..], 0).0;
    k == |cmds| || Sugar(cmds[k][0])
  }

  /** What is between the parentheses. */
  function Inside(arg: Text): Text { if |arg| <= 1 then [] else arg[1..|arg| - 1] }

  function Define(m: Mon): Mon
    requires Defines(m.cmds)
  {
    var (n, depth) := BodyEnd(m.cmds[2..], 0);
    var arg := m.cmds[1];
    var rest := m.cmds[2 + n..];
    if depth != 0 then Mon(rest, m.env, true)                   // Missing '}'
    else
      match SetFunction(m.env, m.cmds[0], Inside(arg), Print(BodyOf(m.cmds), Following(m.cmds)))
      case None => Mon(rest, m.env, true)
      case Some(env) => Mon(rest, env, m.err)
  }

  /** name: a simple command that the monitor does not know itself. */
  predicate Calls(cmds: seq<Text>) {
    Chained(cmds) && |cmds| >= 2 && cmds[0][0] != SEMI && cmds[1][0] == SEMI && cmds[0][0] != LBRACE &&
        !Reserved(cmds[0])
  }

  function Call(m: Mon): Mon
    requires Calls(m.cmds)
  {
    var rest := m.cmds[1..];
    if m.cmds[0] == Octets(":") then Mon(rest, m.env, m.err)
    else
      match FunctionBody(m.env, m.cmds[0])
      case None => Mon(rest, m.env, true)                       // unknown function
      case Some(body) => Mon(Tokenize(body) + rest, m.env, m.err)
  }

  /**
   * Calling a function puts exactly the tokens that defined it in front of the command chain, provided
   * no torn argument was inside its body, and only then.
   */
  lemma DefineThenCallIff(m: Mon, later: Mon)
    requires Defines(m.cmds) && AllTokens(m.cmds) && BodyEnd(m.cmds[2..], 0).1 == 0
    requires SetFunction(m.env, m.cmds[0], [], []).Some? && m.cmds[0] != Octets(":") && !Reserved(m.cmds[0])
    requires later.env == Define(m).env && Calls(later.cmds) && later.cmds[0] == m.cmds[0]
    ensures Define(m).err == m.err && Call(later).err == later.err
    ensures Call(later).cmds == BodyOf(m.cmds) + later.cmds[1..] <==> Whole(BodyOf(m.cmds))
  {
    var ts, rest := BodyOf(m.cmds), later.cmds[1..];
    var got := Tokenize(Print(ts, Following(m.cmds)));
    assert AllTokens(ts);
    RoundTripIff(ts, Following(m.cmds));
    assert FunctionBody(later.env, m.cmds[0]) == Some(Print(ts, Following(m.cmds)));
    assert Call(later).cmds == got + rest;
    if got + rest == ts + rest {
      assert |got| == |ts|;
      assert got == (got + rest)[..|got|] == (ts + rest)[..|ts|] == ts;
    }
  }

  /** In a line without control characters nothing is torn apart, so every definition on it can be called. */
  lemma LineIsWhole(line: Text)
    requires forall i :: 0 <= i < |line| ==> line[i] != NEWLINE
    ensures Whole(Tokenize(line))
    decreases |line|
  {
    if OneToken(line).Some? {
      var (t, rest) := OneToken(line).value;
      RestOf(line);
      OneTokenIs(line);
      LineIsWhole(rest);
      WholeSplit(Tokenize(line));
      if IsTorn(t) && rest != [] { assert OneToken(rest).None?; }
    }
  }

  lemma {:induction false} SkipIsSuffix(s: Text)
    ensures exists k :: 0 <= k <= |s| && Skip(s) == s[k..]
  {
    if Skip(s) == s {
      assert s == s[0..];
    } else {
      SkipIsSuffix(s[1..]);
      var k :| 0 <= k <= |s| - 1 && Skip(s[1..]) == s[1..][k..];
      assert Skip(s) == s[k + 1..];
    }
  }

  lemma RestOf(line: Text)
    requires OneToken(line).Some?
    ensures forall i :: 0 <= i < |OneToken(line).value.1| ==> OneToken(line).value.1[i] in line
  {
    SkipIsSuffix(line);
  }

  // ---------------------------------------------------------------- the loops

  /** The argument loop of onetoken: one past its last character. */
  method ArgEnd(line: Text, start: nat) returns (p: nat)
    requires start < |line| && line[start] == OPEN
    ensures start < p <= |line| && p - start == 1 + ArgLen(line[start + 1..], 1)
  {
    var depth := 1;
    p := start + 1;
    while p < |line| && line[p] >= SPACE
      invariant start < p <= |line| && p - start - 1 + ArgLen(line[p..], depth) == ArgLen(line[start + 1..], 1)
    {
      assert line[p..][1..] == line[p + 1..];
      if line[p] == CLOSE && depth == 1 { p := p + 1; return; }
      depth := Deeper(line[p], depth);
      p := p + 1;
    }
  }

  method WordEnd(line: Text, start: nat) returns (p: nat)
    requires start < |line|
    ensures start < p <= |line| && p - start == 1 + WordLen(line[start + 1..])
  {
    p := start + 1;
    while p < |line| && line[p] > SPACE && !Sugar(line[p])
      invariant start < p <= |line| && p - start - 1 + WordLen(line[p..]) == WordLen(line[start + 1..])
    {
      assert line[p..][1..] == line[p + 1..];
      p := p + 1;
    }
  }

  /** Past spaces and runs of newlines. */
  method SkipSpace(line: Text, at: nat) returns (p: nat)
    requires at <= |line|
    ensures at <= p <= |line| && Skip(line[at..]) == line[p..]
  {
    p := at;
    while p < |line| && (line[p] == SPACE || (line[p] == NEWLINE && p + 1 < |line| && line[p + 1] == NEWLINE))
      invariant at <= p <= |line| && Skip(line[p..]) == Skip(line[at..])
    {
      assert line[p..][1..] == line[p + 1..];
      p := p + 1;
    }
  }

  method TokenEnd(line: Text, p: nat) returns (next: nat)
    requires p < |line| && (line[p] >= SPACE || line[p] == NEWLINE)
    ensures p < next <= |line| && next - p == TokenLen(line[p..])
  {
    assert line[p..][1..] == line[p + 1..];
    if line[p] == OPEN {
      next := ArgEnd(line, p);
    } else if Sugar(line[p]) {
      next := p + 1;
    } else {
      next := WordEnd(line, p);
    }
  }

  /** onetoken: the next token of the line from position at on, and where the rest starts. */
  method NextToken(line: Text, at: nat) returns (found: bool, tok: Text, next: nat)
    requires at <= |line|
    ensures next <= |line| && (found ==> at < next)
    ensures OneToken(line[at..]) == if found then Some((tok, line[next..])) else None
  {
    var p := SkipSpace(line, at);
    tok, next := [], p;
    if p == |line| || (line[p] < SPACE && line[p] != NEWLINE) { return false, tok, next; }
    next := TokenEnd(line, p);
    tok := if line[p] == NEWLINE then [SEMI] else line[p..next];
    assert line[p..][..next - p] == line[p..next] && line[p..][next - p..] == line[next..];
    found := true;
  }

  lemma PrintFrom(body: Text, ts: seq<Text>, i: nat, sweet: bool, end: bool)
    requires i < |ts| && forall j :: 0 <= j < |ts| ==> ts[j] != []
    requires sweet == if i + 1 < |ts| then Sugar(ts[i + 1][0]) else end
    ensures body + Print(ts[i..], end) == (if !Sugar(ts[i][0]) &&
            !sweet then body + ts[i] + [SPACE] else body + ts[i]) + Print(ts[i + 1..], end)
  {
    var us, tail := ts[i..], Print(ts[i + 1..], end);
    assert us[0] == ts[i] && us[1..] == ts[i + 1..] && (i + 1 < |ts| ==> us[1] == ts[i + 1]);
    assert Print(us, end) == ts[i] + Gap(ts[i], sweet) + tail;
    assert body + (ts[i] + Gap(ts[i], sweet) + tail) == body + ts[i] + Gap(ts[i], sweet) + tail;
  }

  lemma InsertStep(a: seq<Text>, done: seq<Text>, b: seq<Text>, tok: Text)
    ensures var s, n := a + done + b, |a| + |done|;
            s[..n] + [tok] + s[n..] == a + (done + [tok]) + b &&
                forall more: seq<Text> :: done + ([tok] + more) == done + [tok] + more
  {
    var s, n := a + done + b, |a| + |done|;
    assert s[..n] == a + done && s[n..] == b;
    assert a + done + [tok] + b == a + (done + [tok]) + b;
  }

  /** The monitor's globals. */
  class Monitor {
    var cmds: seq<Text>
    var env: Environment
    var err: bool

    constructor ()
      ensures State() == Mon([], map[], false)
    {
      cmds, env, err := [], map[], false;
    }

    function State(): Mon
      reads this
    {
      Mon(cmds, env, err)
    }

    /** tokenize: the tokens of a line, inserted into the chain; returns where another line could be added. */
    method Insert(at: nat, line: Text) returns (next: nat)
      requires at <= |cmds|
      modifies this`cmds
      ensures cmds == old(cmds)[..at] + Tokenize(line) + old(cmds)[at..]
      ensures next == at + |Tokenize(line)|
    {
      var p, found, tok := 0, true, [];
      ghost var done: seq<Text> := [];
      next := at;
      assert line[0..] == line;
      while true
        invariant p <= |line| && next == at + |done| && done + Tokenize(line[p..]) == Tokenize(line)
        invariant cmds == old(cmds)[..at] + done + old(cmds)[at..]
        decreases |line| - p
      {
        found, tok, p := NextToken(line, p);
        if !found { break; }
        InsertStep(old(cmds)[..at], done, old(cmds)[at..], tok);
        cmds := cmds[..next] + [tok] + cmds[next..];
        done := done + [tok];
        next := next + 1;
      }
    }

    /** The loop that finds the end of a function body. */
    method FindBody() returns (k: nat, depth: int)
      requires Defines(cmds)
      ensures k <= |cmds| - 2 && (k, depth) == BodyEnd(cmds[2..], 0)
    {
      k, depth := 0, 0;
      ghost var ts := cmds[2..];
      assert ts[0..] == ts;
      while k < |cmds| - 2
        invariant k <= |ts|
        invariant forall i :: 0 <= i < |ts| ==> ts[i] != []
        invariant BodyEnd(ts, 0) == (k + BodyEnd(ts[k..], depth).0, BodyEnd(ts[k..], depth).1)
      {
        var c := cmds[2 + k][0];
        assert ts[k] == cmds[2 + k] && ts[k..][1..] == ts[k + 1..];
        if c == SEMI && depth == 0 { return; }
        k := k + 1;
        if c == LBRACE { depth := depth + 1; }
        if c == RBRACE {
          depth := depth - 1;
          if depth == 0 { return; }
        }
      }
    }

    /** The loop that prints a function body. */
    method PrintBody(n: nat) returns (body: Text)
      requires Defines(cmds) && n == BodyEnd(cmds[2..], 0).0
      ensures body == Print(BodyOf(cmds), Following(cmds))
    {
      ghost var ts, end := BodyOf(cmds), Following(cmds);
      body := [];
      var i := 0;
      assert ts[0..] == ts;
      while i < n
        invariant i <= n == |ts| && forall j :: 0 <= j < n ==> ts[j] == cmds[2 + j] && ts[j] != []
        invariant body + Print(ts[i..], end) == Print(ts, end)
      {
        var t := cmds[2 + i];
        var sweet := 3 + i == |cmds| || Sugar(cmds[3 + i][0]);
        PrintFrom(body, ts, i, sweet, end);
        body := body + t;
        if !Sugar(t[0]) && !sweet { body := body + [SPACE]; }
        i := i + 1;
      }
    }

    /** execute, on a function definition. */
    method DefineFunction()
      requires Defines(cmds)
      modifies this
      ensures State() == Define(old(State()))
    {
      var n, depth := FindBody();
      var body := PrintBody(n);
      var arg := cmds[1];
      if depth != 0 {
        err := true;
      } else {
        match SetFunction(env, cmds[0], Inside(arg), body) {
          case None => err := true;
          case Some(e) => env := e;
        }
      }
      cmds := cmds[2 + n..];
    }

    /** execute, on the name of a function. */
    method CallFunction()
      requires Calls(cmds)
      modifies this
      ensures State() == Call(old(State()))
    {
      var name := cmds[0];
      cmds := cmds[1..];
      if name == Octets(":") { return; }
      match FunctionBody(env, name) {
        case None => err := true;
        case Some(body) => var next := Insert(0, body);
      }
    }
  }
}
