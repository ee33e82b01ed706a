/** The boot parameters: packed by the monitor, looked up by the kernel. */
module BootParams {
  import opened Maybe
  import opened MonitorTokens

  const EQUALS: Octet := 61

  /** One environment setting of the monitor. */
  datatype Setting = Setting(name: Text, value: Text, variable: bool, device: bool)

  /** What the kernel gets to see: a name and its value. */
  datatype Param = Param(name: Text, value: Text)

  predicate NoNul(s: Text) { forall i :: 0 <= i < |s| ==> s[i] != 0 }

  function Decimal(n: nat): (s: Text)
    ensures NoNul(s) && s != []
  {
    if n < 10 then [48 + n] else Decimal(n / 10) + [48 + n % 10]
  }

  predicate Digits(s: Text) { s != [] && forall i :: 0 <= i < |s| ==> '0' as int <= s[i] <= '9' as int }

  /** The number that digits stand for. */
  function Number(s: Text): nat
    requires Digits(s)
  {
    var last := s[|s| - 1] - '0' as int;
    if |s| == 1 then last else 10 * Number(s[..|s| - 1]) + last
  }

  /** ul2a10 gives the digits of the number, without leading zeros. */
  lemma {:induction false} DecimalIs(n: nat)
    ensures var s := Decimal(n); Digits(s) && Number(s) == n && (n > 0 ==> s[0] != '0' as int)
  {
    if n >= 10 {
      DecimalIs(n / 10);
      var s := Decimal(n);
      assert s[..|s| - 1] == Decimal(n / 10);
    }
  }

  /** The variables of the environment; device names become numbers, if they are known. */
  function Params(env: seq<Setting>, devices: map<Text, nat>): Option<seq<Param>> {
    if env == [] then Some([])
    else
      var e, more := env[0], Params(env[1..], devices);
      if !e.variable || more.None? then more
      else if !e.device then Some([Param(e.name, e.value)] + more.value)
      else if e.value in devices then Some([Param(e.name, Decimal(devices[e.value] % 0x1_0000))] + more.value)
      else None
  }

  /** The parameter that a variable becomes: its value, or the number of its device in digits, cut to 16 bits. */
  predicate Becomes(e: Setting, devices: map<Text, nat>, p: Param) {
    && p.name == e.name
    && if !e.device then p.value == e.value
       else e.value in devices && Digits(p.value) && Number(p.value) == devices[e.value] % 0x1_0000
  }

  function Variables(env: seq<Setting>): (vs: seq<Setting>)
    ensures forall e :: e in vs <==> e in env && e.variable
  {
    if env == [] then [] else if env[0].variable then [env[0]] + Variables(env[1..]) else Variables(env[1..])
  }

  predicate Unknown(vs: seq<Setting>, devices: map<Text, nat>) {
    exists i :: 0 <= i < |vs| && vs[i].device && vs[i].value !in devices
  }

  predicate AllBecome(vs: seq<Setting>, devices: map<Text, nat>, ps: seq<Param>) {
    |ps| == |vs| && forall i :: 0 <= i < |vs| ==> Becomes(vs[i], devices, ps[i])
  }

  lemma UnknownPush(e: Setting, vs: seq<Setting>, devices: map<Text, nat>)
    ensures Unknown([e] + vs, devices) <==> (e.device && e.value !in devices) || Unknown(vs, devices)
  {
    var all := [e] + vs;
    if Unknown(vs, devices) {
      var i :| 0 <= i < |vs| && vs[i].device && vs[i].value !in devices;
      assert all[i + 1] == vs[i];
    }
    if e.device && e.value !in devices { assert all[0] == e; }
  }

  lemma BecomePush(e: Setting, vs: seq<Setting>, devices: map<Text, nat>, p: Param, ps: seq<Param>)
    requires Becomes(e, devices, p) && AllBecome(vs, devices, ps)
    ensures AllBecome([e] + vs, devices, [p] + ps)
  {
  }

  /** Every variable becomes a parameter, in order, unless one names a device that is not known. */
  lemma {:induction false} ParamsAre(env: seq<Setting>, devices: map<Text, nat>)
    ensures Params(env, devices).None? <==> Unknown(Variables(env), devices)
    ensures Params(env, devices).Some? ==> AllBecome(Variables(env), devices, Params(env, devices).value)
  {
    if env != [] {
      var e, vs, more := env[0], Variables(env[1..]), Params(env[1..], devices);
      ParamsAre(env[1..], devices);
      if e.variable {
        UnknownPush(e, vs, devices);
        if more.Some? && !(e.device && e.value !in devices) {
          var value := if e.device then Decimal(devices[e.value] % 0x1_0000) else e.value;
          if e.device { DecimalIs(devices[e.value] % 0x1_0000); }
          BecomePush(e, vs, devices, Param(e.name, value), more.value);
        }
      }
    }
  }

  // ---------------------------------------------------------------- the block

  function Line(p: Param): Text { p.name + [EQUALS] + p.value }

  function Lines(ps: seq<Param>): (ls: seq<Text>)
    ensures |ls| == |ps| && forall i :: 0 <= i < |ps| ==> ls[i] == Line(ps[i])
  {
    seq(|ps|, i requires 0 <= i < |ps| => Line(ps[i]))
  }

  /** Strings one after the other, each with its 0. */
  function Flat(ls: seq<Text>): Text {
    if ls == [] then [] else ls[0] + [0] + Flat(ls[1..])
  }

  lemma {:induction false} FlatAppend(ls: seq<Text>, l: Text)
    ensures Flat(ls + [l]) == Flat(ls) + l + [0]
  {
    if ls != [] {
      FlatAppend(ls[1..], l);
      assert (ls + [l])[1..] == ls[1..] + [l];
      assert Flat(ls + [l]) == ls[0] + [0] + (Flat(ls[1..]) + l + [0]);
    } else {
      assert [l][1..] == [];
    }
  }

  // ---------------------------------------------------------------- get_value, on bytes

  /** The string at the start of s: the bytes before the first 0, if there is one. */
  function StringIn(s: seq<Octet>): (r: Option<Text>)
    ensures r.Some? ==> |r.value| < |s| && NoNul(r.value) && r.value == s[..|r.value|] && s[|r.value|] == 0
  {
    if s == [] then None
    else if s[0] == 0 then Some([])
    else
      match StringIn(s[1..])
      case None => None
      case Some(l) => Some([s[0]] + l)
  }

  /** What get_value finds; it may go astray where no string ends. */
  datatype Answer = Value(text: Text) | Absent | Astray

  function Lookup(s: seq<Octet>, name: Text): Answer
    decreases |s|
  {
    match StringIn(s)
    case None => Astray
    case Some(l) =>
      if l == [] then Absent
      else if name + [EQUALS] <= l then Value(l[|name| + 1..])
      else Lookup(s[|l| + 1..], name)
  }

  lemma {:induction false} StringIs(l: Text, rest: seq<Octet>)
    requires NoNul(l)
    ensures StringIn(l + [0] + rest) == Some(l)
  {
    var s := l + [0] + rest;
    if l != [] {
      StringIs(l[1..], rest);
      assert s[1..] == l[1..] + [0] + rest && l == [s[0]] + l[1..];
    }
  }

  // ---------------------------------------------------------------- the right answer

  predicate PlainName(s: Text) { NoNul(s) && EQUALS !in s }

  predicate Plain(ps: seq<Param>) { forall i :: 0 <= i < |ps| ==> PlainName(ps[i].name) && NoNul(ps[i].value) }

  predicate Distinct(ps: seq<Param>) {
    Plain(ps) && forall i, j :: 0 <= i < j < |ps| ==> ps[i].name != ps[j].name
  }

  /** The value of a parameter of that name, or none. */
  function Expected(ps: seq<Param>, name: Text): Answer {
    if ps == [] then Absent else if ps[0].name == name then Value(ps[0].value) else Expected(ps[1..], name)
  }

  /** Distinct names have their own values, absent names none. */
  lemma {:induction false} ExpectedIs(ps: seq<Param>, name: Text)
    requires Distinct(ps)
    ensures forall i :: 0 <= i < |ps| && ps[i].name == name ==> Expected(ps, name) == Value(ps[i].value)
    ensures (forall i :: 0 <= i < |ps| ==> ps[i].name != name) ==> Expected(ps, name) == Absent
  {
    if ps != [] {
      ExpectedIs(ps[1..], name);
      assert forall i :: 1 <= i < |ps| ==> ps[i] == ps[1..][i - 1];
    }
  }

  /** A line is that of the name only if it is exactly that name: one may be a prefix of another. */
  lemma LineHasName(p: Param, name: Text)
    requires PlainName(p.name) && PlainName(name)
    ensures name + [EQUALS] <= Line(p) <==> name == p.name
  {
    var l := Line(p);
    if name + [EQUALS] <= l {
      assert forall k :: 0 <= k < |p.name| ==> l[k] == p.name[k];
      assert forall k :: 0 <= k < |name| ==> l[k] == (name + [EQUALS])[k] == name[k];
      assert (name + [EQUALS])[|name|] == EQUALS && l[|name|] == EQUALS && l[|p.name|] == EQUALS;
      assert |name| == |p.name|;
      assert name == l[..|name|] == p.name;
    }
  }

  function Block(ps: seq<Param>): Text { Flat(Lines(ps)) + [0] }

  lemma BlockSplit(ps: seq<Param>)
    requires ps != []
    ensures Block(ps) == Line(ps[0]) + [0] + Block(ps[1..])
  {
    assert Lines(ps)[1..] == Lines(ps[1..]);
    assert Line(ps[0]) + [0] + Flat(Lines(ps[1..])) + [0] == Line(ps[0]) + [0] + (Flat(Lines(ps[1..])) + [0]);
  }

  /** In memory that starts with the block of ps, get_value gives the right answers. */
  lemma {:induction false} BlockAnswers(s: seq<Octet>, ps: seq<Param>, name: Text)
    requires Plain(ps) && PlainName(name) && Block(ps) <= s
    ensures Lookup(s, name) == Expected(ps, name)
    decreases |ps|
  {
    if ps == [] {
      assert s[0] == Block(ps)[0] == 0;
    } else {
      var l, more := Line(ps[0]), ps[1..];
      BlockSplit(ps);
      var rest := s[|l| + 1..];
      assert s == l + [0] + rest by { assert s[..|l| + 1] == Block(ps)[..|l| + 1] == l + [0]; }
      StringIs(l, rest);
      LineHasName(ps[0], name);
      assert l[|ps[0].name| + 1..] == ps[0].value;
      assert Block(more) <= rest by { assert rest[..|Block(more)|] == s[..|Block(ps)|][|l| + 1..]; }
      BlockAnswers(rest, more, name);
    }
  }

  // ---------------------------------------------------------------- params2params

  datatype Memory = Memory(base0: nat, size0: nat, size1: nat)

  /** Kernels without K_MEML want the old memory size variables too. */
  function OldSizes(mem: Memory, meml: bool): seq<Param> {
    if meml then []
    else [Param(MEMSIZE, Decimal((mem.base0 + mem.size0) / 1024)), Param(EMSSIZE, Decimal(mem.size1 / 1024))]
  }

  const MEMSIZE: Text := [109, 101, 109, 115, 105, 122, 101]
  const EMSSIZE: Text := [101, 109, 115, 115, 105, 122, 101]

  /** memsize is the end of low memory and emssize the size of extended memory, both in kilobytes. */
  lemma OldSizesAre(mem: Memory)
    ensures var ps := OldSizes(mem, false);
            && |ps| == 2 && Digits(ps[0].value) && Digits(ps[1].value)
            && ps[0].name == ['m' as int, 'e' as int, 'm' as int, 's' as int, 'i' as int, 'z' as int, 'e' as int]
            && ps[1].name == ['e' as int, 'm' as int, 's' as int, 's' as int, 'i' as int, 'z' as int, 'e' as int]
            && Number(ps[0].value) == (mem.base0 + mem.size0) / 1024 && Number(ps[1].value) == mem.size1 / 1024
  {
    DecimalIs((mem.base0 + mem.size0) / 1024);
    DecimalIs(mem.size1 / 1024);
  }

  function AllParams(env: seq<Setting>, devices: map<Text, nat>, mem: Memory, meml: bool): Option<seq<Param>> {
    match Params(env, devices)
    case None => None
    case Some(ps) => Some(ps + OldSizes(mem, meml))
  }

  method PutString(params: array<Octet>, i: nat, text: Text)
    requires i + |text| <= params.Length
    modifies params
    ensures params[..i] == old(params[..i]) && params[i..i + |text|] == text
  {
    var j := 0;
    while j < |text|
      invariant 0 <= j <= |text| && params[..i] == old(params[..i]) && params[i..i + j] == text[..j]
    {
      params[i + j] := text[j];
      j := j + 1;
    }
    assert text[..j] == text;
  }

  /** strcpy and strcat of one parameter, if it fits; the size needed so far. */
  method Put(params: array<Octet>, i: nat, p: Param, ghost ls: seq<Text>) returns (n: nat)
    requires i == |Flat(ls)| && (i < params.Length ==> params[..i] == Flat(ls))
    modifies params
    ensures n == |Flat(ls + [Line(p)])|
    ensures n < params.Length ==> params[..n] == Flat(ls + [Line(p)])
  {
    FlatAppend(ls, Line(p));
    var text := Line(p) + [0];
    assert Flat(ls + [Line(p)]) == Flat(ls) + text;
    n := i + |text|;
    if n < params.Length {
      PutString(params, i, text);
      assert params[..n] == params[..i] + params[i..n];
    }
  }

  lemma ParamsFrom(env: seq<Setting>, k: nat, devices: map<Text, nat>, ps: seq<Param>)
    requires k < |env|
    ensures var e := env[k];
            AddTo(ps, Params(env[k..], devices)) ==
            if !e.variable then AddTo(ps, Params(env[k + 1..], devices))
            else if !e.device then AddTo(ps + [Param(e.name, e.value)], Params(env[k + 1..], devices))
            else if e.value in devices then
              AddTo(ps + [Param(e.name, Decimal(devices[e.value] % 0x1_0000))], Params(env[k + 1..], devices))
            else None
  {
    assert env[k..][0] == env[k] && env[k..][1..] == env[k + 1..];
    var e, more := env[k], Params(env[k + 1..], devices);
    if more.Some? && e.variable && (e.device ==> e.value in devices) {
      var p := Param(e.name, if e.device then Decimal(devices[e.value] % 0x1_0000) else e.value);
      assert ps + ([p] + more.value) == ps + [p] + more.value;
    }
  }

  function AddTo(ps: seq<Param>, more: Option<seq<Param>>): Option<seq<Param>> {
    if more.None? then None else Some(ps + more.value)
  }

  lemma LinesAppend(ps: seq<Param>, p: Param)
    ensures Lines(ps + [p]) == Lines(ps) + [Line(p)]
  {
  }

  /** The environment loop of params2params. */
  method PutVariables(params: array<Octet>, env: seq<Setting>, devices: map<Text, nat>)
    returns (ok: bool, i: nat, ghost ps: seq<Param>)
    modifies params
    ensures ok <==> Params(env, devices).Some?
    ensures ok ==> Params(env, devices).value == ps && i == |Flat(Lines(ps))|
    ensures ok && i < params.Length ==> params[..i] == Flat(Lines(ps))
  {
    i, ps := 0, [];
    var k := 0;
    assert env[0..] == env;
    if Params(env, devices).Some? { assert [] + Params(env, devices).value == Params(env, devices).value; }
    while k < |env|
      invariant 0 <= k <= |env| && i == |Flat(Lines(ps))| && (i < params.Length ==> params[..i] == Flat(Lines(ps)))
      invariant AddTo(ps, Params(env[k..], devices)) == Params(env, devices)
    {
      var e := env[k];
      ParamsFrom(env, k, devices, ps);
      if e.variable {
        if e.device && e.value !in devices { ok := false; return; }
        var p := Param(e.name, if e.device then Decimal(devices[e.value] % 0x1_0000) else e.value);
        LinesAppend(ps, p);
        i := Put(params, i, p, Lines(ps));
        ps := ps + [p];
      }
      k := k + 1;
    }
    ok := true;
  }

  /** The old memory size variables, memsize and emssize. */
  method PutOldSizes(params: array<Octet>, i: nat, mem: Memory, ghost ps: seq<Param>) returns (n: nat)
    requires i == |Flat(Lines(ps))| && (i < params.Length ==> params[..i] == Flat(Lines(ps)))
    modifies params
    ensures n == |Flat(Lines(ps + OldSizes(mem, false)))|
    ensures n < params.Length ==> params[..n] == Flat(Lines(ps + OldSizes(mem, false)))
  {
    var p, q := Param(MEMSIZE, Decimal((mem.base0 + mem.size0) / 1024)), Param(EMSSIZE, Decimal(mem.size1 / 1024));
    LinesAppend(ps, p);
    LinesAppend(ps + [p], q);
    assert ps + [p] + [q] == ps + OldSizes(mem, false);
    n := Put(params, i, p, Lines(ps));
    n := Put(params, n, q, Lines(ps + [p]));
  }

  /** params2params: it succeeds exactly when every device is known and the block fits. */
  method Params2Params(params: array<Octet>, env: seq<Setting>, devices: map<Text, nat>, mem: Memory, meml: bool)
    returns (ok: bool, ghost ps: seq<Param>)
    modifies params
    ensures ok <==> AllParams(env, devices, mem, meml).Some?
                    && |Flat(Lines(AllParams(env, devices, mem, meml).value))| < params.Length
    ensures ok ==> AllParams(env, devices, mem, meml) == Some(ps) && |Flat(Lines(ps))| < params.Length
                   && params[..|Flat(Lines(ps))| + 1] == Flat(Lines(ps)) + [0]
  {
    var i;
    ok, i, ps := PutVariables(params, env, devices);
    if !ok { return; }
    if !meml {
      i := PutOldSizes(params, i, mem, ps);
    }
    assert meml ==> ps + [] == ps;
    ps := ps + OldSizes(mem, meml);
    if i >= params.Length { ok := false; return; }
    params[i] := 0;
    assert params[..i + 1] == params[..i] + [0];
  }

  // ---------------------------------------------------------------- get_value, with pointers

  /** The string at p is l. */
  predicate LineAt(m: seq<Octet>, p: nat, l: Text) {
    p + |l| < |m| && m[p..p + |l|] == l && m[p + |l|] == 0
  }

  /** How far the name matches the string at p, which is line l. */
  method Match(m: seq<Octet>, p: nat, name: Text, ghost l: Text) returns (j: nat)
    requires LineAt(m, p, l) && NoNul(l) && NoNul(name)
    ensures j <= |l| && j <= |name|
    ensures name + [EQUALS] <= l <==> j == |name| && m[p + j] == EQUALS
  {
    j := 0;
    while j < |name| && name[j] == m[p + j]
      invariant j <= |name| && j <= |l| && name[..j] == l[..j]
    {
      assert m[p..p + |l|][j] == m[p + j] || j == |l|;
      j := j + 1;
    }
    if j < |l| { assert m[p..p + |l|][j] == m[p + j]; }
    MatchMeans(name, l, j, m[p + j]);
  }

  lemma MatchMeans(name: Text, l: Text, j: nat, c: Octet)
    requires j <= |name| && j <= |l| && name[..j] == l[..j] && c == if j < |l| then l[j] else 0
    requires j < |name| ==> name[j] != c && name[j] != 0
    ensures name + [EQUALS] <= l <==> j == |name| && c == EQUALS
  {
    var want := name + [EQUALS];
    assert want[..j] == name[..j];
    assert want <= l ==> j < |l| && l[j] == want[j];
    if j == |name| && c == EQUALS { assert l[..j + 1] == want; }
  }

  /** Compare the name with the string at p, line l: where its value starts, or where the next string does. */
  method Probe(m: seq<Octet>, p: nat, name: Text, ghost l: Text) returns (hit: bool, q: nat)
    requires LineAt(m, p, l) && NoNul(l) && NoNul(name)
    ensures hit <==> name + [EQUALS] <= l
    ensures if hit then |name| + 1 <= |l| && LineAt(m, q, l[|name| + 1..]) else q == p + |l| + 1
  {
    var j := Match(m, p, name, l);
    hit := j == |name| && m[p + j] == EQUALS;
    if hit {
      LineTail(m, p, l, j + 1);
      q := p + j + 1;
    } else {
      q := SkipLine(m, p, j, l);
    }
  }

  lemma LineIsString(m: seq<Octet>, p: nat, l: Text)
    requires p <= |m|
    ensures StringIn(m[p..]) == Some(l) <==> LineAt(m, p, l) && NoNul(l)
  {
    var s := m[p..];
    if LineAt(m, p, l) && NoNul(l) {
      assert s == l + [0] + s[|l| + 1..];
      StringIs(l, s[|l| + 1..]);
    }
    if StringIn(s) == Some(l) { assert m[p..p + |l|] == s[..|l|]; }
  }

  /** get_value: where the value of a name starts, if the name is there. */
  method GetValue(m: seq<Octet>, name: Text) returns (r: Option<nat>)
    requires NoNul(name) && Lookup(m, name) != Astray
    ensures r.None? <==> Lookup(m, name) == Absent
    ensures r.Some? ==>
              r.value <= |m| && StringIn(m[r.value..]).Some? && Lookup(m, name) == Value(StringIn(m[r.value..]).value)
  {
    var p := 0;
    assert m[0..] == m;
    while true
      invariant p <= |m| && Lookup(m[p..], name) == Lookup(m, name)
      decreases |m| - p
    {
      ghost var l := StringIn(m[p..]).value;
      LineIsString(m, p, l);
      if m[p] == 0 { return None; }
      var hit, q := Probe(m, p, name, l);
      if hit {
        LineIsString(m, q, l[|name| + 1..]);
        return Some(q);
      }
      assert m[p..][|l| + 1..] == m[q..];
      p := q;
    }
  }

  lemma LineNoNul(m: seq<Octet>, p: nat, l: Text, q: nat)
    requires LineAt(m, p, l) && NoNul(l) && p <= q < p + |l|
    ensures m[q] != 0
  {
    assert m[p..p + |l|][q - p] == m[q];
  }

  lemma LineTail(m: seq<Octet>, p: nat, l: Text, j: nat)
    requires LineAt(m, p, l) && j <= |l|
    ensures LineAt(m, p + j, l[j..])
  {
    assert m[p + j..p + |l|] == m[p..p + |l|][j..];
  }

  /** The loop that skips to the next string. */
  method SkipLine(m: seq<Octet>, p: nat, j: nat, ghost l: Text) returns (q: nat)
    requires LineAt(m, p, l) && NoNul(l) && j <= |l|
    ensures q == p + |l| + 1
  {
    q := p + j;
    while m[q] != 0
      invariant p + j <= q <= p + |l|
      decreases p + |l| - q
    {
      q := q + 1;
    }
    if q < p + |l| { LineNoNul(m, p, l, q); }
    q := q + 1;
  }

  // ---------------------------------------------------------------- from the monitor to the kernel

  const PARAMS_SIZE: nat := 512         // the monitor's buffer, one sector
  const COPIED: nat := 510              // MIN(parmsize, sizeof(params) - 2) in cstart

  /** The kernel's buffer: what cstart copied, then whatever was on its stack. */
  function KernelCopy(params: seq<Octet>, stack: seq<Octet>): seq<Octet>
    requires |params| == PARAMS_SIZE
  {
    params[..COPIED] + stack
  }

  /** The monitor's buffer after params2params, for the parameters ps. */
  predicate Packed(params: seq<Octet>, ps: seq<Param>) {
    |params| == PARAMS_SIZE && |Block(ps)| <= PARAMS_SIZE && params[..|Block(ps)|] == Block(ps)
  }

  lemma CopyAnswers(params: seq<Octet>, stack: seq<Octet>, ps: seq<Param>, name: Text)
    requires Packed(params, ps) && |Block(ps)| <= COPIED && Plain(ps) && PlainName(name)
    ensures Lookup(KernelCopy(params, stack), name) == Expected(ps, name)
  {
    var m, n := KernelCopy(params, stack), |Block(ps)|;
    assert m[..n] == params[..n];
    BlockAnswers(m, ps, name);
  }

  /** get_value in the kernel, on a block that fits. */
  method KernelValue(params: seq<Octet>, stack: seq<Octet>, name: Text, ghost ps: seq<Param>) returns (r: Option<nat>)
    requires Packed(params, ps) && |Block(ps)| <= COPIED && Plain(ps) && PlainName(name)
    ensures var m := KernelCopy(params, stack);
            match Expected(ps, name)
            case Value(v) => r.Some? && r.value <= |m| && StringIn(m[r.value..]) == Some(v)
            case _ => r.None?
  {
    CopyAnswers(params, stack, ps, name);
    ExpectedAnswers(ps, name);
    r := GetValue(KernelCopy(params, stack), name);
  }

  lemma {:induction false} ExpectedAnswers(ps: seq<Param>, name: Text)
    ensures Expected(ps, name) != Astray
  {
    if ps != [] { ExpectedAnswers(ps[1..], name); }
  }

  lemma LinesSplit(ps: seq<Param>)
    requires ps != []
    ensures var n := |ps| - 1; Flat(Lines(ps)) == Flat(Lines(ps[..n])) + Line(ps[n]) + [0]
  {
    var n := |ps| - 1;
    LinesAppend(ps[..n], ps[n]);
    FlatAppend(Lines(ps[..n]), Line(ps[n]));
    assert ps[..n] + [ps[n]] == ps;
  }

  /** One byte too many: the end mark is lost, and for a stack to match the kernel finds any further parameter. */
  lemma EndMarkLost(params: seq<Octet>, ps: seq<Param>, extra: Param) returns (stack: seq<Octet>)
    requires Packed(params, ps) && |Block(ps)| == COPIED + 1 && Distinct(ps + [extra])
    ensures Lookup(KernelCopy(params, stack), extra.name) == Value(extra.value)
  {
    var qs := ps + [extra];
    stack := Line(extra) + [0] + [0];
    LinesSplit(qs);
    assert qs[..|ps|] == ps && qs[|ps|] == extra;
    assert params[..COPIED] == params[..|Block(ps)|][..COPIED] == Flat(Lines(ps));
    assert KernelCopy(params, stack) == Block(qs);
    BlockAnswers(Block(qs), qs, extra.name);
    ExpectedIs(qs, extra.name);
  }

  lemma LongerBlock(ps: seq<Param>, qs: seq<Param>, extra: Text)
    requires ps != [] && var n := |ps| - 1; qs == ps[n := Param(ps[n].name, ps[n].value + extra)]
    ensures |Block(ps)| >= 2 && Block(qs) == Block(ps)[..|Block(ps)| - 2] + (extra + [0] + [0])
  {
    var n := |ps| - 1;
    LinesSplit(ps);
    LinesSplit(qs);
    assert qs[..n] == ps[..n];
    assert Line(qs[n]) == Line(ps[n]) + extra;
    var f := Flat(Lines(ps[..n]));
    assert Block(ps)[..|Block(ps)| - 2] == f + Line(ps[n]);
    assert f + (Line(ps[n]) + extra) + [0] + [0] == f + Line(ps[n]) + (extra + [0] + [0]);
  }

  /** Two bytes too many: for a stack to match the last value goes on with any text. */
  lemma LastValueRuns(params: seq<Octet>, ps: seq<Param>, extra: Text) returns (stack: seq<Octet>)
    requires Packed(params, ps) && |Block(ps)| == COPIED + 2 && Distinct(ps) && NoNul(extra)
    ensures ps != []
    ensures var last := ps[|ps| - 1]; Lookup(KernelCopy(params, stack), last.name) == Value(last.value + extra)
  {
    var n := |ps| - 1;
    assert ps != [];
    var last := Param(ps[n].name, ps[n].value + extra);
    var qs := ps[n := last];
    stack := extra + [0] + [0];
    LongerBlock(ps, qs, extra);
    var b := Block(ps);
    assert params[..COPIED] == params[..|b|][..COPIED] == b[..|b| - 2];
    assert KernelCopy(params, stack) == Block(qs);
    BlockAnswers(Block(qs), qs, last.name);
    assert qs[n] == last && forall i :: 0 <= i < |qs| ==> qs[i].name == ps[i].name;
    ExpectedIs(qs, last.name);
  }

  /** A name longer than the buffer is the name of no parameter in it. */
  lemma {:induction false} ShortNames(ps: seq<Param>)
    ensures forall i :: 0 <= i < |ps| ==> |ps[i].name| < |Block(ps)|
  {
    if ps != [] {
      BlockSplit(ps);
      ShortNames(ps[1..]);
      assert forall i :: 1 <= i < |ps| ==> ps[i] == ps[1..][i - 1];
    }
  }

  /** The kernel's get_value gives the right answer to every name, whatever is on its stack. */
  ghost predicate KernelKnows(params: seq<Octet>, ps: seq<Param>)
    requires |params| == PARAMS_SIZE
  {
    forall stack, name :: PlainName(name) ==> Lookup(KernelCopy(params, stack), name) == Expected(ps, name)
  }

  /** Of the blocks that params2params accepts, the kernel understands exactly those of at most 510 bytes. */
  lemma KernelKnowsIff(params: seq<Octet>, ps: seq<Param>)
    requires Packed(params, ps) && Distinct(ps)
    ensures KernelKnows(params, ps) <==> |Block(ps)| <= COPIED
  {
    if |Block(ps)| <= COPIED {
      forall stack, name | PlainName(name) ensures Lookup(KernelCopy(params, stack), name) == Expected(ps, name) {
        CopyAnswers(params, stack, ps, name);
      }
    } else if |Block(ps)| == COPIED + 1 {
      var extra := Param(seq(PARAMS_SIZE, _ => 97), []);
      ShortNames(ps);
      ExpectedIs(ps, extra.name);
      var stack := EndMarkLost(params, ps, extra);
      assert PlainName(extra.name) && Lookup(KernelCopy(params, stack), extra.name) != Expected(ps, extra.name);
    } else {
      var stack := LastValueRuns(params, ps, [97]);
      var last := ps[|ps| - 1];
      ExpectedIs(ps, last.name);
      assert PlainName(last.name) && Lookup(KernelCopy(params, stack), last.name) != Expected(ps, last.name);
    }
  }
}
