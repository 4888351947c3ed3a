/**
 Environment values in application settings: "$(NAME)" stands for a variable, "$$" for a dollar sign.
 The result is missing where the code throws, at a bracket that is never closed.
 */
module EnvExpand {

  import opened Wrappers

  type Env = map<string, string>

  /** A variable that is not set reads as empty. */
  function Lookup(env: Env, name: string): string {
    if name in env then env[name] else []
  }

  /** Where the brackets opened from `k` on, with `depth` open before, are all closed. */
  function Match(t: string, k: nat, depth: int): (r: Option<nat>)
    requires k <= |t|
    ensures r.Some? ==> k <= r.value < |t|
    decreases |t| - k
  {
    if k == |t| then None
    else
      var d := if t[k] == '(' then depth + 1 else if t[k] == ')' then depth - 1 else depth;
      if d == 0 then Some(k) else Match(t, k + 1, d)
  }

  function Then(before: string, rest: Option<string>): Option<string> {
    match rest
    case None => None
    case Some(s) => Some(before + s)
  }

  /** The language, read from left to right. Text that comes from a variable is not read again. */
  function Expand(env: Env, t: string): Option<string>
    decreases |t|
  {
    if t == [] then Some([])
    else if t[0] != '$' || |t| == 1 then Then([t[0]], Expand(env, t[1..]))
    else if t[1] == '$' then Then("$", Expand(env, t[2..]))
    else if t[1] != '(' then Then("$", Expand(env, t[1..]))
    else
      match Match(t, 1, 0)
      case None => None
      case Some(m) => Then(Lookup(env, VarName(t, m)), Expand(env, t[m + 1..]))
  }

  function VarName(t: string, m: nat): string
    requires m < |t|
  {
    if m < 2 then [] else t[2..m]
  }

  // What can be written in it, and what that means.

  datatype Piece = Text(s: string) | Var(name: string)

  function Doubled(s: string): string {
    if s == [] then [] else (if s[0] == '$' then "$$" else [s[0]]) + Doubled(s[1..])
  }

  function Print(pieces: seq<Piece>): string {
    if pieces == [] then [] else PrintOne(pieces[0]) + Print(pieces[1..])
  }

  function PrintOne(p: Piece): string {
    match p
    case Text(s) => Doubled(s)
    case Var(name) => "$(" + name + ")"
  }

  function Meaning(env: Env, pieces: seq<Piece>): string {
    if pieces == [] then [] else MeaningOne(env, pieces[0]) + Meaning(env, pieces[1..])
  }

  function MeaningOne(env: Env, p: Piece): string {
    match p
    case Text(s) => s
    case Var(name) => Lookup(env, name)
  }

  /** Brackets left open by `s`, none of them closed before it was opened. */
  function Open(s: string, depth: nat): Option<nat> {
    if s == [] then Some(depth)
    else if s[0] == '(' then Open(s[1..], depth + 1)
    else if s[0] != ')' then Open(s[1..], depth)
    else if depth == 0 then None
    else Open(s[1..], depth - 1)
  }

  /** Names may hold brackets, as long as these match. */
  predicate Balanced(name: string) { Open(name, 0) == Some(0) }

  predicate Printable(pieces: seq<Piece>) {
    forall i :: 0 <= i < |pieces| && pieces[i].Var? ==> Balanced(pieces[i].name)
  }

  /** A name that leaves no bracket open takes the match across it; one bracket is open outside. */
  lemma {:induction false} MatchAcross(before: string, name: string, rest: string, depth: nat)
    requires Open(name, depth).Some?
    ensures Match(before + (name + rest), |before|, depth + 1)
              == Match(before + (name + rest), |before| + |name|, Open(name, depth).value + 1)
    decreases |name|
  {
    if name != [] {
      var c := name[0];
      var d: nat := if c == '(' then depth + 1 else if c == ')' then depth - 1 else depth;
      assert (before + [c]) + (name[1..] + rest) == before + (name + rest);
      MatchAcross(before + [c], name[1..], rest, d);
    }
  }

  lemma MatchVar(name: string, rest: string)
    requires Balanced(name)
    ensures Match("$(" + name + ")" + rest, 1, 0) == Some(|name| + 2)
  {
    var t := "$(" + name + ")" + rest;
    assert t == "$(" + (name + (")" + rest));
    MatchAcross("$(", name, ")" + rest, 0);
    assert t[1] == '(' && t[|name| + 2] == ')';
  }

  lemma ExpandVar(env: Env, name: string, rest: string)
    requires Balanced(name)
    ensures Expand(env, "$(" + name + ")" + rest) == Then(Lookup(env, name), Expand(env, rest))
  {
    var t := "$(" + name + ")" + rest;
    MatchVar(name, rest);
    assert t[0] == '$' && t[1] == '(' && t[2..|name| + 2] == name && t[|name| + 3..] == rest;
  }

  /** A variable that is set is replaced by its value, once; one that is not set, by nothing. */
  lemma {:induction false} VariableRead(env: Env, name: string, rest: string)
    requires Balanced(name)
    ensures name in env ==> Expand(env, "$(" + name + ")" + rest) == Then(env[name], Expand(env, rest))
    ensures name !in env ==> Expand(env, "$(" + name + ")" + rest) == Expand(env, rest)
  {
    ExpandVar(env, name, rest);
    if name !in env && Expand(env, rest).Some? {
      assert [] + Expand(env, rest).value == Expand(env, rest).value;
    }
  }

  lemma ThenThen(a: string, b: string, rest: Option<string>)
    ensures Then(a, Then(b, rest)) == Then(a + b, rest)
  {
    if rest.Some? {
      assert a + (b + rest.value) == (a + b) + rest.value;
    }
  }

  lemma {:induction false} ExpandDoubled(env: Env, s: string, rest: string)
    ensures Expand(env, Doubled(s) + rest) == Then(s, Expand(env, rest))
  {
    if s == [] {
      assert Doubled(s) + rest == rest;
      assert Expand(env, rest).Some? ==> [] + Expand(env, rest).value == Expand(env, rest).value;
    } else {
      var tail := Doubled(s[1..]) + rest;
      ExpandDoubled(env, s[1..], rest);
      assert s == [s[0]] + s[1..];
      ThenThen([s[0]], s[1..], Expand(env, rest));
      var head := if s[0] == '$' then "$$" else [s[0]];
      assert Doubled(s) + rest == head + tail;
      assert (head + tail)[|head|..] == tail;
    }
  }

  /** Whatever is written by the rules is read as it was meant, in any environment. */
  lemma {:induction false} ExpandPrinted(env: Env, pieces: seq<Piece>)
    requires Printable(pieces)
    ensures Expand(env, Print(pieces)) == Some(Meaning(env, pieces))
  {
    if pieces != [] {
      var rest := Print(pieces[1..]);
      ExpandPrinted(env, pieces[1..]);
      match pieces[0]
      case Text(s) => ExpandDoubled(env, s, rest);
      case Var(name) => ExpandVar(env, name, rest);
    }
  }

  /** Doubling every dollar sign protects any string. */
  lemma DoublingProtects(env: Env, s: string)
    ensures Expand(env, Doubled(s)) == Some(s)
  {
    ExpandDoubled(env, s, []);
    assert Doubled(s) + [] == Doubled(s) && s + [] == s;
  }

  // The code.

  function Find(t: string, from: nat): (r: nat)
    requires from <= |t|
    ensures from <= r <= |t| && (r < |t| ==> t[r] == '$')
    ensures forall i :: from <= i < r ==> t[i] != '$'
    decreases |t| - from
  {
    if from == |t| || t[from] == '$' then from else Find(t, from + 1)
  }

  /** find_match: the loop stops at the end of the text whatever is there, and then throws. */
  method FindMatch(t: string, begin: nat) returns (r: Option<nat>)
    requires begin < |t|
    ensures r == Match(t, begin, 0)
  {
    var stack: int := 0;
    var k := begin;
    var done := false;
    while !done
      invariant begin <= k <= |t|
      invariant !done ==> k < |t| && Match(t, begin, 0) == Match(t, k, stack)
      invariant done ==> Match(t, begin, 0) == if k == |t| then None else Some(k)
      decreases |t| - k, !done
    {
      if t[k] == '(' {
        stack := stack + 1;
      } else if t[k] == ')' {
        stack := stack - 1;
      }
      if stack == 0 {
        done := true;
      } else {
        k := k + 1;
        done := k == |t|;
      }
    }
    r := if k == |t| then None else Some(k);
  }

  lemma {:induction false} ExpandLiteral(env: Env, t: string, from: nat, end: nat)
    requires from <= end <= |t| && forall i :: from <= i < end ==> t[i] != '$'
    ensures Expand(env, t[from..]) == Then(t[from..end], Expand(env, t[end..]))
    decreases end - from
  {
    if from == end {
      var rest := Expand(env, t[end..]);
      assert rest.Some? ==> t[from..end] + rest.value == rest.value;
    } else {
      ExpandLiteral(env, t, from + 1, end);
      assert t[from..][1..] == t[from + 1..];
      assert t[from..end] == [t[from]] + t[from + 1..end];
      ThenThen([t[from]], t[from + 1..end], Expand(env, t[end..]));
    }
  }

  /** Text before `dollar` that is settled, and what is left to read. */
  ghost function Outcome(env: Env, t: string, ss: string, pos: nat, dollar: nat): Option<string>
    requires pos <= dollar <= |t|
  {
    Then(ss + t[pos..dollar], Expand(env, t[dollar..]))
  }

  lemma OutcomeSkip(env: Env, t: string, ss: string, pos: nat, dollar: nat, end: nat)
    requires pos <= dollar <= end <= |t| && forall i :: dollar <= i < end ==> t[i] != '$'
    ensures Outcome(env, t, ss, pos, dollar) == Outcome(env, t, ss, pos, end)
  {
    ExpandLiteral(env, t, dollar, end);
    ThenThen(ss + t[pos..dollar], t[dollar..end], Expand(env, t[end..]));
    assert (ss + t[pos..dollar]) + t[dollar..end] == ss + t[pos..end];
  }

  lemma OutcomeStart(env: Env, t: string, dollar: nat)
    requires dollar <= |t| && forall i :: 0 <= i < dollar ==> t[i] != '$'
    ensures Outcome(env, t, [], 0, dollar) == Expand(env, t)
  {
    assert t[0..] == t && [] + t[0..dollar] == t[0..dollar];
    ExpandLiteral(env, t, 0, dollar);
  }

  /** A dollar sign that starts nothing, also the last character, stands for itself. */
  lemma OutcomeLone(env: Env, t: string, ss: string, pos: nat, dollar: nat)
    requires pos <= dollar < |t| && t[dollar] == '$'
    requires dollar + 1 < |t| ==> t[dollar + 1] != '$' && t[dollar + 1] != '('
    ensures Outcome(env, t, ss, pos, dollar) == Outcome(env, t, ss, pos, dollar + 1)
  {
    assert t[dollar..][1..] == t[dollar + 1..];
    ThenThen(ss + t[pos..dollar], "$", Expand(env, t[dollar + 1..]));
    assert (ss + t[pos..dollar]) + "$" == ss + t[pos..dollar + 1];
  }

  lemma OutcomeDouble(env: Env, t: string, ss: string, pos: nat, dollar: nat)
    requires pos <= dollar < dollar + 1 < |t| && t[dollar] == '$' && t[dollar + 1] == '$'
    ensures Outcome(env, t, ss, pos, dollar) == Outcome(env, t, ss + t[pos..dollar + 1], dollar + 2, dollar + 2)
  {
    assert t[dollar..][2..] == t[dollar + 2..];
    ThenThen(ss + t[pos..dollar], "$", Expand(env, t[dollar + 2..]));
    assert (ss + t[pos..dollar]) + "$" == (ss + t[pos..dollar + 1]) + t[dollar + 2..dollar + 2];
  }

  lemma {:induction false} MatchShift(p: string, t: string, k: nat, depth: int)
    requires k <= |t|
    ensures Match(p + t, |p| + k, depth) == match Match(t, k, depth) case None => None case Some(m) => Some(|p| + m)
    decreases |t| - k
  {
    if k < |t| {
      assert (p + t)[|p| + k] == t[k];
      MatchShift(p, t, k + 1, if t[k] == '(' then depth + 1 else if t[k] == ')' then depth - 1 else depth);
    }
  }

  lemma {:induction false} MatchEndsAtBracket(t: string, k: nat, depth: int)
    requires k <= |t| && depth != 0
    ensures Match(t, k, depth).Some? ==> t[Match(t, k, depth).value] in {'(', ')'}
    decreases |t| - k
  {
    if k < |t| {
      var d := if t[k] == '(' then depth + 1 else if t[k] == ')' then depth - 1 else depth;
      if d != 0 {
        MatchEndsAtBracket(t, k + 1, d);
      }
    }
  }

  lemma OutcomeVar(env: Env, t: string, ss: string, pos: nat, dollar: nat)
    requires pos <= dollar < dollar + 1 < |t| && t[dollar] == '$' && t[dollar + 1] == '('
    ensures var found := Match(t, dollar + 1, 0);
            if found.None? then Outcome(env, t, ss, pos, dollar).None?
            else dollar + 2 <= found.value && t[found.value] != '$'
                 && Outcome(env, t, ss, pos, dollar)
                      == Outcome(env, t, ss + t[pos..dollar] + Lookup(env, t[dollar + 2..found.value]),
                                 found.value + 1, found.value + 1)
  {
    var p, u := t[..dollar], t[dollar..];
    assert p + u == t;
    MatchShift(p, u, 1, 0);
    var found := Match(u, 1, 0);
    if found.Some? {
      var m := found.value;
      assert m >= 2;
      MatchEndsAtBracket(u, 2, 1);
      assert u[m] == t[dollar + m];
      assert u[2..m] == t[dollar + 2..dollar + m];
      OutcomeMatched(env, t, ss, pos, dollar, u, m);
    }
  }

  lemma OutcomeMatched(env: Env, t: string, ss: string, pos: nat, dollar: nat, u: string, m: nat)
    requires pos <= dollar < |t| && t[dollar..] == u && |u| > 1 && u[0] == '$' && u[1] == '('
    requires Match(u, 1, 0) == Some(m) && 2 <= m < |u|
    ensures var end := dollar + m + 1;
            Outcome(env, t, ss, pos, dollar) == Outcome(env, t, ss + t[pos..dollar] + Lookup(env, u[2..m]), end, end)
  {
    var value, tail := Lookup(env, u[2..m]), t[dollar + m + 1..];
    assert u[m + 1..] == tail;
    ExpandMatched(env, u, m);
    OutcomeThen(env, t, ss, pos, dollar, value, tail);
    OutcomeAt(env, t, ss + t[pos..dollar] + value, dollar + m + 1);
  }

  lemma OutcomeThen(env: Env, t: string, ss: string, pos: nat, dollar: nat, value: string, tail: string)
    requires pos <= dollar <= |t| && Expand(env, t[dollar..]) == Then(value, Expand(env, tail))
    ensures Outcome(env, t, ss, pos, dollar) == Then(ss + t[pos..dollar] + value, Expand(env, tail))
  {
    ThenThen(ss + t[pos..dollar], value, Expand(env, tail));
  }

  lemma OutcomeAt(env: Env, t: string, ss: string, at: nat)
    requires at <= |t|
    ensures Outcome(env, t, ss, at, at) == Then(ss, Expand(env, t[at..]))
  {
    assert ss + t[at..at] == ss;
  }

  lemma ExpandMatched(env: Env, u: string, m: nat)
    requires |u| > 1 && u[0] == '$' && u[1] == '(' && Match(u, 1, 0) == Some(m) && 2 <= m < |u|
    ensures Expand(env, u) == Then(Lookup(env, u[2..m]), Expand(env, u[m + 1..]))
  {
  }

  /** parse_env_val, at a dollar sign with an opening bracket; `varEnd` is the closing one. */
  method Substitute(env: Env, valRaw: string, ss: string, pos: nat, dollar: nat)
    returns (r: Option<string>, varEnd: nat)
    requires pos <= dollar < dollar + 1 < |valRaw| && valRaw[dollar] == '$' && valRaw[dollar + 1] == '('
    ensures r.None? ==> Outcome(env, valRaw, ss, pos, dollar).None?
    ensures r.Some? ==>
              && dollar + 1 < varEnd < |valRaw| && valRaw[varEnd] != '$'
              && Outcome(env, valRaw, ss, pos, dollar) == Outcome(env, valRaw, r.value, varEnd + 1, varEnd + 1)
  {
    OutcomeVar(env, valRaw, ss, pos, dollar);
    var out := ss + valRaw[pos..dollar];
    var found := FindMatch(valRaw, dollar + 1);
    if found.None? {
      return None, 0;
    }
    varEnd := found.value;
    var varName := valRaw[dollar + 2..varEnd];
    r := Some(out + Lookup(env, varName));
  }

  /** The search goes on at `next`, which may be the closing bracket just before `pos`. */
  method NextDollar(env: Env, valRaw: string, ss: string, pos: nat, next: nat) returns (dollar: nat)
    requires pos <= next <= |valRaw| || (next + 1 == pos <= |valRaw| && valRaw[next] != '$')
    ensures pos <= dollar <= |valRaw| && next <= dollar && (dollar < |valRaw| ==> valRaw[dollar] == '$')
    ensures Outcome(env, valRaw, ss, pos, dollar) == Outcome(env, valRaw, ss, pos, if next < pos then pos else next)
  {
    dollar := Find(valRaw, next);
    OutcomeSkip(env, valRaw, ss, pos, if next < pos then pos else next, dollar);
  }

  /** parse_env_val */
  method ParseEnvVal(env: Env, valRaw: string) returns (r: Option<string>)
    ensures r == Expand(env, valRaw)
  {
    var pos: nat := 0;
    var dollar := Find(valRaw, pos);
    var ss: string := [];
    OutcomeStart(env, valRaw, dollar);
    ghost var meant := Outcome(env, valRaw, ss, pos, dollar);
    while dollar != |valRaw|
      invariant pos <= dollar <= |valRaw| && (dollar < |valRaw| ==> valRaw[dollar] == '$')
      invariant Outcome(env, valRaw, ss, pos, dollar) == meant
      decreases |valRaw| - dollar
    {
      var next := dollar + 1;
      if next == |valRaw| {
        OutcomeLone(env, valRaw, ss, pos, dollar);
        dollar := next;
      } else {
        if valRaw[next] == '(' {
          var out, varEnd := Substitute(env, valRaw, ss, pos, dollar);
          if out.None? {
            return None;
          }
          ss, pos, next := out.value, varEnd + 1, varEnd;
        } else if valRaw[next] == '$' {
          OutcomeDouble(env, valRaw, ss, pos, dollar);
          ss := ss + valRaw[pos..next];
          pos, next := next + 1, next + 1;
        } else {
          OutcomeLone(env, valRaw, ss, pos, dollar);
        }
        dollar := NextDollar(env, valRaw, ss, pos, next);
      }
    }
    OutcomeEnd(env, valRaw, ss, pos);
    r := Some(ss + valRaw[pos..dollar]);
  }

  lemma OutcomeEnd(env: Env, t: string, ss: string, pos: nat)
    requires pos <= |t|
    ensures Outcome(env, t, ss, pos, |t|) == Some(ss + t[pos..|t|])
  {
    assert t[|t|..] == [];
    assert (ss + t[pos..|t|]) + [] == ss + t[pos..|t|];
  }
}
