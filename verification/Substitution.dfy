/** Replacing `$name` variables in the text of a benchmark file, one variable of a map after the other
    in whatever order the map is iterated. */
module Substitution {
  import opened Wrappers
  import opened Strings

  /** strings.Fields yields more than one field. */
  predicate SeveralFields(v: string) {
    exists i, j, k :: 0 <= i < j < k < |v| && !IsSpace(v[i]) && IsSpace(v[j]) && !IsSpace(v[k])
  }

  function Quoted(v: string): string {
    if SeveralFields(v) then "'" + v + "'" else v
  }

  /** strings.Replace(s, sub, by, -1): all occurrences, from the left, not overlapping. */
  function ReplaceAll(s: string, sub: string, repl: string): string
    requires sub != ""
  {
    if |s| < |sub| then s
    else if sub <= s then repl + ReplaceAll(s[|sub|..], sub, repl)
    else [s[0]] + ReplaceAll(s[1..], sub, repl)
  }

  /** multiWordReplace */
  function MultiWordReplace(s: string, name: string, value: string): string
    requires name != ""
  {
    ReplaceAll(s, name, Quoted(value))
  }

  /** One turn of the loop over the map. */
  function SubstituteOne(s: string, ext: string, name: string, value: string): string {
    if value == "" then s else MultiWordReplace(s, "$" + name + ext, value)
  }

  /** The text after the variables have been replaced in the given order. */
  function Substitute(s: string, ext: string, m: map<string, string>, order: seq<string>): string
    requires forall k :: k in order ==> k in m
    decreases |order|
  {
    if order == [] then s
    else Substitute(SubstituteOne(s, ext, order[0], m[order[0]]), ext, m, order[1..])
  }

  /** The values that are reported as substituted, in order. */
  function Substituted(s: string, ext: string, m: map<string, string>, order: seq<string>): seq<string>
    requires forall k :: k in order ==> k in m
    decreases |order|
  {
    if order == [] then []
    else
      var t := SubstituteOne(s, ext, order[0], m[order[0]]);
      (if t != s then [m[order[0]]] else []) + Substituted(t, ext, m, order[1..])
  }

  /** An order in which Go may iterate the map. */
  ghost predicate IsOrder(order: seq<string>, m: map<string, string>) {
    && (forall k :: k in order <==> k in m)
    && forall i, j :: 0 <= i < j < |order| ==> order[i] != order[j]
  }

  method MakeSubstitutions(text: string, ext: string, m: map<string, string>)
    returns (s: string, substitutions: seq<string>, ghost order: seq<string>)
    ensures IsOrder(order, m)
    ensures s == Substitute(text, ext, m, order)
    ensures substitutions == Substituted(text, ext, m, order)
    ensures exists o :: IsOrder(o, m)
                        && s == Substitute(text, ext, m, o) && substitutions == Substituted(text, ext, m, o)
  {
    s, substitutions, order := text, [], [];
    var keys := m.Keys;
    while keys != {}
      invariant keys <= m.Keys
      invariant forall k :: k in order <==> k in m && k !in keys
      invariant forall i, j :: 0 <= i < j < |order| ==> order[i] != order[j]
      invariant s == Substitute(text, ext, m, order)
      invariant substitutions == Substituted(text, ext, m, order)
      decreases keys
    {
      var k :| k in keys;
      var v := m[k];
      ghost var done := order;
      SubstituteAppend(text, ext, m, order, k);
      SubstitutedAppend(text, ext, m, order, k);
      keys := keys - {k};
      order := order + [k];
      if v != "" {
        var beforeS := s;
        s := MultiWordReplace(s, "$" + k + ext, v);
        if beforeS != s {
          substitutions := substitutions + [v];
        }
      }
    }
  }

  lemma {:induction false} SubstituteAppend(s: string, ext: string, m: map<string, string>, order: seq<string>,
      k: string)
    requires (forall x :: x in order ==> x in m) && k in m
    ensures forall x :: x in order + [k] ==> x in m
    ensures Substitute(s, ext, m, order + [k]) == SubstituteOne(Substitute(s, ext, m, order), ext, k, m[k])
    decreases |order|
  {
    if order == [] {
      assert [k][1..] == [];
    } else {
      SubstituteAppend(SubstituteOne(s, ext, order[0], m[order[0]]), ext, m, order[1..], k);
      assert (order + [k])[1..] == order[1..] + [k];
    }
  }

  lemma {:induction false} SubstitutedAppend(s: string, ext: string, m: map<string, string>, order: seq<string>,
      k: string)
    requires (forall x :: x in order ==> x in m) && k in m
    ensures forall x :: x in order + [k] ==> x in m
    ensures var t := Substitute(s, ext, m, order);
      Substituted(s, ext, m, order + [k]) ==
      Substituted(s, ext, m, order) + (if SubstituteOne(t, ext, k, m[k]) != t then [m[k]] else [])
    decreases |order|
  {
    if order == [] {
      assert [k][1..] == [];
    } else {
      SubstitutedAppend(SubstituteOne(s, ext, order[0], m[order[0]]), ext, m, order[1..], k);
      assert (order + [k])[1..] == order[1..] + [k];
    }
  }

  // ---- The reference: all variables at once ----

  /** Variable texts (without the dollar) and their replacements. */
  type Env = map<string, string>

  /** The shortest variable text that `s` begins with. */
  function Pick(s: string, env: Env, n: nat): (t: Option<string>)
    ensures t.Some? ==> t.value in env && t.value <= s && n <= |t.value|
    ensures t.None? ==> forall x :: x in env && x <= s ==> |x| < n
    decreases |s| - n
  {
    if n > |s| then None
    else if s[..n] in env then Some(s[..n])
    else
      assert forall x: string :: x <= s && |x| == n ==> x == s[..n];
      Pick(s, env, n + 1)
  }

  /** The variable that `s` begins with, dollar included. */
  function PickVar(s: string, env: Env): Option<string> {
    if s != "" && s[0] == '$' then Pick(s[1..], env, 0) else None
  }

  /** Simultaneous substitution: one pass over the text, replacements are not looked at again. */
  function Simultaneous(s: string, env: Env): string {
    if s == "" then ""
    else
      var t := PickVar(s, env);
      if t.Some? then env[t.value] + Simultaneous(s[1 + |t.value|..], env)
      else [s[0]] + Simultaneous(s[1..], env)
  }

  /** The variables of a map that have a value. */
  function EnvOf(m: map<string, string>, ext: string): Env {
    map t | t in (set k | k in m && m[k] != "" :: k + ext) :: Quoted(m[t[..|t| - |ext|]])
  }
}
