/** The exact condition under which makeSubstitutions does not depend on the iteration order of its map. */
module SubstitutionExact {
  import opened Wrappers
  import opened Sequences
  import opened Substitution
  import opened SubstitutionOrder

  // ---- One variable after the others ----

  /** With the variables of `env` replaced, no segment has become an occurrence of variable `t`. */
  predicate NoClash(segs: seq<string>, env: Env, t: string) {
    segs == [] ||
    (&& (Pick(segs[0], env, 0).None? && t <= segs[0] + Tail(segs[1..], env) ==> t <= segs[0])
     && NoClash(segs[1..], env, t))
  }

  /** No replacement, together with what stands before it, completes another variable. */
  ghost predicate Clear(segs: seq<string>, env: Env) {
    forall t :: t in env ==> NoClash(segs, env - {t}, t)
  }

  lemma SinglePick(s: string, t: string, v: string)
    ensures Pick(s, map[t := v], 0) == if t <= s then Some(t) else None
  {
    var p := Pick(s, map[t := v], 0);
    assert t in map[t := v];
  }

  lemma PickMore(b: string, env: Env, t: string, v: string)
    requires Clean(env[t := v]) && t !in env
    ensures Clean(env)
    ensures Pick(b, env[t := v], 0) ==
            if Pick(b, env, 0).Some? then Pick(b, env, 0) else if t <= b then Some(t) else None
  {
    var env' := env[t := v];
    assert forall x :: x in env ==> x in env' && env'[x] == env[x];
    if Pick(b, env, 0).Some? {
      PickExact(b, env', Pick(b, env, 0).value);
    } else if t <= b {
      PickExact(b, env', t);
    }
  }

  lemma TailVar(segs: seq<string>, env: Env)
    requires segs != [] && Pick(segs[0], env, 0).Some?
    ensures var t := Pick(segs[0], env, 0).value;
      Tail(segs, env) == (env[t] + segs[0][|t|..]) + Tail(segs[1..], env) && Rest(segs, env) == Rest(segs[1..], env)
  {
  }

  ghost predicate Composed(segs: seq<string>, env: Env, t: string, v: string) {
    && Tail(segs, env) + Tail(Rest(segs, env), map[t := v]) == Tail(segs, env[t := v])
    && Rest(Rest(segs, env), map[t := v]) == Rest(segs, env[t := v])
  }

  lemma ComposeDone(segs: seq<string>, env: Env, t: string, v: string)
    requires segs != [] && Clean(env[t := v]) && t !in env && Composed(segs[1..], env, t, v)
    requires Pick(segs[0], env, 0).Some?
    ensures Composed(segs, env, t, v)
  {
    var u := Pick(segs[0], env, 0).value;
    PickMore(segs[0], env, t, v);
    TailVar(segs, env);
    TailVar(segs, env[t := v]);
    Associate(env[u] + segs[0][|u|..], Tail(segs[1..], env), Tail(Rest(segs[1..], env), map[t := v]));
  }

  lemma RestKept(segs: seq<string>, env: Env)
    requires segs != [] && Pick(segs[0], env, 0).None?
    ensures Tail(segs, env) == ""
    ensures Rest(segs, env) != [] && Rest(segs, env)[0] == segs[0] + Tail(segs[1..], env)
    ensures Rest(segs, env)[1..] == Rest(segs[1..], env)
  {
  }

  lemma ComposeNew(segs: seq<string>, env: Env, t: string, v: string)
    requires segs != [] && Clean(env[t := v]) && t !in env && Composed(segs[1..], env, t, v)
    requires Pick(segs[0], env, 0).None? && t <= segs[0]
    ensures Composed(segs, env, t, v)
  {
    PickMore(segs[0], env, t, v);
    SinglePick(segs[0] + Tail(segs[1..], env), t, v);
    RestKept(segs, env);
    ReplaceFront(segs[0], Tail(segs[1..], env), Rest(segs, env), t, v);
    Associate(v + segs[0][|t|..], Tail(segs[1..], env), Tail(Rest(segs[1..], env), map[t := v]));
    TailVar(segs, env[t := v]);
  }

  lemma ReplaceFront(b: string, tail: string, rs: seq<string>, t: string, v: string)
    requires rs != [] && rs[0] == b + tail && t <= b
    ensures Tail(rs, map[t := v]) == ((v + b[|t|..]) + tail) + Tail(rs[1..], map[t := v])
    ensures Rest(rs, map[t := v]) == Rest(rs[1..], map[t := v])
  {
    SinglePick(b + tail, t, v);
    TailVar(rs, map[t := v]);
    assert (b + tail)[|t|..] == b[|t|..] + tail;
    Associate(v, b[|t|..], tail);
  }

  lemma ComposeKeep(segs: seq<string>, env: Env, t: string, v: string)
    requires segs != [] && Clean(env[t := v]) && t !in env && Composed(segs[1..], env, t, v)
    requires Pick(segs[0], env, 0).None? && !(t <= segs[0] + Tail(segs[1..], env))
    ensures Composed(segs, env, t, v)
  {
    var b, one := segs[0], map[t := v];
    var tail, kept := Tail(segs[1..], env), Rest(segs[1..], env);
    PickMore(b, env, t, v);
    var rs := [b + tail] + kept;
    assert Rest(segs, env) == rs && rs[0] == b + tail && rs[1..] == kept;
    SinglePick(b + tail, t, v);
    Associate(b, tail, Tail(kept, one));
  }

  /** Replacing one more variable in a text in which `env` was replaced simultaneously. */
  lemma {:induction false} Compose(segs: seq<string>, env: Env, t: string, v: string)
    requires Clean(env[t := v]) && t !in env && NoClash(segs, env, t)
    ensures Composed(segs, env, t, v)
  {
    if segs != [] {
      Compose(segs[1..], env, t, v);
      if Pick(segs[0], env, 0).Some? {
        ComposeDone(segs, env, t, v);
      } else if t <= segs[0] {
        ComposeNew(segs, env, t, v);
      } else {
        ComposeKeep(segs, env, t, v);
      }
    }
  }

  /** Replacing fewer variables leaves less in front of the next dollar. */
  lemma {:induction false} TailGrows(segs: seq<string>, small: Env, big: Env)
    requires Clean(big) && (forall t :: t in small ==> t in big && big[t] == small[t])
    ensures Tail(segs, small) <= Tail(segs, big)
  {
    if segs != [] {
      TailGrows(segs[1..], small, big);
      var p := Pick(segs[0], small, 0);
      if p.Some? {
        PickExact(segs[0], big, p.value);
        TailVar(segs, small);
        TailVar(segs, big);
      }
    }
  }

  lemma {:induction false} NoClashShrinks(segs: seq<string>, small: Env, big: Env, t: string)
    requires t in big && Clean(big) && NoClash(segs, big - {t}, t)
    requires t !in small && forall u :: u in small ==> u in big && big[u] == small[u]
    ensures NoClash(segs, small, t)
  {
    if segs != [] {
      var b, others := segs[0], big - {t};
      NoClashShrinks(segs[1..], small, big, t);
      TailGrows(segs[1..], small, others);
      var whole := b + Tail(segs[1..], others);
      if Pick(b, small, 0).None? && t <= b + Tail(segs[1..], small) {
        assert t <= whole;
        var p := Pick(b, others, 0);
        if p.Some? {
          Comparable(p.value, t, whole);
        }
      }
    }
  }

  // ---- All variables in some order ----

  /** The loop, for variables that all have a value. */
  function RunAll(s: string, env: Env, ts: seq<string>): string
    requires forall t :: t in ts ==> t in env
    decreases |ts|
  {
    if ts == [] then s else RunAll(ReplaceAll(s, "$" + ts[0], env[ts[0]]), env, ts[1..])
  }

  lemma CleanPart(env: Env, part: Env)
    requires Clean(env) && forall t :: t in part ==> t in env && env[t] == part[t]
    ensures Clean(part)
  {
  }

  /** One turn of the loop on a text given by its segments. */
  lemma ReplaceSegments(head: string, segs: seq<string>, t: string, v: string)
    requires Plain(head) && AllPlain(segs) && Plain(t) && Plain(v)
    ensures ReplaceAll(Text(head, segs), "$" + t, v) == Text(head + Tail(segs, map[t := v]), Rest(segs, map[t := v]))
    ensures Plain(head + Tail(segs, map[t := v])) && AllPlain(Rest(segs, map[t := v]))
  {
    ReplaceIsSimultaneous(Text(head, segs), t, v);
    SimultaneousIsSegmentwise(head, segs, map[t := v]);
    TailPlain(segs, map[t := v]);
  }

  /** From the text in which `done` was replaced simultaneously, the loop over the other variables ends
      in the text in which all were. */
  lemma {:induction false} LoopIsSimultaneous(head: string, segs: seq<string>, env: Env, done: Env, ts: seq<string>)
    requires Plain(head) && AllPlain(segs) && Clean(env) && Clear(segs, env)
    requires Remaining(env, done, ts)
    ensures RunAll(Text(head + Tail(segs, done), Rest(segs, done)), env, ts) ==
            Text(head + Tail(segs, env), Rest(segs, env))
    decreases |ts|
  {
    CleanPart(env, done);
    TailPlain(segs, done);
    if ts == [] {
      assert done == env;
    } else {
      RemainingNext(env, done, ts);
      var t, v := ts[0], env[ts[0]];
      var done' := done[t := v];
      CleanPart(env, done');
      NoClashShrinks(segs, done, env, t);
      Compose(segs, done, t, v);
      ReplaceSegments(head + Tail(segs, done), Rest(segs, done), t, v);
      Associate(head, Tail(segs, done), Tail(Rest(segs, done), map[t := v]));
      LoopIsSimultaneous(head, segs, env, done', ts[1..]);
    }
  }

  // ---- A clash costs a dollar that simultaneous substitution keeps ----

  ghost predicate Begins(b: string, ts: set<string>) {
    exists t :: t in ts && t <= b
  }

  /** How many of the segments begin with none of the variables. */
  ghost function Unmatched(bs: seq<string>, ts: set<string>): nat {
    if bs == [] then 0 else (if Begins(bs[0], ts) then 0 else 1) + Unmatched(bs[1..], ts)
  }

  /** Each current segment begins with the original segment it comes from. */
  ghost predicate Covers(bs: seq<string>, segs: seq<string>) {
    |bs| == |segs| && forall k :: 0 <= k < |bs| ==> bs[k] <= segs[k]
  }

  function RunSegments(segs: seq<string>, env: Env, ts: seq<string>): seq<string>
    requires forall t :: t in ts ==> t in env
    decreases |ts|
  {
    if ts == [] then segs else RunSegments(Rest(segs, map[ts[0] := env[ts[0]]]), env, ts[1..])
  }

  /** The originals of the segments that survive the replacement of `t`. */
  function Surviving(bs: seq<string>, segs: seq<string>, t: string): seq<string>
    requires |bs| == |segs|
  {
    if bs == [] then []
    else if t <= segs[0] then Surviving(bs[1..], segs[1..], t)
    else [bs[0]] + Surviving(bs[1..], segs[1..], t)
  }

  lemma {:induction false} SurvivorsCover(bs: seq<string>, segs: seq<string>, t: string, v: string, ts: set<string>)
    requires Covers(bs, segs)
    ensures Covers(Surviving(bs, segs, t), Rest(segs, map[t := v]))
    ensures Unmatched(Surviving(bs, segs, t), ts) <= Unmatched(bs, ts)
    ensures forall b :: b in Surviving(bs, segs, t) ==> b in bs && !(t <= b)
    decreases |bs|
  {
    if bs != [] {
      SurvivorsCover(bs[1..], segs[1..], t, v, ts);
      SinglePick(segs[0], t, v);
      var more := Surviving(bs[1..], segs[1..], t);
      if t <= segs[0] {
        assert Surviving(bs, segs, t) == more;
      } else {
        assert Surviving(bs, segs, t) == [bs[0]] + more;
        assert ([bs[0]] + more)[1..] == more;
        assert bs[0] <= segs[0] + Tail(segs[1..], map[t := v]);
      }
    }
  }

  lemma {:induction false} AllUnmatched(bs: seq<string>, ts: set<string>)
    requires forall b :: b in bs ==> !Begins(b, ts)
    ensures Unmatched(bs, ts) == |bs|
  {
    if bs != [] {
      AllUnmatched(bs[1..], ts);
    }
  }

  /** None of the originals begins with a variable that is no longer to come. */
  ghost predicate Unbegun(bs: seq<string>, env: Env, ts: seq<string>) {
    forall t, b :: t in env && t !in ts && b in bs ==> !(t <= b)
  }

  lemma UnbegunNext(bs: seq<string>, segs: seq<string>, env: Env, ts: seq<string>)
    requires |bs| == |segs| && ts != [] && Unbegun(bs, env, ts)
    requires forall b :: b in Surviving(bs, segs, ts[0]) ==> b in bs && !(ts[0] <= b)
    ensures Unbegun(Surviving(bs, segs, ts[0]), env, ts[1..])
  {
    assert forall t :: t in ts ==> t == ts[0] || t in ts[1..];
  }

  /** The loop leaves no more segments than originals that begin with no variable. */
  lemma {:induction false} LoopRemovesMatched(bs: seq<string>, segs: seq<string>, env: Env, ts: seq<string>)
    requires Covers(bs, segs) && (forall t :: t in ts ==> t in env) && Unbegun(bs, env, ts)
    ensures |RunSegments(segs, env, ts)| <= Unmatched(bs, env.Keys)
    decreases |ts|
  {
    if ts == [] {
      AllUnmatched(bs, env.Keys);
    } else {
      var t := ts[0];
      SurvivorsCover(bs, segs, t, env[t], env.Keys);
      UnbegunNext(bs, segs, env, ts);
      LoopRemovesMatched(Surviving(bs, segs, t), Rest(segs, map[t := env[t]]), env, ts[1..]);
    }
  }

  /** The originals of the segments that are left when `done` was replaced simultaneously. */
  function Kept(segs: seq<string>, done: Env): seq<string> {
    if segs == [] then []
    else if Pick(segs[0], done, 0).Some? then Kept(segs[1..], done)
    else [segs[0]] + Kept(segs[1..], done)
  }

  lemma CoversCons(b: string, bs: seq<string>, s: string, ss: seq<string>)
    requires Covers(bs, ss) && b <= s
    ensures Covers([b] + bs, [s] + ss)
  {
  }

  lemma {:induction false} KeptCovers(segs: seq<string>, done: Env)
    ensures Covers(Kept(segs, done), Rest(segs, done))
  {
    if segs != [] {
      KeptCovers(segs[1..], done);
      CoversCons(segs[0], Kept(segs[1..], done), segs[0] + Tail(segs[1..], done), Rest(segs[1..], done));
    }
  }

  lemma {:induction false} KeptFacts(segs: seq<string>, done: Env, ts: set<string>)
    requires done.Keys <= ts
    ensures Covers(Kept(segs, done), Rest(segs, done))
    ensures Unmatched(Kept(segs, done), ts) == Unmatched(segs, ts)
    ensures forall t, b :: t in done && b in Kept(segs, done) ==> !(t <= b)
  {
    KeptCovers(segs, done);
    if segs != [] {
      KeptFacts(segs[1..], done, ts);
      var p, more := Pick(segs[0], done, 0), Kept(segs[1..], done);
      if p.Some? {
        assert p.value in ts;
      } else {
        assert ([segs[0]] + more)[1..] == more;
      }
    }
  }

  lemma NotBegunBy(u: string, t: string, b: string, tail: string)
    requires t <= b + tail && !(t <= b)
    ensures u <= b ==> u <= t && u != t
  {
  }

  /** A clash removes an original that begins with no variable at all. */
  lemma {:induction false} ClashLoses(segs: seq<string>, env: Env, done: Env, t: string)
    requires Clean(env) && t in env && t !in done && !NoClash(segs, done, t)
    requires forall u :: u in done ==> u in env && env[u] == done[u]
    ensures |Kept(segs, done)| == |Rest(segs, done)|
    ensures Unmatched(Surviving(Kept(segs, done), Rest(segs, done), t), env.Keys) < Unmatched(segs, env.Keys)
  {
    KeptFacts(segs, done, env.Keys);
    KeptFacts(segs[1..], done, env.Keys);
    var b, bs, rs := segs[0], Kept(segs[1..], done), Rest(segs[1..], done);
    if Pick(b, done, 0).Some? {
      assert Kept(segs, done) == bs && Rest(segs, done) == rs;
      ClashLoses(segs[1..], env, done, t);
      assert Pick(b, done, 0).value in env.Keys;
    } else {
      RestKept(segs, done);
      var whole := b + Tail(segs[1..], done);
      assert Kept(segs, done)[0] == b && Kept(segs, done)[1..] == bs;
      SurvivorsCover(bs, rs, t, env[t], env.Keys);
      if t <= whole && !(t <= b) {
        assert Surviving(Kept(segs, done), Rest(segs, done), t) == Surviving(bs, rs, t);
        forall u | u in env.Keys ensures !(u <= b) {
          NotBegunBy(u, t, b, Tail(segs[1..], done));
        }
      } else {
        ClashLoses(segs[1..], env, done, t);
        if t <= whole {
          assert Begins(b, env.Keys);
          assert Surviving(Kept(segs, done), Rest(segs, done), t) == Surviving(bs, rs, t);
        } else {
          assert Surviving(Kept(segs, done), Rest(segs, done), t) == [b] + Surviving(bs, rs, t);
          assert ([b] + Surviving(bs, rs, t))[1..] == Surviving(bs, rs, t);
        }
      }
    }
  }

  /** `ts` lists the variables of `env` that are not in `done`, each once. */
  ghost predicate Remaining(env: Env, done: Env, ts: seq<string>) {
    && (forall u :: u in done ==> u in env && env[u] == done[u])
    && Distinct(ts)
    && (forall t :: t in ts <==> t in env && t !in done)
  }

  lemma RemainingNext(env: Env, done: Env, ts: seq<string>)
    requires Remaining(env, done, ts) && ts != []
    ensures ts[0] in env && ts[0] !in done
    ensures Remaining(env, done[ts[0] := env[ts[0]]], ts[1..])
    ensures |ts| == 1 ==> done == env - {ts[0]}
  {
    assert ts[0] in ts;
    assert ts == [ts[0]] + ts[1..];
  }

  lemma ClashNow(segs: seq<string>, env: Env, done: Env, ts: seq<string>)
    requires Clean(env) && ts != [] && Remaining(env, done, ts) && !NoClash(segs, done, ts[0])
    ensures |RunSegments(Rest(segs, done), env, ts)| < Unmatched(segs, env.Keys)
  {
    var t := ts[0];
    RemainingNext(env, done, ts);
    ClashLoses(segs, env, done, t);
    KeptFacts(segs, done, env.Keys);
    var bs := Surviving(Kept(segs, done), Rest(segs, done), t);
    SurvivorsCover(Kept(segs, done), Rest(segs, done), t, env[t], env.Keys);
    LoopRemovesMatched(bs, Rest(Rest(segs, done), map[t := env[t]]), env, ts[1..]);
  }

  lemma NoClashStep(segs: seq<string>, env: Env, done: Env, ts: seq<string>)
    requires Clean(env) && ts != [] && Remaining(env, done, ts) && NoClash(segs, done, ts[0])
    ensures RunSegments(Rest(segs, done), env, ts) == RunSegments(Rest(segs, done[ts[0] := env[ts[0]]]), env, ts[1..])
  {
    RemainingNext(env, done, ts);
    CleanPart(env, done[ts[0] := env[ts[0]]]);
    Compose(segs, done, ts[0], env[ts[0]]);
  }

  /** An order that ends with a variable for which there is a clash leaves too few segments. */
  lemma {:induction false} ClashAtTheEnd(segs: seq<string>, env: Env, done: Env, ts: seq<string>)
    requires Clean(env) && ts != [] && Remaining(env, done, ts)
    requires !NoClash(segs, env - {ts[|ts| - 1]}, ts[|ts| - 1])
    ensures |RunSegments(Rest(segs, done), env, ts)| < Unmatched(segs, env.Keys)
    decreases |ts|
  {
    RemainingNext(env, done, ts);
    if |ts| > 1 && NoClash(segs, done, ts[0]) {
      NoClashStep(segs, env, done, ts);
      var more := ts[1..];
      assert more[|more| - 1] == ts[|ts| - 1];
      ClashAtTheEnd(segs, env, done[ts[0] := env[ts[0]]], more);
    } else {
      ClashNow(segs, env, done, ts);
    }
  }

  // ---- Back to texts ----

  function Dollars(s: string): nat {
    if s == "" then 0 else (if s[0] == '$' then 1 else 0) + Dollars(s[1..])
  }

  lemma {:induction false} DollarsPlain(x: string, rest: string)
    requires Plain(x)
    ensures Dollars(x + rest) == Dollars(rest)
  {
    if x == "" {
      assert x + rest == rest;
    } else {
      DollarsPlain(x[1..], rest);
      assert x[0] in x && (x + rest)[1..] == x[1..] + rest;
    }
  }

  lemma {:induction false} DollarsOfText(head: string, segs: seq<string>)
    requires Plain(head) && AllPlain(segs)
    ensures Dollars(Text(head, segs)) == |segs|
    decreases |segs|
  {
    TextFront(head, segs);
    DollarsPlain(head, Text("", segs));
    if segs != [] {
      DollarsOfText(segs[0], segs[1..]);
      assert Text("", segs)[1..] == Text(segs[0], segs[1..]);
    }
  }

  lemma {:induction false} RestCount(segs: seq<string>, env: Env)
    requires Clean(env)
    ensures |Rest(segs, env)| == Unmatched(segs, env.Keys)
  {
    if segs != [] {
      RestCount(segs[1..], env);
      var p := Pick(segs[0], env, 0);
      assert p.Some? ==> p.value in env.Keys;
    }
  }

  /** The loop on a text, followed on its segments. */
  lemma {:induction false} LoopOnSegments(head: string, segs: seq<string>, env: Env, ts: seq<string>)
    returns (head': string)
    requires Plain(head) && AllPlain(segs) && Clean(env) && forall t :: t in ts ==> t in env
    ensures Plain(head') && AllPlain(RunSegments(segs, env, ts))
    ensures RunAll(Text(head, segs), env, ts) == Text(head', RunSegments(segs, env, ts))
    decreases |ts|
  {
    if ts == [] {
      head' := head;
    } else {
      var t := ts[0];
      assert t in env;
      ReplaceSegments(head, segs, t, env[t]);
      head' := LoopOnSegments(head + Tail(segs, map[t := env[t]]), Rest(segs, map[t := env[t]]), env, ts[1..]);
    }
  }

  lemma {:induction false} EmptyRest(segs: seq<string>)
    ensures Tail(segs, map[]) == "" && Rest(segs, map[]) == segs
  {
    if segs != [] {
      EmptyRest(segs[1..]);
      assert segs[0] + "" == segs[0];
    }
  }

  /** Without a clash every order gives the simultaneous substitution. */
  lemma ClearSuffices(head: string, segs: seq<string>, env: Env, ts: seq<string>)
    requires Plain(head) && AllPlain(segs) && Clean(env) && Clear(segs, env)
    requires Distinct(ts) && forall t :: t in ts <==> t in env
    ensures RunAll(Text(head, segs), env, ts) == Simultaneous(Text(head, segs), env)
  {
    EmptyRest(segs);
    assert head + "" == head;
    LoopIsSimultaneous(head, segs, env, map[], ts);
    SimultaneousIsSegmentwise(head, segs, env);
  }

  /** With a clash on `t`, every order that ends with `t` gives something else. */
  lemma ClashRefutes(head: string, segs: seq<string>, env: Env, ts: seq<string>)
    requires Plain(head) && AllPlain(segs) && Clean(env)
    requires ts != [] && Distinct(ts) && forall t :: t in ts <==> t in env
    requires !NoClash(segs, env - {ts[|ts| - 1]}, ts[|ts| - 1])
    ensures RunAll(Text(head, segs), env, ts) != Simultaneous(Text(head, segs), env)
  {
    EmptyRest(segs);
    ClashAtTheEnd(segs, env, map[], ts);
    RestCount(segs, env);
    var head' := LoopOnSegments(head, segs, env, ts);
    DollarsOfText(head', RunSegments(segs, env, ts));
    SimultaneousIsSegmentwise(head, segs, env);
    TailPlain(segs, env);
    DollarsOfText(head + Tail(segs, env), Rest(segs, env));
  }
}
