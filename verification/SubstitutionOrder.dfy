/** When the order of the variables does not matter: exactly when no order can complete a variable
    that the text only begins. */
module SubstitutionOrder {
  import opened Wrappers
  import opened Sequences
  import opened Substitution

  // ---- A text as what precedes its first dollar and the segments after each dollar ----

  predicate Plain(s: string) {
    '$' !in s
  }

  function Text(head: string, segs: seq<string>): string
    decreases |segs|
  {
    if segs == [] then head else head + "$" + Text(segs[0], segs[1..])
  }

  predicate AllPlain(segs: seq<string>) {
    forall s :: s in segs ==> Plain(s)
  }

  /** Variable texts and replacements without dollars, no variable text a prefix of another. */
  ghost predicate Clean(env: Env) {
    && (forall t :: t in env ==> Plain(t) && Plain(env[t]))
    && (forall t, u :: t in env && u in env && t <= u ==> t == u)
  }

  lemma PickExact(s: string, env: Env, t: string)
    requires Clean(env) && t in env && t <= s
    ensures Pick(s, env, 0) == Some(t)
  {
    var p := Pick(s, env, 0);
    assert p.Some?;
    Comparable(p.value, t, s);
  }

  lemma Comparable(x: string, y: string, s: string)
    requires x <= s && y <= s
    ensures x <= y || y <= x
  {
  }

  // ---- Substituting segment by segment ----

  /** What the replaced variables at the front of the segments add to the segment before them. */
  function Tail(segs: seq<string>, env: Env): string {
    if segs == [] then ""
    else
      var t := Pick(segs[0], env, 0);
      if t.None? then "" else env[t.value] + segs[0][|t.value|..] + Tail(segs[1..], env)
  }

  /** The segments that do not begin with a variable, each with what is added to it. */
  function Rest(segs: seq<string>, env: Env): seq<string> {
    if segs == [] then []
    else if Pick(segs[0], env, 0).Some? then Rest(segs[1..], env)
    else [segs[0] + Tail(segs[1..], env)] + Rest(segs[1..], env)
  }

  lemma {:induction false} TailPlain(segs: seq<string>, env: Env)
    requires AllPlain(segs) && Clean(env)
    ensures Plain(Tail(segs, env)) && AllPlain(Rest(segs, env))
  {
    if segs != [] {
      TailPlain(segs[1..], env);
      var t := Pick(segs[0], env, 0);
      assert segs[0] in segs;
      if t.Some? {
        assert t.value in env && Plain(env[t.value]);
      }
    }
  }

  lemma PrefixPlain(x: string, seg: string, rest: string)
    requires Plain(x) && (rest == "" || rest[0] == '$')
    ensures x <= seg + rest <==> x <= seg
  {
    assert rest != "" ==> (seg + rest)[|seg|] == '$';
  }

  lemma PickIgnoresRest(seg: string, rest: string, env: Env)
    requires Clean(env) && (rest == "" || rest[0] == '$')
    ensures Pick(seg + rest, env, 0) == Pick(seg, env, 0)
  {
    var p, q := Pick(seg + rest, env, 0), Pick(seg, env, 0);
    if p.Some? {
      PrefixPlain(p.value, seg, rest);
      PickExact(seg, env, p.value);
    } else if q.Some? {
      PrefixPlain(q.value, seg, rest);
    }
  }

  lemma Front(x: string, rest: string)
    requires x != ""
    ensures x + rest == [x[0]] + (x[1..] + rest)
  {
  }

  lemma SimultaneousChar(c: char, rest: string, env: Env)
    requires c != '$'
    ensures Simultaneous([c] + rest, env) == [c] + Simultaneous(rest, env)
  {
    assert ([c] + rest)[1..] == rest;
  }

  lemma {:induction false} SimultaneousPlain(x: string, rest: string, env: Env)
    requires Plain(x)
    ensures Simultaneous(x + rest, env) == x + Simultaneous(rest, env)
  {
    if x == "" {
      assert x + rest == rest;
    } else {
      assert x[0] in x;
      SimultaneousPlain(x[1..], rest, env);
      Front(x, rest);
      Front(x, Simultaneous(rest, env));
      SimultaneousChar(x[0], x[1..] + rest, env);
    }
  }

  lemma SimultaneousPick(s: string, env: Env, t: string)
    requires Pick(s, env, 0) == Some(t)
    ensures Simultaneous("$" + s, env) == env[t] + Simultaneous(s[|t|..], env)
  {
    var whole := "$" + s;
    assert whole[1..] == s && whole[1 + |t|..] == s[|t|..];
  }

  lemma SimultaneousVar(b: string, more: string, env: Env, t: string)
    requires Clean(env) && Plain(b) && (more == "" || more[0] == '$')
    requires Pick(b, env, 0) == Some(t)
    ensures Simultaneous("$" + (b + more), env) == env[t] + (b[|t|..] + Simultaneous(more, env))
  {
    PickIgnoresRest(b, more, env);
    assert (b + more)[|t|..] == b[|t|..] + more;
    SimultaneousPick(b + more, env, t);
    SimultaneousPlain(b[|t|..], more, env);
  }

  lemma SimultaneousNoVar(b: string, more: string, env: Env)
    requires Clean(env) && Plain(b) && (more == "" || more[0] == '$')
    requires Pick(b, env, 0) == None
    ensures Simultaneous("$" + (b + more), env) == "$" + (b + Simultaneous(more, env))
  {
    var s := "$" + (b + more);
    assert s[1..] == b + more;
    PickIgnoresRest(b, more, env);
    assert PickVar(s, env) == None;
    SimultaneousPlain(b, more, env);
  }

  lemma TextFront(head: string, segs: seq<string>)
    ensures Text(head, segs) == head + Text("", segs)
  {
  }

  lemma SegmentVar(segs: seq<string>, env: Env, more: string)
    requires segs != [] && AllPlain(segs) && Clean(env) && Pick(segs[0], env, 0).Some?
    requires more == Text("", segs[1..])
    requires Simultaneous(more, env) == Tail(segs[1..], env) + Text("", Rest(segs[1..], env))
    ensures Simultaneous("$" + (segs[0] + more), env) == Tail(segs, env) + Text("", Rest(segs, env))
  {
    var t := Pick(segs[0], env, 0).value;
    SimultaneousVar(segs[0], more, env, t);
    Associate4(env[t], segs[0][|t|..], Tail(segs[1..], env), Text("", Rest(segs[1..], env)));
  }

  lemma SegmentNoVar(segs: seq<string>, env: Env, more: string)
    requires segs != [] && AllPlain(segs) && Clean(env) && Pick(segs[0], env, 0) == None
    requires more == Text("", segs[1..])
    requires Simultaneous(more, env) == Tail(segs[1..], env) + Text("", Rest(segs[1..], env))
    ensures Simultaneous("$" + (segs[0] + more), env) == Tail(segs, env) + Text("", Rest(segs, env))
  {
    var b, tail, after := segs[0], Tail(segs[1..], env), Rest(segs[1..], env);
    SimultaneousNoVar(b, more, env);
    TextCons(b, tail, after);
    assert Rest(segs, env) == [b + tail] + after;
  }

  lemma TextCons(b: string, tail: string, after: seq<string>)
    ensures "" + Text("", [b + tail] + after) == "$" + (b + (tail + Text("", after)))
  {
    var rs := [b + tail] + after;
    assert rs[0] == b + tail && rs[1..] == after;
    TextFront(b + tail, after);
  }

  lemma {:induction false} SegmentsOnly(segs: seq<string>, env: Env)
    requires AllPlain(segs) && Clean(env)
    ensures Simultaneous(Text("", segs), env) == Tail(segs, env) + Text("", Rest(segs, env))
    decreases |segs|
  {
    if segs != [] {
      var more := Text("", segs[1..]);
      SegmentsOnly(segs[1..], env);
      TextFront(segs[0], segs[1..]);
      assert Text("", segs) == "$" + (segs[0] + more);
      if Pick(segs[0], env, 0).Some? {
        SegmentVar(segs, env, more);
      } else {
        SegmentNoVar(segs, env, more);
      }
    }
  }

  /** The one-pass reference, segment by segment. */
  lemma SimultaneousIsSegmentwise(head: string, segs: seq<string>, env: Env)
    requires Plain(head) && AllPlain(segs) && Clean(env)
    ensures Simultaneous(Text(head, segs), env) == Text(head + Tail(segs, env), Rest(segs, env))
  {
    TextFront(head, segs);
    SimultaneousPlain(head, Text("", segs), env);
    SegmentsOnly(segs, env);
    TextFront(head + Tail(segs, env), Rest(segs, env));
  }

  lemma {:induction false} ReplaceShort(s: string, sub: string, v: string)
    requires sub != "" && s != "" && !(sub <= s)
    ensures ReplaceAll(s, sub, v) == [s[0]] + ReplaceAll(s[1..], sub, v)
  {
    if |s| < |sub| {
      assert ReplaceAll(s[1..], sub, v) == s[1..];
    }
  }

  /** Replacing one variable is the one-pass reference for that variable alone. */
  lemma {:induction false} ReplaceIsSimultaneous(s: string, t: string, v: string)
    ensures ReplaceAll(s, "$" + t, v) == Simultaneous(s, map[t := v])
    decreases |s|
  {
    var env := map[t := v];
    if s != "" {
      assert "$" + t <= s <==> s[0] == '$' && t <= s[1..] by {
        if s[0] == '$' && t <= s[1..] {
          assert s == "$" + s[1..];
        }
        if "$" + t <= s {
          assert s[1..1 + |t|] == t;
        }
      }
      if "$" + t <= s {
        assert PickVar(s, env) == Some(t);
        ReplaceIsSimultaneous(s[1 + |t|..], t, v);
      } else {
        assert PickVar(s, env).None?;
        ReplaceShort(s, "$" + t, v);
        ReplaceIsSimultaneous(s[1..], t, v);
      }
    }
  }
}
