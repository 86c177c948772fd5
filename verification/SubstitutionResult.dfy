/** The results about makeSubstitutions in its own terms: a text, a suffix and a map of names. */
module SubstitutionResult {
  import opened Sequences
  import opened Substitution
  import opened SubstitutionOrder
  import opened SubstitutionExact
  import Strings

  // ---- Texts and their segments ----

  function Head(s: string): string {
    Strings.Split(s, '$')[0]
  }

  /** What follows each dollar of the text. */
  function Segments(s: string): seq<string> {
    Strings.Split(s, '$')[1..]
  }

  lemma {:induction false} JoinIsText(parts: seq<string>)
    requires parts != []
    ensures Strings.Join(parts, "$") == Text(parts[0], parts[1..])
  {
    if |parts| > 1 {
      JoinIsText(parts[1..]);
    }
  }

  lemma SegmentsOfText(s: string)
    ensures s == Text(Head(s), Segments(s)) && Plain(Head(s)) && AllPlain(Segments(s))
  {
    var parts := Strings.Split(s, '$');
    JoinIsText(parts);
    assert parts[0] in parts;
    forall x | x in parts[1..] ensures Plain(x) {
      assert x in parts;
    }
  }

  // ---- What a value is replaced by ----

  predicate White(c: char) {
    c == ' ' || c == '\t' || c == '\n' || c == 11 as char || c == 12 as char || c == '\r'
  }

  predicate SeveralWords(v: string) {
    exists i, j, k :: 0 <= i < j < k < |v| && !White(v[i]) && White(v[j]) && !White(v[k])
  }

  /** Several words stand between single quotes, anything else as it is. */
  function InText(v: string): string {
    if SeveralWords(v) then "'" + v + "'" else v
  }

  lemma QuotedInText(v: string)
    ensures Quoted(v) == InText(v)
  {
    forall c: char ensures Strings.IsSpace(c) <==> White(c) {
      WhiteRange(c);
    }
  }

  lemma WhiteRange(c: char)
    ensures Strings.IsSpace(c) <==> White(c)
  {
    if 9 <= c as int <= 13 {
      assert c == 9 as char || c == 10 as char || c == 11 as char || c == 12 as char || c == 13 as char;
    }
  }

  /** `env` holds the variables of the map that have a value, each with what stands for it in the text. */
  ghost predicate IsEnvironment(env: Env, m: map<string, string>, ext: string) {
    && (forall t :: t in env ==> exists k :: k in m && m[k] != "" && t == k + ext)
    && (forall k :: k in m && m[k] != "" ==>
          && k + ext in env
          && (SeveralWords(m[k]) ==> env[k + ext] == "'" + m[k] + "'")
          && (!SeveralWords(m[k]) ==> env[k + ext] == m[k]))
  }

  lemma EnvironmentIs(env: Env, m: map<string, string>, ext: string)
    requires IsEnvironment(env, m, ext)
    ensures env == EnvOf(m, ext)
  {
    forall k | k in m && m[k] != "" ensures k + ext in EnvOf(m, ext) && EnvOf(m, ext)[k + ext] == env[k + ext] {
      EnvValue(m, ext, k);
      QuotedInText(m[k]);
    }
    forall t | t in env ensures t in EnvOf(m, ext) && EnvOf(m, ext)[t] == env[t] {
      var k :| k in m && m[k] != "" && t == k + ext;
      EnvValue(m, ext, k);
    }
    forall t | t in EnvOf(m, ext) ensures t in env {
      var k := EnvName(m, ext, t);
    }
  }

  // ---- Maps of names and their variables ----

  lemma EnvValue(m: map<string, string>, ext: string, k: string)
    requires k in m && m[k] != ""
    ensures k + ext in EnvOf(m, ext) && EnvOf(m, ext)[k + ext] == Quoted(m[k])
  {
    assert (k + ext)[..|k + ext| - |ext|] == k;
  }

  lemma EnvName(m: map<string, string>, ext: string, t: string) returns (k: string)
    requires t in EnvOf(m, ext)
    ensures k in m && m[k] != "" && t == k + ext
  {
    k :| k in m && m[k] != "" && t == k + ext;
  }

  function Variables(ext: string, m: map<string, string>, order: seq<string>): seq<string>
    requires forall k :: k in order ==> k in m
  {
    if order == [] then []
    else if m[order[0]] == "" then Variables(ext, m, order[1..])
    else [order[0] + ext] + Variables(ext, m, order[1..])
  }

  lemma {:induction false} VariableOf(ext: string, m: map<string, string>, order: seq<string>, t: string)
    requires forall k :: k in order ==> k in m
    ensures t in Variables(ext, m, order) <==> exists k :: k in order && m[k] != "" && t == k + ext
  {
    if order != [] {
      VariableOf(ext, m, order[1..], t);
    }
  }

  lemma {:induction false} VariablesDistinct(ext: string, m: map<string, string>, order: seq<string>)
    requires (forall k :: k in order ==> k in m) && Distinct(order)
    ensures Distinct(Variables(ext, m, order))
  {
    if order != [] {
      VariablesDistinct(ext, m, order[1..]);
      VariableOf(ext, m, order[1..], order[0] + ext);
      forall k | k in order[1..] ensures k + ext != order[0] + ext {
        SameSuffix(k, order[0], ext);
      }
    }
  }

  lemma SameSuffix(a: string, b: string, ext: string)
    ensures a + ext == b + ext ==> a == b
  {
    if a + ext == b + ext {
      assert (a + ext)[..|a|] == a && (b + ext)[..|b|] == b;
    }
  }

  lemma {:induction false} VariablesInEnv(ext: string, m: map<string, string>, order: seq<string>)
    requires forall k :: k in order ==> k in m
    ensures forall t :: t in Variables(ext, m, order) ==> t in EnvOf(m, ext)
  {
    if order != [] {
      VariablesInEnv(ext, m, order[1..]);
      if m[order[0]] != "" {
        EnvValue(m, ext, order[0]);
      }
    }
  }

  lemma OneTurn(s: string, ext: string, m: map<string, string>, k: string)
    requires k in m && m[k] != ""
    ensures k + ext in EnvOf(m, ext)
    ensures SubstituteOne(s, ext, k, m[k]) == ReplaceAll(s, "$" + (k + ext), EnvOf(m, ext)[k + ext])
  {
    EnvValue(m, ext, k);
    assert "$" + k + ext == "$" + (k + ext);
  }

  lemma {:induction false} SubstituteIsLoop(s: string, ext: string, m: map<string, string>, order: seq<string>)
    requires forall k :: k in order ==> k in m
    requires forall t :: t in Variables(ext, m, order) ==> t in EnvOf(m, ext)
    ensures Substitute(s, ext, m, order) == RunAll(s, EnvOf(m, ext), Variables(ext, m, order))
    decreases |order|
  {
    if order != [] {
      var k := order[0];
      var more := Variables(ext, m, order[1..]);
      VariablesInEnv(ext, m, order[1..]);
      SubstituteIsLoop(SubstituteOne(s, ext, k, m[k]), ext, m, order[1..]);
      if m[k] == "" {
        assert Variables(ext, m, order) == more;
      } else {
        OneTurn(s, ext, m, k);
        var ts := [k + ext] + more;
        assert Variables(ext, m, order) == ts && ts[0] == k + ext && ts[1..] == more;
      }
    }
  }

  lemma OrderRemains(ext: string, m: map<string, string>, order: seq<string>)
    requires IsOrder(order, m)
    ensures Remaining(EnvOf(m, ext), map[], Variables(ext, m, order))
  {
    VariablesDistinct(ext, m, order);
    VariablesInEnv(ext, m, order);
    forall t | t in EnvOf(m, ext) ensures t in Variables(ext, m, order) {
      var k := EnvName(m, ext, t);
      assert k in order;
      VariableOf(ext, m, order, t);
    }
  }

  lemma {:induction false} OrderEndingIn(m: map<string, string>, keys: set<string>) returns (order: seq<string>)
    requires keys <= m.Keys
    ensures (forall k :: k in order <==> k in keys) && Distinct(order)
    decreases |keys|
  {
    if keys == {} {
      order := [];
    } else {
      var k :| k in keys;
      var rest := OrderEndingIn(m, keys - {k});
      order := rest + [k];
    }
  }

  lemma {:induction false} LastVariable(ext: string, m: map<string, string>, order: seq<string>, k: string)
    requires (forall x :: x in order ==> x in m) && k in m && m[k] != ""
    ensures forall x :: x in order + [k] ==> x in m
    ensures Variables(ext, m, order + [k]) == Variables(ext, m, order) + [k + ext]
    decreases |order|
  {
    if order == [] {
      assert [k][1..] == [];
    } else {
      LastVariable(ext, m, order[1..], k);
      assert (order + [k])[0] == order[0] && (order + [k])[1..] == order[1..] + [k];
    }
  }

  lemma OrderWithoutClash(s: string, ext: string, m: map<string, string>, order: seq<string>)
    requires Clean(EnvOf(m, ext)) && Clear(Segments(s), EnvOf(m, ext)) && IsOrder(order, m)
    ensures Substitute(s, ext, m, order) == Simultaneous(s, EnvOf(m, ext))
  {
    SegmentsOfText(s);
    VariablesInEnv(ext, m, order);
    SubstituteIsLoop(s, ext, m, order);
    OrderRemains(ext, m, order);
    ClearSuffices(Head(s), Segments(s), EnvOf(m, ext), Variables(ext, m, order));
  }

  lemma OrderWithClash(s: string, ext: string, m: map<string, string>, k: string) returns (order: seq<string>)
    requires Clean(EnvOf(m, ext)) && k in m && m[k] != ""
    requires !NoClash(Segments(s), EnvOf(m, ext) - {k + ext}, k + ext)
    ensures IsOrder(order, m) && Substitute(s, ext, m, order) != Simultaneous(s, EnvOf(m, ext))
  {
    SegmentsOfText(s);
    var others := OrderEndingIn(m, m.Keys - {k});
    order := others + [k];
    assert IsOrder(order, m);
    LastVariable(ext, m, others, k);
    var ts := Variables(ext, m, order);
    assert ts[|ts| - 1] == k + ext;
    VariablesInEnv(ext, m, order);
    SubstituteIsLoop(s, ext, m, order);
    OrderRemains(ext, m, order);
    ClashRefutes(Head(s), Segments(s), EnvOf(m, ext), ts);
  }

  /** For names and values without dollars, no name a prefix of another: makeSubstitutions yields the
      simultaneous substitution in every iteration order of its map if and only if no replacement,
      with what stands before it in the text, completes another variable. */
  lemma SameInEveryOrderIffClear(s: string, ext: string, m: map<string, string>, env: Env)
    requires IsEnvironment(env, m, ext) && Clean(env)
    ensures Clear(Segments(s), env) <==>
            forall order :: IsOrder(order, m) ==> Substitute(s, ext, m, order) == Simultaneous(s, env)
  {
    EnvironmentIs(env, m, ext);
    if Clear(Segments(s), env) {
      forall order | IsOrder(order, m) ensures Substitute(s, ext, m, order) == Simultaneous(s, env) {
        OrderWithoutClash(s, ext, m, order);
      }
    } else {
      var t :| t in env && !NoClash(Segments(s), env - {t}, t);
      var k := EnvName(m, ext, t);
      var order := OrderWithClash(s, ext, m, k);
    }
  }

  /** A condition that can be read off the text: nothing between a dollar and the next one is a proper
      beginning of a variable. */
  predicate NoFragments(segs: seq<string>, env: Env) {
    forall i, t :: 0 <= i < |segs| - 1 && t in env ==> !(segs[i] <= t && segs[i] != t)
  }

  lemma {:induction false} NoFragmentsNoClash(segs: seq<string>, env: Env, done: Env, t: string)
    requires NoFragments(segs, env) && t in env
    ensures NoClash(segs, done, t)
  {
    if segs != [] {
      NoFragmentsNoClash(segs[1..], env, done, t);
      var b := segs[0];
      if t <= b + Tail(segs[1..], done) {
        Comparable(t, b, b + Tail(segs[1..], done));
        assert |segs| == 1 ==> b + Tail(segs[1..], done) == b;
      }
    }
  }

  lemma NoFragmentsSuffice(s: string, ext: string, m: map<string, string>, env: Env, order: seq<string>)
    requires IsEnvironment(env, m, ext) && Clean(env) && NoFragments(Segments(s), env) && IsOrder(order, m)
    ensures Substitute(s, ext, m, order) == Simultaneous(s, env)
  {
    EnvironmentIs(env, m, ext);
    forall t | t in env ensures NoClash(Segments(s), env - {t}, t) {
      NoFragmentsNoClash(Segments(s), env, env - {t}, t);
    }
    OrderWithoutClash(s, ext, m, order);
  }

  // ---- The reported values ----

  /** The text has an occurrence of the variable. */
  predicate Used(segs: seq<string>, t: string) {
    segs != [] && (t <= segs[0] || Used(segs[1..], t))
  }

  function UsedValues(segs: seq<string>, ext: string, m: map<string, string>, order: seq<string>): seq<string>
    requires forall k :: k in order ==> k in m
  {
    if order == [] then []
    else
      (if m[order[0]] != "" && Used(segs, order[0] + ext) then [m[order[0]]] else [])
      + UsedValues(segs, ext, m, order[1..])
  }

  lemma {:induction false} UnusedStays(segs: seq<string>, t: string, v: string)
    requires !Used(segs, t)
    ensures Tail(segs, map[t := v]) == "" && Rest(segs, map[t := v]) == segs
  {
    if segs != [] {
      SinglePick(segs[0], t, v);
      assert segs[0] + "" == segs[0];
      UnusedStays(segs[1..], t, v);
    }
  }

  lemma {:induction false} UsedGoes(segs: seq<string>, t: string, v: string)
    ensures |Rest(segs, map[t := v])| <= |segs|
    ensures Used(segs, t) ==> |Rest(segs, map[t := v])| < |segs|
  {
    if segs != [] {
      SinglePick(segs[0], t, v);
      UsedGoes(segs[1..], t, v);
    }
  }

  /** Without a clash, a variable occurs in the partly replaced text exactly if it did at the start. */
  lemma {:induction false} UsedIsOriginal(segs: seq<string>, done: Env, t: string)
    requires NoClash(segs, done, t) && forall u :: u in done ==> !(u <= t) && !(t <= u)
    ensures Used(Rest(segs, done), t) <==> Used(segs, t)
  {
    if segs != [] {
      var b := segs[0];
      UsedIsOriginal(segs[1..], done, t);
      var p := Pick(b, done, 0);
      if p.Some? {
        if t <= b {
          Comparable(p.value, t, b);
        }
      } else {
        RestKept(segs, done);
      }
    }
  }

  /** One turn changes the text exactly if the variable occurs in the original. */
  lemma TurnChangesIffUsed(head: string, segs: seq<string>, done: Env, t: string, v: string)
    requires Plain(head) && AllPlain(segs) && Clean(done[t := v]) && t !in done && NoClash(segs, done, t)
    ensures var s := Text(head + Tail(segs, done), Rest(segs, done));
      ReplaceAll(s, "$" + t, v) != s <==> Used(segs, t)
  {
    PickMore("", done, t, v);
    var rs, h := Rest(segs, done), head + Tail(segs, done);
    TailPlain(segs, done);
    var env := done[t := v];
    forall u | u in done ensures !(u <= t) && !(t <= u) {
      assert u in env && t in env;
    }
    UsedIsOriginal(segs, done, t);
    assert t in env;
    assert Plain(t) && Plain(env[t]);
    ReplaceSegments(h, rs, t, v);
    UsedGoes(rs, t, v);
    DollarsOfText(h, rs);
    DollarsOfText(h + Tail(rs, map[t := v]), Rest(rs, map[t := v]));
    if !Used(rs, t) {
      UnusedStays(rs, t, v);
      assert h + "" == h;
    }
  }

  /** One turn of the loop for a name with a value, on a partly replaced text. */
  lemma ReportTurn(head: string, segs: seq<string>, ext: string, m: map<string, string>, done: Env, k: string,
      ts: seq<string>)
    requires Plain(head) && AllPlain(segs) && Clean(EnvOf(m, ext)) && Clear(segs, EnvOf(m, ext))
    requires k in m && m[k] != "" && ts != [] && ts[0] == k + ext && Remaining(EnvOf(m, ext), done, ts)
    ensures var done' := done[k + ext := Quoted(m[k])];
            var s := Text(head + Tail(segs, done), Rest(segs, done));
            var s' := Text(head + Tail(segs, done'), Rest(segs, done'));
      && Remaining(EnvOf(m, ext), done', ts[1..])
      && SubstituteOne(s, ext, k, m[k]) == s'
      && (s' != s <==> Used(segs, k + ext))
  {
    var env, t, v := EnvOf(m, ext), k + ext, Quoted(m[k]);
    var s := Text(head + Tail(segs, done), Rest(segs, done));
    OneTurn(s, ext, m, k);
    EnvValue(m, ext, k);
    RemainingNext(env, done, ts);
    CleanPart(env, done[t := v]);
    CleanPart(env, done);
    TailPlain(segs, done);
    NoClashShrinks(segs, done, env, t);
    TurnChangesIffUsed(head, segs, done, t, v);
    ReplaceSegments(head + Tail(segs, done), Rest(segs, done), t, v);
    Compose(segs, done, t, v);
    Associate(head, Tail(segs, done), Tail(Rest(segs, done), map[t := v]));
  }

  lemma {:induction false} ReportFollowsOrder(
    head: string, segs: seq<string>, ext: string, m: map<string, string>, done: Env, order: seq<string>)
    requires Plain(head) && AllPlain(segs) && Clean(EnvOf(m, ext)) && Clear(segs, EnvOf(m, ext))
    requires forall k :: k in order ==> k in m
    requires Remaining(EnvOf(m, ext), done, Variables(ext, m, order))
    ensures Substituted(Text(head + Tail(segs, done), Rest(segs, done)), ext, m, order) ==
            UsedValues(segs, ext, m, order)
    decreases |order|
  {
    if order != [] {
      var k, more := order[0], Variables(ext, m, order[1..]);
      if m[k] == "" {
        assert Variables(ext, m, order) == more;
        ReportFollowsOrder(head, segs, ext, m, done, order[1..]);
      } else {
        var ts := [k + ext] + more;
        assert Variables(ext, m, order) == ts && ts[1..] == more;
        ReportTurn(head, segs, ext, m, done, k, ts);
        ReportFollowsOrder(head, segs, ext, m, done[k + ext := Quoted(m[k])], order[1..]);
      }
    }
  }

  /** Under the same condition, the reported values are those of the names that occur in the text, in
      iteration order: which ones they are does not depend on the order. */
  lemma ReportsUsedValues(s: string, ext: string, m: map<string, string>, env: Env, order: seq<string>)
    requires IsEnvironment(env, m, ext) && Clean(env) && Clear(Segments(s), env) && IsOrder(order, m)
    ensures Substituted(s, ext, m, order) == UsedValues(Segments(s), ext, m, order)
  {
    EnvironmentIs(env, m, ext);
    SegmentsOfText(s);
    EmptyRest(Segments(s));
    assert Head(s) + "" == Head(s);
    OrderRemains(ext, m, order);
    ReportFollowsOrder(Head(s), Segments(s), ext, m, map[], order);
  }

  // ---- Names that are prefixes of others ----

  lemma Two(s: string, m: map<string, string>, a: string, b: string)
    requires a in m && b in m
    ensures Substitute(s, "", m, [a, b]) == SubstituteOne(SubstituteOne(s, "", a, m[a]), "", b, m[b])
  {
    var t := SubstituteOne(s, "", a, m[a]);
    assert [a, b][1..] == [b] && [b][1..] == [];
    assert Substitute(t, "", m, [b]) == Substitute(SubstituteOne(t, "", b, m[b]), "", m, []);
  }

  /** With one name a proper prefix of another, a text that is just the longer variable comes out
      as one value in one order and as the other value with a rest in the other order. */
  lemma PrefixNamesDependOnOrder(k: string, u: string, v: string, w: string)
    requires '$' !in k && '$' !in u && u != "" && v != "" && w != ""
    requires '$' !in v && '$' !in w
    ensures var m := map[k := v, k + u := w];
      && Substitute("$" + k + u, "", m, [k, k + u]) == InText(v) + u
      && Substitute("$" + k + u, "", m, [k + u, k]) == InText(w)
  {
    QuotedInText(v);
    QuotedInText(w);
    var m := map[k := v, k + u := w];
    assert k != k + u && m[k] == v;
    FirstTurn(k, u, v);
    NoTurn(Quoted(v) + u, k + u, w);
    Two("$" + k + u, m, k, k + u);
    WholeTurn(k, u, w);
    NoTurn(Quoted(w), k, v);
    Two("$" + k + u, m, k + u, k);
  }

  lemma WholeTurn(k: string, u: string, w: string)
    requires w != ""
    ensures SubstituteOne("$" + k + u, "", k + u, w) == Quoted(w)
  {
    FirstTurn(k + u, "", w);
    assert "$" + k + u == "$" + (k + u) + "" && Quoted(w) + "" == Quoted(w);
  }

  lemma FirstTurn(k: string, u: string, v: string)
    requires '$' !in u && v != ""
    ensures SubstituteOne("$" + k + u, "", k, v) == Quoted(v) + u
  {
    assert "$" + k + "" == "$" + k;
    OneVariable(k, u, v);
  }

  lemma NoTurn(s: string, k: string, v: string)
    requires '$' !in s
    ensures SubstituteOne(s, "", k, v) == s
  {
    NoDollarNoChange(s, "$" + k + "", Quoted(v));
  }

  lemma OneVariable(k: string, u: string, v: string)
    requires '$' !in u
    ensures ReplaceAll("$" + k + u, "$" + k, Quoted(v)) == Quoted(v) + u
  {
    var s := "$" + k + u;
    assert s[..|"$" + k|] == "$" + k && s[|"$" + k|..] == u;
    NoDollarNoChange(u, "$" + k, Quoted(v));
  }

  lemma {:induction false} NoDollarNoChange(s: string, sub: string, v: string)
    requires '$' !in s && sub != "" && sub[0] == '$'
    ensures ReplaceAll(s, sub, v) == s
  {
    if |s| >= |sub| {
      assert s[0] in s && !(sub <= s);
      NoDollarNoChange(s[1..], sub, v);
    }
  }

  // ---- One variable ----

  /** `sub` occurs in the text only after `pre`. */
  ghost predicate OccursOnce(pre: string, sub: string, post: string) {
    forall i :: Strings.OccursAt(pre + sub + post, sub, i) ==> i == |pre|
  }

  lemma {:induction false} ReplaceNone(s: string, sub: string, v: string)
    requires sub != "" && forall i :: !Strings.OccursAt(s, sub, i)
    ensures ReplaceAll(s, sub, v) == s
  {
    if |s| >= |sub| {
      assert !Strings.OccursAt(s, sub, 0);
      forall i ensures !Strings.OccursAt(s[1..], sub, i) {
        if Strings.OccursAt(s[1..], sub, i) {
          assert s[1..][i..i + |sub|] == s[i + 1..i + 1 + |sub|];
          assert Strings.OccursAt(s, sub, i + 1);
        }
      }
      ReplaceNone(s[1..], sub, v);
      assert s == [s[0]] + s[1..];
    }
  }

  lemma NoneAfter(sub: string, post: string)
    requires sub != "" && OccursOnce("", sub, post)
    ensures forall i :: !Strings.OccursAt(post, sub, i)
  {
    var s := "" + sub + post;
    forall i ensures !Strings.OccursAt(post, sub, i) {
      if Strings.OccursAt(post, sub, i) {
        assert s[|sub| + i..|sub| + i + |sub|] == post[i..i + |sub|];
        assert Strings.OccursAt(s, sub, |sub| + i);
      }
    }
  }

  lemma OnceTail(pre: string, sub: string, post: string)
    requires pre != "" && OccursOnce(pre, sub, post)
    ensures OccursOnce(pre[1..], sub, post)
    ensures (pre + sub + post)[1..] == pre[1..] + sub + post
    ensures !(sub <= pre + sub + post)
  {
    var s, t := pre + sub + post, pre[1..] + sub + post;
    assert s[1..] == t;
    forall i | Strings.OccursAt(t, sub, i) ensures i == |pre[1..]| {
      assert t[i..i + |sub|] == s[i + 1..i + 1 + |sub|];
      assert Strings.OccursAt(s, sub, i + 1);
    }
    assert !Strings.OccursAt(s, sub, 0);
  }

  lemma {:induction false} ReplaceOnce(pre: string, sub: string, post: string, v: string)
    requires sub != "" && OccursOnce(pre, sub, post)
    ensures ReplaceAll(pre + sub + post, sub, v) == pre + v + post
    decreases |pre|
  {
    if pre == "" {
      var s := "" + sub + post;
      assert sub <= s && s[|sub|..] == post;
      NoneAfter(sub, post);
      ReplaceNone(post, sub, v);
    } else {
      OnceTail(pre, sub, post);
      ReplaceOnce(pre[1..], sub, post, v);
      assert [pre[0]] + (pre[1..] + v + post) == pre + v + post;
    }
  }

  /** A text in which the only variable occurs once: its value comes between single quotes if and only if it
      has a space between two characters that are none; another value comes as it is, and without a
      value the text stays. */
  lemma OneVariableReplaced(
    pre: string, name: string, ext: string, post: string, value: string, order: seq<string>)
    requires OccursOnce(pre, "$" + name + ext, post) && IsOrder(order, map[name := value])
    ensures var text := pre + ("$" + name + ext) + post;
            var result := Substitute(text, ext, map[name := value], order);
      && (result == pre + ("'" + value + "'") + post <==> SeveralWords(value))
      && (!SeveralWords(value) && value != "" ==> result == pre + value + post)
      && (value == "" ==> result == text)
  {
    var m, sub_ := map[name := value], "$" + name + ext;
    var text := pre + sub_ + post;
    OnlyOrder(order, name, value);
    assert [name][1..] == [];
    assert Substitute(text, ext, m, [name]) == SubstituteOne(text, ext, name, value);
    if value == "" {
      assert text[|pre|] == '$' && (pre + ("'" + value + "'") + post)[|pre|] == '\'';
    } else {
      ReplaceOnce(pre, sub_, post, Quoted(value));
      QuotedInText(value);
      assert |pre + ("'" + value + "'") + post| == |pre + value + post| + 2;
    }
  }

  lemma {:induction false} AllSame(s: seq<string>, x: string)
    requires forall i :: 0 <= i < |s| ==> s[i] == x
    ensures Count(s, x) == |s|
  {
    if s != [] {
      AllSame(s[1..], x);
    }
  }

  lemma OnlyOrder(order: seq<string>, name: string, value: string)
    requires IsOrder(order, map[name := value])
    ensures order == [name]
  {
    assert name in order;
    forall i | 0 <= i < |order| ensures order[i] == name {
      assert order[i] in order;
    }
    AllSame(order, name);
    CountDistinct(order, name);
  }
}
