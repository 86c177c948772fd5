/** Where registering the known registries leads: a target that every run, complete or broken off, is on
    the way to. */
module RegistriesResult {
  import opened Wrappers
  import opened Registries

  // ---- The target ----

  /** A listed registry after everything asked for under its name, the last one winning. */
  function Settle(r: Registry, wanted: seq<Registry>): (t: Registry)
    ensures t.id == r.id && t.name == r.name && t.kind == r.kind
    decreases |wanted|
  {
    if wanted == [] then r
    else Settle(if wanted[0].name == r.name then Patched(r, wanted[0]) else r, wanted[1..])
  }

  function Added(creates: seq<Op>, next: int): (rs: seq<Registry>)
    requires forall op :: op in creates ==> op.Create?
    ensures |rs| == |creates|
    ensures forall k :: 0 <= k < |rs| ==> rs[k] == creates[k].registry.(id := next + k)
  {
    seq(|creates|, k requires 0 <= k < |creates| => assert creates[k] in creates; creates[k].registry.(id := next + k))
  }

  function Settled(list: seq<Registry>, wanted: seq<Registry>): (t: seq<Registry>)
    ensures |t| == |list| && forall i :: 0 <= i < |t| ==> t[i] == Settle(list[i], wanted)
  {
    seq(|list|, i requires 0 <= i < |list| => Settle(list[i], wanted))
  }

  function Extended(list: seq<Registry>, creates: seq<Op>, next: int): Server
    requires forall op :: op in creates ==> op.Create?
  {
    Server(list + Added(creates, next), next + |creates|)
  }

  function Target(s: Server, wanted: seq<Registry>): Server {
    Extended(Settled(s.list, wanted), Creates(s.list, wanted), s.next)
  }

  /** No name that is not registered yet is asked for twice. */
  ghost predicate NewNamesDistinct(list: seq<Registry>, wanted: seq<Registry>) {
    forall i, j :: 0 <= i < j < |wanted| && wanted[i].name == wanted[j].name ==> Named(list, wanted[i].name)
  }

  // ---- A complete run ends at the target ----

  lemma AddedCons(list: seq<Registry>, ops: seq<Op>, next: int)
    requires ops != [] && forall op :: op in ops ==> op.Create?
    requires forall op :: op in ops[1..] ==> op.Create?
    ensures Extended(list + [ops[0].registry.(id := next)], ops[1..], next + 1) == Extended(list, ops, next)
  {
  }

  lemma {:induction false} CreatesLand(s: Server, ops: seq<Op>, outcomes: seq<Outcome>)
    requires forall op :: op in ops ==> op.Create?
    requires Perform(s, ops, outcomes).1
    ensures Perform(s, ops, outcomes).0 == Extended(s.list, ops, s.next)
    decreases |ops|
  {
    if ops != [] {
      assert ops[0] in ops;
      forall op | op in ops[1..] ensures op.Create? {
        assert op in ops;
      }
      CreatesLand(Do(s, ops[0]), ops[1..], outcomes[1..]);
      AddedCons(s.list, ops, s.next);
    } else {
      assert s.list + [] == s.list;
    }
  }

  /** `base` is what was listed: the server has the same registries in front, and others after. */
  ghost predicate StartsWith(s: Server, base: seq<Registry>) {
    && |base| <= |s.list|
    && (forall i :: 0 <= i < |base| ==> s.list[i].id == base[i].id && s.list[i].name == base[i].name)
  }

  function SettledFront(s: Server, n: nat, wanted: seq<Registry>): (list: seq<Registry>)
    requires n <= |s.list|
    ensures |list| == |s.list|
    ensures forall i :: 0 <= i < |list| ==> list[i] == if i < n then Settle(s.list[i], wanted) else s.list[i]
  {
    seq(|s.list|, i requires 0 <= i < |s.list| => if i < n then Settle(s.list[i], wanted) else s.list[i])
  }

  lemma UpdateLands(s: Server, base: seq<Registry>, w: Registry)
    requires Valid(s) && StartsWith(s, base) && Named(base, w.name)
    ensures IdUpdate(base, w) == [Update(w.(id := Find(base, w.name).value.id))]
    ensures var op := IdUpdate(base, w)[0]; var t := Do(s, op);
      && Accepts(s, op) && Valid(t) && StartsWith(t, base) && t.next == s.next && |t.list| == |s.list|
      && forall i :: 0 <= i < |s.list| ==>
           t.list[i] == if s.list[i].name == w.name then Patched(s.list[i], w) else s.list[i]
  {
    var u := w.(id := Find(base, w.name).value.id);
    SameIdSameName(s, base, w.name);
    PatchedIn(s, u);
  }

  /** The id that a name is listed with is the id of that name only. */
  lemma SameIdSameName(s: Server, base: seq<Registry>, name: string)
    requires Valid(s) && StartsWith(s, base) && Named(base, name)
    ensures WithId(s.list, Find(base, name).value.id)
    ensures forall i :: 0 <= i < |s.list| ==> (s.list[i].id == Find(base, name).value.id <==> s.list[i].name == name)
  {
    var found := Find(base, name).value;
    var n :| 0 <= n < |base| && base[n] == found;
    assert s.list[n].id == found.id && s.list[n].name == name;
    forall i | 0 <= i < |s.list| ensures s.list[i].id == found.id <==> s.list[i].name == name {
      if i != n {
        var a, b := if i < n then i else n, if i < n then n else i;
        assert s.list[a].name != s.list[b].name && s.list[a].id != s.list[b].id;
      }
    }
  }

  lemma PatchedIn(s: Server, u: Registry)
    requires Valid(s) && WithId(s.list, u.id)
    requires forall i :: 0 <= i < |s.list| ==> (s.list[i].id == u.id <==> s.list[i].name == u.name)
    ensures var t := Do(s, Update(u));
      && Accepts(s, Update(u)) && Valid(t) && t.next == s.next && |t.list| == |s.list|
      && (forall i :: 0 <= i < |s.list| ==> t.list[i].id == s.list[i].id && t.list[i].name == s.list[i].name)
      && forall i :: 0 <= i < |s.list| ==>
           t.list[i] == if s.list[i].name == u.name then Patched(s.list[i], u) else s.list[i]
  {
  }

  /** What an update of everything asked for, or of nothing, contributes to the front. */
  lemma FrontStep(s: Server, t: Server, n: nat, wanted: seq<Registry>)
    requires wanted != [] && n <= |s.list| == |t.list|
    requires forall i :: 0 <= i < |s.list| ==>
      t.list[i] == if i < n && s.list[i].name == wanted[0].name then Patched(s.list[i], wanted[0]) else s.list[i]
    ensures SettledFront(t, n, wanted[1..]) == SettledFront(s, n, wanted)
  {
  }

  lemma {:induction false} UpdatesLand(s: Server, base: seq<Registry>, wanted: seq<Registry>, outcomes: seq<Outcome>)
    requires Valid(s) && StartsWith(s, base)
    requires forall i :: |base| <= i < |s.list| ==> !Named(base, s.list[i].name)
    requires Perform(s, Updates(base, wanted), outcomes).1
    ensures Perform(s, Updates(base, wanted), outcomes).0 == s.(list := SettledFront(s, |base|, wanted))
    decreases |wanted|
  {
    if wanted == [] {
      assert SettledFront(s, |base|, wanted) == s.list;
    } else {
      var w := wanted[0];
      if Named(base, w.name) {
        UpdateLands(s, base, w);
        var op := IdUpdate(base, w)[0];
        assert Updates(base, wanted) == [op] + Updates(base, wanted[1..]);
        UpdatesLand(Do(s, op), base, wanted[1..], outcomes[1..]);
        FrontStep(s, Do(s, op), |base|, wanted);
      } else {
        assert Updates(base, wanted) == Updates(base, wanted[1..]);
        UpdatesLand(s, base, wanted[1..], outcomes);
        forall i | 0 <= i < |base| ensures s.list[i].name != w.name {
          assert base[i].name != w.name;
        }
        FrontStep(s, s, |base|, wanted);
      }
    }
  }

  /** Creating keeps names and ids unique. */
  lemma {:induction false} PerformKeepsValid(s: Server, ops: seq<Op>, outcomes: seq<Outcome>)
    requires Valid(s) && forall op :: op in ops ==> op.Create?
    ensures Valid(Perform(s, ops, outcomes).0)
    decreases |ops|
  {
    if ops != [] && outcomes != [] {
      assert ops[0] in ops;
      assert Valid(Do(s, ops[0]));
      forall op | op in ops[1..] ensures op.Create? {
        assert op in ops;
      }
      if outcomes[0].Succeeded() && Accepts(s, ops[0]) {
        PerformKeepsValid(Do(s, ops[0]), ops[1..], outcomes[1..]);
      }
    }
  }

  lemma {:induction false} Success(s: Server, a: seq<Op>, b: seq<Op>, outcomes: seq<Outcome>)
    requires Perform(s, a + b, outcomes).1
    ensures |outcomes| >= |a|
    ensures Perform(s, a, outcomes[..|a|]).1
    ensures Perform(s, a + b, outcomes) == Perform(Perform(s, a, outcomes[..|a|]).0, b, outcomes[|a|..])
    decreases |a|
  {
    if a == [] {
      assert a + b == b && outcomes[0..] == outcomes;
    } else {
      assert (a + b)[0] == a[0] && (a + b)[1..] == a[1..] + b;
      Success(Do(s, a[0]), a[1..], b, outcomes[1..]);
      assert outcomes[..|a|][1..] == outcomes[1..][..|a| - 1];
      assert outcomes[1..][|a| - 1..] == outcomes[|a|..];
    }
  }

  /** A run that reports success has ended at the target, whatever the outcomes were on the way. */
  lemma SuccessReachesTarget(s: Server, wanted: seq<Registry>, outcomes: seq<Outcome>)
    requires Valid(s) && Perform(s, Plan(s.list, wanted), outcomes).1
    ensures Perform(s, Plan(s.list, wanted), outcomes).0 == Target(s, wanted)
  {
    var creates, updates := Creates(s.list, wanted), Updates(s.list, wanted);
    Success(s, creates, updates, outcomes);
    CreatesLand(s, creates, outcomes[..|creates|]);
    PerformKeepsValid(s, creates, outcomes[..|creates|]);
    UpdatesReachTarget(s, wanted, outcomes[|creates|..]);
  }

  lemma UpdatesReachTarget(s: Server, wanted: seq<Registry>, outcomes: seq<Outcome>)
    requires var t := Extended(s.list, Creates(s.list, wanted), s.next);
      Valid(t) && Perform(t, Updates(s.list, wanted), outcomes).1
    ensures Perform(Extended(s.list, Creates(s.list, wanted), s.next), Updates(s.list, wanted), outcomes).0 ==
      Target(s, wanted)
  {
    AddedAreNew(s, wanted);
    UpdatesLand(Extended(s.list, Creates(s.list, wanted), s.next), s.list, wanted, outcomes);
    FrontOfTarget(s, wanted);
  }

  lemma AddedAreNew(s: Server, wanted: seq<Registry>)
    ensures var t := Extended(s.list, Creates(s.list, wanted), s.next);
      StartsWith(t, s.list) && forall i :: |s.list| <= i < |t.list| ==> !Named(s.list, t.list[i].name)
  {
    var creates := Creates(s.list, wanted);
    var t := Extended(s.list, creates, s.next);
    CreatesNew(s.list, wanted);
    forall i | |s.list| <= i < |t.list| ensures !Named(s.list, t.list[i].name) {
      assert creates[i - |s.list|] in creates;
    }
  }

  lemma FrontOfTarget(s: Server, wanted: seq<Registry>)
    ensures SettledFront(Extended(s.list, Creates(s.list, wanted), s.next), |s.list|, wanted) == Target(s, wanted).list
  {
  }

  // ---- When a run succeeds ----

  function Acks(n: nat): seq<Outcome> {
    seq(n, _ => Acked)
  }

  /** No name that was not listed is on the server. */
  ghost predicate Unclaimed(list: seq<Registry>, base: seq<Registry>, wanted: seq<Registry>) {
    forall j :: 0 <= j < |wanted| && !Named(base, wanted[j].name) ==> !Named(list, wanted[j].name)
  }

  lemma NamedSnoc(list: seq<Registry>, r: Registry)
    ensures forall name :: Named(list + [r], name) <==> Named(list, name) || name == r.name
  {
    forall name ensures Named(list + [r], name) <==> Named(list, name) || name == r.name {
      assert (list + [r])[|list|].name == r.name;
      if Named(list, name) {
        var i :| 0 <= i < |list| && list[i].name == name;
        assert (list + [r])[i].name == name;
      }
    }
  }

  lemma DistinctCons(list: seq<Registry>, wanted: seq<Registry>)
    requires wanted != []
    ensures NewNamesDistinct(list, wanted) <==>
      && NewNamesDistinct(list, wanted[1..])
      && (Named(list, wanted[0].name) || forall j :: 0 <= j < |wanted[1..]| ==> wanted[1..][j].name != wanted[0].name)
  {
    if NewNamesDistinct(list, wanted) && !Named(list, wanted[0].name) {
      forall j | 0 <= j < |wanted[1..]| ensures wanted[1..][j].name != wanted[0].name {
        assert wanted[1..][j] == wanted[j + 1];
      }
    }
    if NewNamesDistinct(list, wanted[1..])
       && (Named(list, wanted[0].name)
           || forall j :: 0 <= j < |wanted[1..]| ==> wanted[1..][j].name != wanted[0].name) {
      forall i, j | 0 <= i < j < |wanted| && wanted[i].name == wanted[j].name ensures Named(list, wanted[i].name) {
        assert wanted[j] == wanted[1..][j - 1];
        if i > 0 {
          assert wanted[i] == wanted[1..][i - 1];
        }
      }
    }
  }

  lemma UnclaimedCons(list: seq<Registry>, base: seq<Registry>, wanted: seq<Registry>)
    requires wanted != []
    ensures Unclaimed(list, base, wanted) <==>
      && Unclaimed(list, base, wanted[1..])
      && (Named(base, wanted[0].name) || !Named(list, wanted[0].name))
  {
    if Unclaimed(list, base, wanted[1..]) && (Named(base, wanted[0].name) || !Named(list, wanted[0].name)) {
      forall j | 0 <= j < |wanted| && !Named(base, wanted[j].name) ensures !Named(list, wanted[j].name) {
        assert j > 0 ==> wanted[j] == wanted[1..][j - 1];
      }
    }
  }

  lemma UnclaimedSnoc(list: seq<Registry>, base: seq<Registry>, wanted: seq<Registry>, r: Registry)
    requires !Named(base, r.name)
    ensures Unclaimed(list + [r], base, wanted) <==>
      Unclaimed(list, base, wanted) && forall j :: 0 <= j < |wanted| ==> wanted[j].name != r.name
  {
    NamedSnoc(list, r);
  }

  /** Creating all that is new succeeds exactly if no new name is taken or asked for twice. */
  lemma {:induction false} CreatesSucceed(s: Server, base: seq<Registry>, wanted: seq<Registry>)
    ensures var ops := Creates(base, wanted);
      Perform(s, ops, Acks(|ops|)).1 <==> NewNamesDistinct(base, wanted) && Unclaimed(s.list, base, wanted)
    decreases |wanted|
  {
    if wanted != [] {
      var w, rest, ops := wanted[0], wanted[1..], Creates(base, wanted);
      DistinctCons(base, wanted);
      UnclaimedCons(s.list, base, wanted);
      if Named(base, w.name) {
        assert ops == Creates(base, rest);
        CreatesSucceed(s, base, rest);
      } else if !Named(s.list, w.name) {
        assert ops[0] == Create(w) && ops[1..] == Creates(base, rest);
        assert Acks(|ops|)[1..] == Acks(|ops| - 1);
        CreatesSucceed(Do(s, ops[0]), base, rest);
        UnclaimedSnoc(s.list, base, rest, w.(id := s.next));
      }
    }
  }

  lemma AckOne(s: Server, op: Op, rest: seq<Op>)
    requires Accepts(s, op)
    ensures Perform(s, [op] + rest, Acks(|[op] + rest|)) == Perform(Do(s, op), rest, Acks(|rest|))
  {
    assert ([op] + rest)[1..] == rest;
    assert Acks(|[op] + rest|)[1..] == Acks(|rest|);
  }

  lemma {:induction false} UpdatesSucceed(s: Server, base: seq<Registry>, wanted: seq<Registry>)
    requires Valid(s) && StartsWith(s, base)
    ensures Perform(s, Updates(base, wanted), Acks(|Updates(base, wanted)|)).1
    decreases |wanted|
  {
    if wanted != [] {
      var rest := Updates(base, wanted[1..]);
      if Named(base, wanted[0].name) {
        UpdateLands(s, base, wanted[0]);
        var op := IdUpdate(base, wanted[0])[0];
        assert Updates(base, wanted) == [op] + rest;
        UpdatesSucceed(Do(s, op), base, wanted[1..]);
        AckOne(s, op, rest);
      } else {
        assert Updates(base, wanted) == rest;
        UpdatesSucceed(s, base, wanted[1..]);
      }
    }
  }

  lemma {:induction false} FailsEarly(s: Server, a: seq<Op>, b: seq<Op>)
    requires !Perform(s, a, Acks(|a|)).1
    ensures !Perform(s, a + b, Acks(|a + b|)).1
    decreases |a|
  {
    assert (a + b)[0] == a[0];
    assert Acks(|a|)[1..] == Acks(|a| - 1) && Acks(|a + b|)[1..] == Acks(|a + b| - 1);
    if Accepts(s, a[0]) {
      assert (a + b)[1..] == a[1..] + b;
      FailsEarly(Do(s, a[0]), a[1..], b);
    }
  }

  /** With every call answered, registering succeeds if and only if no new name is asked for twice; a
      name that is registered already may be repeated. */
  lemma SucceedsIffNewNamesDistinct(s: Server, wanted: seq<Registry>)
    requires Valid(s)
    ensures var plan := Plan(s.list, wanted);
      Perform(s, plan, Acks(|plan|)).1 <==> NewNamesDistinct(s.list, wanted)
  {
    var creates, updates := Creates(s.list, wanted), Updates(s.list, wanted);
    CreatesSucceed(s, s.list, wanted);
    if NewNamesDistinct(s.list, wanted) {
      AllAcked(s, wanted);
    } else {
      FailsEarly(s, creates, updates);
    }
  }

  lemma AllAcked(s: Server, wanted: seq<Registry>)
    requires Valid(s)
    requires var creates := Creates(s.list, wanted); Perform(s, creates, Acks(|creates|)).1
    ensures var plan := Plan(s.list, wanted); Perform(s, plan, Acks(|plan|)).1
  {
    var creates, updates := Creates(s.list, wanted), Updates(s.list, wanted);
    CreatesLand(s, creates, Acks(|creates|));
    PerformKeepsValid(s, creates, Acks(|creates|));
    UpdatesSucceed(Perform(s, creates, Acks(|creates|)).0, s.list, wanted);
    PerformSplit(s, creates, updates, Acks(|creates|), Acks(|updates|));
    assert Acks(|creates|) + Acks(|updates|) == Acks(|creates + updates|);
  }
}
