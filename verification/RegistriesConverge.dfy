/** Runs that break off lose nothing: however many calls failed or lost their reply before, the first run
    that succeeds ends where a single undisturbed run would have ended. */
module RegistriesConverge {
  import opened Wrappers
  import opened Registries
  import opened RegistriesResult

  // ---- One update leaves the target where it was ----

  /** Registries that settle alike: what differs is asked for. */
  ghost predicate Alike(r: Registry, t: Registry, wanted: seq<Registry>) {
    && r.id == t.id && r.name == t.name && r.kind == t.kind
    && ((r.url == t.url && r.insecure == t.insecure) || exists k :: 0 <= k < |wanted| && wanted[k].name == r.name)
    && (r.credential == t.credential
        || exists k :: 0 <= k < |wanted| && wanted[k].name == r.name && wanted[k].credential.Some?)
  }

  lemma {:induction false} AlikeSettle(r: Registry, t: Registry, wanted: seq<Registry>)
    requires Alike(r, t, wanted)
    ensures Settle(r, wanted) == Settle(t, wanted)
    decreases |wanted|
  {
    if wanted != [] {
      var w, rest := wanted[0], wanted[1..];
      var r', t' := if w.name == r.name then Patched(r, w) else r, if w.name == t.name then Patched(t, w) else t;
      forall k | 1 <= k < |wanted| ensures wanted[k] == rest[k - 1] {
      }
      assert Alike(r', t', rest);
      AlikeSettle(r', t', rest);
    }
  }

  /** The update is one of those asked for, under the id of its name. */
  ghost predicate Fits(list: seq<Registry>, wanted: seq<Registry>, op: Op) {
    && op.Update?
    && (exists k :: 0 <= k < |wanted| && wanted[k] == op.registry.(id := wanted[k].id))
    && (forall i :: 0 <= i < |list| ==> (list[i].id == op.registry.id <==> list[i].name == op.registry.name))
  }

  lemma {:induction false} SameNamesCreate(list: seq<Registry>, other: seq<Registry>, wanted: seq<Registry>)
    requires |list| == |other| && forall i :: 0 <= i < |list| ==> list[i].name == other[i].name
    ensures Creates(list, wanted) == Creates(other, wanted)
    decreases |wanted|
  {
    if wanted != [] {
      SameNamesCreate(list, other, wanted[1..]);
    }
  }

  lemma UpdateKeepsTarget(s: Server, wanted: seq<Registry>, op: Op)
    requires Fits(s.list, wanted, op)
    ensures var t := Do(s, op);
      && Target(t, wanted) == Target(s, wanted)
      && |t.list| == |s.list|
      && forall i :: 0 <= i < |s.list| ==> t.list[i].id == s.list[i].id && t.list[i].name == s.list[i].name
  {
    var t := Do(s, op);
    forall i | 0 <= i < |s.list|
      ensures t.list[i].id == s.list[i].id && t.list[i].name == s.list[i].name
      ensures Settle(t.list[i], wanted) == Settle(s.list[i], wanted)
    {
      if t.list[i] != s.list[i] {
        assert Alike(t.list[i], s.list[i], wanted);
        AlikeSettle(t.list[i], s.list[i], wanted);
      }
    }
    SameNamesCreate(t.list, s.list, wanted);
    assert Settled(t.list, wanted) == Settled(s.list, wanted);
  }

  lemma {:induction false} UpdatesKeepTarget(s: Server, wanted: seq<Registry>, ops: seq<Op>, outcomes: seq<Outcome>)
    requires Valid(s) && forall op :: op in ops ==> Fits(s.list, wanted, op)
    ensures var t := Perform(s, ops, outcomes).0; Valid(t) && Target(t, wanted) == Target(s, wanted)
    ensures var t := Perform(s, ops, outcomes).0;
      |t.list| == |s.list| && forall i :: 0 <= i < |s.list| ==> t.list[i].name == s.list[i].name
    decreases |ops|
  {
    if ops != [] && outcomes != [] {
      assert ops[0] in ops;
      UpdateKeepsTarget(s, wanted, ops[0]);
      if outcomes[0].Succeeded() && Accepts(s, ops[0]) {
        forall op | op in ops[1..] ensures Fits(Do(s, ops[0]).list, wanted, op) {
          assert op in ops;
        }
        UpdatesKeepTarget(Do(s, ops[0]), wanted, ops[1..], outcomes[1..]);
      }
    }
  }

  // ---- One create leaves the target where it was ----

  lemma {:induction false} SettleSelf(r: Registry, wanted: seq<Registry>)
    requires forall k :: 0 <= k < |wanted| && wanted[k].name == r.name ==> Patched(r, wanted[k]) == r
    ensures Settle(r, wanted) == r
    decreases |wanted|
  {
    if wanted != [] {
      SettleSelf(r, wanted[1..]);
    }
  }

  lemma {:induction false} CreatesUnrelated(list: seq<Registry>, r: Registry, wanted: seq<Registry>)
    requires forall k :: 0 <= k < |wanted| ==> wanted[k].name != r.name
    ensures Creates(list + [r], wanted) == Creates(list, wanted)
    decreases |wanted|
  {
    if wanted != [] {
      NamedSnoc(list, r);
      CreatesUnrelated(list, r, wanted[1..]);
    }
  }

  /** The first create, and what is asked for besides it under its name: nothing else. */
  lemma {:induction false} FirstCreate(list: seq<Registry>, wanted: seq<Registry>, id: int)
    requires NewNamesDistinct(list, wanted) && Creates(list, wanted) != []
    ensures var c := Creates(list, wanted)[0].registry;
      && (forall k :: 0 <= k < |wanted| && wanted[k].name == c.name ==> wanted[k] == c)
      && Creates(list + [c.(id := id)], wanted) == Creates(list, wanted)[1..]
    decreases |wanted|
  {
    var w, rest := wanted[0], wanted[1..];
    var c := Creates(list, wanted)[0].registry;
    CreatesNew(list, wanted);
    DistinctCons(list, wanted);
    NamedSnoc(list, c.(id := id));
    if Named(list, w.name) {
      FirstCreate(list, rest, id);
      assert Creates(list, wanted) == Creates(list, rest);
      assert Create(c) in Creates(list, wanted);
      assert forall k :: 1 <= k < |wanted| ==> wanted[k] == rest[k - 1];
    } else {
      assert c == w && Creates(list, wanted)[1..] == Creates(list, rest);
      CreatesUnrelated(list, c.(id := id), rest);
      assert forall k :: 1 <= k < |wanted| ==> wanted[k] == rest[k - 1];
    }
  }

  lemma CreateValid(s: Server, c: Registry)
    requires Valid(s) && !Named(s.list, c.name)
    ensures Valid(Server(s.list + [c.(id := s.next)], s.next + 1))
  {
  }

  lemma DistinctSnoc(list: seq<Registry>, c: Registry, wanted: seq<Registry>)
    requires NewNamesDistinct(list, wanted)
    ensures NewNamesDistinct(list + [c], wanted)
  {
    NamedSnoc(list, c);
  }

  lemma CreateKeepsDistinct(s: Server, wanted: seq<Registry>)
    requires Valid(s) && NewNamesDistinct(s.list, wanted) && Creates(s.list, wanted) != []
    ensures var ops := Creates(s.list, wanted); var t := Do(s, ops[0]);
      && Accepts(s, ops[0]) && t == Server(s.list + [ops[0].registry.(id := s.next)], s.next + 1)
      && Valid(t) && NewNamesDistinct(t.list, wanted) && Creates(t.list, wanted) == ops[1..]
  {
    var ops := Creates(s.list, wanted);
    var c := ops[0].registry;
    assert ops[0] in ops;
    FirstCreate(s.list, wanted, s.next);
    CreateValid(s, c);
    DistinctSnoc(s.list, c.(id := s.next), wanted);
  }

  lemma SettledSnoc(list: seq<Registry>, c: Registry, wanted: seq<Registry>)
    requires Settle(c, wanted) == c
    ensures Settled(list + [c], wanted) == Settled(list, wanted) + [c]
  {
  }

  /** A new registry is as it was asked for. */
  lemma NewSettles(list: seq<Registry>, wanted: seq<Registry>, id: int)
    requires NewNamesDistinct(list, wanted) && Creates(list, wanted) != []
    ensures var c := Creates(list, wanted)[0].registry.(id := id); Settle(c, wanted) == c
  {
    FirstCreate(list, wanted, id);
    SettleSelf(Creates(list, wanted)[0].registry.(id := id), wanted);
  }

  lemma SameTarget(s: Server, t: Server, wanted: seq<Registry>, c: Registry)
    requires Creates(s.list, wanted) != [] && Creates(t.list, wanted) == Creates(s.list, wanted)[1..]
    requires t.next == s.next + 1
    requires Settled(t.list, wanted) == Settled(s.list, wanted) + [c]
    requires Extended(Settled(s.list, wanted) + [c], Creates(t.list, wanted), s.next + 1)
             == Extended(Settled(s.list, wanted), Creates(s.list, wanted), s.next)
    ensures Target(t, wanted) == Target(s, wanted)
  {
  }

  lemma SettledAfter(s: Server, wanted: seq<Registry>)
    requires NewNamesDistinct(s.list, wanted) && Creates(s.list, wanted) != []
    ensures var c := Creates(s.list, wanted)[0].registry.(id := s.next);
      Settled(s.list + [c], wanted) == Settled(s.list, wanted) + [c]
  {
    NewSettles(s.list, wanted, s.next);
    SettledSnoc(s.list, Creates(s.list, wanted)[0].registry.(id := s.next), wanted);
  }

  lemma AddedAfter(s: Server, wanted: seq<Registry>)
    requires Creates(s.list, wanted) != []
    ensures var ops := Creates(s.list, wanted);
      && (forall op :: op in ops[1..] ==> op.Create?)
      && Extended(Settled(s.list, wanted) + [ops[0].registry.(id := s.next)], ops[1..], s.next + 1)
         == Extended(Settled(s.list, wanted), ops, s.next)
  {
    AddedCons(Settled(s.list, wanted), Creates(s.list, wanted), s.next);
  }

  lemma CreateKeepsTarget(s: Server, wanted: seq<Registry>)
    requires Valid(s) && NewNamesDistinct(s.list, wanted) && Creates(s.list, wanted) != []
    ensures Target(Do(s, Creates(s.list, wanted)[0]), wanted) == Target(s, wanted)
  {
    CreateKeepsDistinct(s, wanted);
    SettledAfter(s, wanted);
    AddedAfter(s, wanted);
    var op := Creates(s.list, wanted)[0];
    SameTarget(s, Do(s, op), wanted, op.registry.(id := s.next));
  }

  lemma {:induction false} CreatesKeepTarget(s: Server, wanted: seq<Registry>, outcomes: seq<Outcome>)
    requires Valid(s) && NewNamesDistinct(s.list, wanted)
    ensures var t := Perform(s, Creates(s.list, wanted), outcomes).0;
      && Valid(t) && NewNamesDistinct(t.list, wanted) && Target(t, wanted) == Target(s, wanted)
      && |s.list| <= |t.list| && t.list[..|s.list|] == s.list
    decreases |Creates(s.list, wanted)|
  {
    var ops := Creates(s.list, wanted);
    if ops != [] && outcomes != [] && outcomes[0].Applied() {
      CreateKeepsDistinct(s, wanted);
      CreateKeepsTarget(s, wanted);
      var t := Do(s, ops[0]);
      assert t.list[..|s.list|] == s.list;
      if outcomes[0].Succeeded() {
        CreatesKeepTarget(t, wanted, outcomes[1..]);
        var u := Perform(t, ops[1..], outcomes[1..]).0;
        assert u.list[..|s.list|] == u.list[..|t.list|][..|s.list|];
      }
    }
  }

  // ---- Whole runs ----

  lemma {:induction false} UpdatesFit(s: Server, base: seq<Registry>, all: seq<Registry>, wanted: seq<Registry>)
    requires Valid(s) && StartsWith(s, base)
    requires forall w :: w in wanted ==> w in all
    ensures forall op :: op in Updates(base, wanted) ==> Fits(s.list, all, op)
    decreases |wanted|
  {
    if wanted != [] {
      UpdatesFit(s, base, all, wanted[1..]);
      var w := wanted[0];
      if Named(base, w.name) {
        var op := IdUpdate(base, w)[0];
        var found := Find(base, w.name).value;
        var n :| 0 <= n < |base| && base[n] == found;
        assert w in all;
        var k :| 0 <= k < |all| && all[k] == w;
        assert all[k] == op.registry.(id := all[k].id);
        forall i | 0 <= i < |s.list| ensures s.list[i].id == op.registry.id <==> s.list[i].name == op.registry.name {
          assert s.list[n].id == found.id && s.list[n].name == w.name;
          if i != n {
            var a, b := if i < n then i else n, if i < n then n else i;
            assert s.list[a].name != s.list[b].name && s.list[a].id != s.list[b].id;
          }
        }
        assert Fits(s.list, all, op);
      }
    }
  }

  lemma SameNamesDistinct(list: seq<Registry>, other: seq<Registry>, wanted: seq<Registry>)
    requires |list| == |other| && forall i :: 0 <= i < |list| ==> list[i].name == other[i].name
    requires NewNamesDistinct(list, wanted)
    ensures NewNamesDistinct(other, wanted)
  {
    forall i, j | 0 <= i < j < |wanted| && wanted[i].name == wanted[j].name ensures Named(other, wanted[i].name) {
      var k :| 0 <= k < |list| && list[k].name == wanted[i].name;
      assert other[k].name == wanted[i].name;
    }
  }

  lemma {:induction false} CreatesEnd(s: Server, a: seq<Op>, b: seq<Op>, outcomes: seq<Outcome>)
    ensures Perform(s, a, outcomes).1 ==> |outcomes| >= |a|
    ensures Perform(s, a, outcomes).1 ==>
      Perform(s, a + b, outcomes) == Perform(Perform(s, a, outcomes).0, b, outcomes[|a|..])
    ensures !Perform(s, a, outcomes).1 ==> Perform(s, a + b, outcomes) == Perform(s, a, outcomes)
    decreases |a|
  {
    if a == [] {
      assert a + b == b;
    } else {
      assert (a + b)[0] == a[0] && (a + b)[1..] == a[1..] + b;
      if outcomes != [] {
        CreatesEnd(if outcomes[0].Applied() then Do(s, a[0]) else s, a[1..], b, outcomes[1..]);
        if |outcomes| >= |a| {
          assert outcomes[1..][|a| - 1..] == outcomes[|a|..];
        }
      }
    }
  }

  /** A run moves nothing that a later run would not move to the same place. */
  lemma RunKeepsTarget(s: Server, wanted: seq<Registry>, outcomes: seq<Outcome>)
    requires Valid(s) && NewNamesDistinct(s.list, wanted)
    ensures var t := Perform(s, Plan(s.list, wanted), outcomes).0;
      Valid(t) && NewNamesDistinct(t.list, wanted) && Target(t, wanted) == Target(s, wanted)
  {
    var creates, updates := Creates(s.list, wanted), Updates(s.list, wanted);
    CreatesEnd(s, creates, updates, outcomes);
    CreatesKeepTarget(s, wanted, outcomes);
    var (m, ok) := Perform(s, creates, outcomes);
    if ok {
      assert forall i :: 0 <= i < |s.list| ==> m.list[i] == m.list[..|s.list|][i];
      UpdatesFit(m, s.list, wanted, wanted);
      UpdatesKeepTarget(m, wanted, updates, outcomes[|creates|..]);
      SameNamesDistinct(m.list, Perform(m, updates, outcomes[|creates|..]).0.list, wanted);
    }
  }

  /** Several runs, each listing and planning anew. */
  function Runs(s: Server, wanted: seq<Registry>, runs: seq<seq<Outcome>>): Server
    decreases |runs|
  {
    if runs == [] then s else Runs(Perform(s, Plan(s.list, wanted), runs[0]).0, wanted, runs[1..])
  }

  /** After any number of runs with any outcomes, the next run that reports success ends where one
      undisturbed run from the beginning would have ended. */
  lemma {:induction false} RetriesConverge(s: Server, wanted: seq<Registry>, runs: seq<seq<Outcome>>,
      last: seq<Outcome>)
    requires Valid(s) && NewNamesDistinct(s.list, wanted)
    requires var t := Runs(s, wanted, runs); Perform(t, Plan(t.list, wanted), last).1
    ensures var t := Runs(s, wanted, runs); Perform(t, Plan(t.list, wanted), last).0 == Target(s, wanted)
    ensures var plan := Plan(s.list, wanted);
      Perform(s, plan, Acks(|plan|)) == (Target(s, wanted), true)
    decreases |runs|
  {
    SucceedsIffNewNamesDistinct(s, wanted);
    SuccessReachesTarget(s, wanted, Acks(|Plan(s.list, wanted)|));
    if runs == [] {
      SuccessReachesTarget(s, wanted, last);
    } else {
      RunKeepsTarget(s, wanted, runs[0]);
      RetriesConverge(Perform(s, Plan(s.list, wanted), runs[0]).0, wanted, runs[1..], last);
    }
  }

  // ---- What the target is ----

  lemma {:induction false} CreatesNamed(list: seq<Registry>, wanted: seq<Registry>)
    requires forall k :: 0 <= k < |wanted| ==> Named(list, wanted[k].name)
    ensures Creates(list, wanted) == []
    decreases |wanted|
  {
    if wanted != [] {
      CreatesNamed(list, wanted[1..]);
    }
  }

  lemma {:induction false} CreateOf(list: seq<Registry>, wanted: seq<Registry>, k: nat) returns (i: nat)
    requires k < |wanted| && !Named(list, wanted[k].name)
    ensures i < |Creates(list, wanted)| && Creates(list, wanted)[i] == Create(wanted[k])
    decreases |wanted|
  {
    if k == 0 {
      i := 0;
    } else {
      var j := CreateOf(list, wanted[1..], k - 1);
      i := if Named(list, wanted[0].name) then j else j + 1;
    }
  }

  lemma {:induction false} SettleLast(r: Registry, wanted: seq<Registry>, k: nat)
    requires k < |wanted| && wanted[k].name == r.name
    requires forall j :: k < j < |wanted| ==> wanted[j].name != r.name
    ensures var t := Settle(r, wanted);
      t.url == wanted[k].url && t.insecure == wanted[k].insecure
      && (wanted[k].credential.Some? ==> t.credential == wanted[k].credential)
    decreases |wanted|
  {
    var r' := if wanted[0].name == r.name then Patched(r, wanted[0]) else r;
    if k == 0 {
      SettleSelf(r', wanted[1..]);
    } else {
      SettleLast(r', wanted[1..], k - 1);
    }
  }

  lemma {:induction false} SettleKeepsCredential(r: Registry, wanted: seq<Registry>)
    requires forall k :: 0 <= k < |wanted| && wanted[k].name == r.name ==> wanted[k].credential.None?
    ensures Settle(r, wanted).credential == r.credential
    decreases |wanted|
  {
    if wanted != [] {
      SettleKeepsCredential(if wanted[0].name == r.name then Patched(r, wanted[0]) else r, wanted[1..]);
    }
  }

  lemma Unique(s: Server, i: nat, j: nat)
    requires Valid(s) && i < |s.list| && j < |s.list| && s.list[i].name == s.list[j].name
    ensures i == j
  {
  }

  lemma NewIsNew(s: Server, wanted: seq<Registry>, i: nat)
    requires |s.list| <= i < |Target(s, wanted).list|
    ensures !Named(s.list, Target(s, wanted).list[i].name) && Named(wanted, Target(s, wanted).list[i].name)
  {
    CreatesNew(s.list, wanted);
    assert Creates(s.list, wanted)[i - |s.list|] in Creates(s.list, wanted);
  }

  lemma TargetValid(s: Server, wanted: seq<Registry>)
    requires Valid(s) && NewNamesDistinct(s.list, wanted)
    ensures Valid(Target(s, wanted)) && NewNamesDistinct(Target(s, wanted).list, wanted)
  {
    var plan := Plan(s.list, wanted);
    SucceedsIffNewNamesDistinct(s, wanted);
    SuccessReachesTarget(s, wanted, Acks(|plan|));
    RunKeepsTarget(s, wanted, Acks(|plan|));
  }

  /** A request for the name comes without a credential. */
  predicate WithoutCredential(wanted: seq<Registry>, name: string) {
    forall k :: 0 <= k < |wanted| && wanted[k].name == name ==> wanted[k].credential.None?
  }

  /** What was listed keeps its id, its name and its kind, its credential when none was asked for, and all of
      it when it was not asked for; what is new was asked for. */
  lemma TargetKeepsOthers(s: Server, wanted: seq<Registry>)
    requires Valid(s) && NewNamesDistinct(s.list, wanted)
    ensures var t := Target(s, wanted);
      && Valid(t) && |s.list| <= |t.list|
      && (forall i :: 0 <= i < |s.list| ==>
            t.list[i].id == s.list[i].id && t.list[i].name == s.list[i].name && t.list[i].kind == s.list[i].kind)
      && (forall i :: 0 <= i < |s.list| && !Named(wanted, s.list[i].name) ==> t.list[i] == s.list[i])
      && (forall i :: 0 <= i < |s.list| && WithoutCredential(wanted, s.list[i].name) ==>
            t.list[i].credential == s.list[i].credential)
      && (forall i :: |s.list| <= i < |t.list| ==> Named(wanted, t.list[i].name))
  {
    var t := Target(s, wanted);
    TargetValid(s, wanted);
    forall i | 0 <= i < |s.list| && !Named(wanted, s.list[i].name) ensures t.list[i] == s.list[i] {
      SettleSelf(s.list[i], wanted);
    }
    forall i | 0 <= i < |s.list| && WithoutCredential(wanted, s.list[i].name)
      ensures t.list[i].credential == s.list[i].credential
    {
      SettleKeepsCredential(s.list[i], wanted);
    }
    forall i | |s.list| <= i < |t.list| ensures Named(wanted, t.list[i].name) {
      NewIsNew(s, wanted, i);
    }
  }

  lemma WantedIsThere(s: Server, wanted: seq<Registry>, k: nat) returns (i: nat)
    requires k < |wanted|
    ensures i < |Target(s, wanted).list| && Target(s, wanted).list[i].name == wanted[k].name
    ensures Named(s.list, wanted[k].name) ==> i < |s.list|
    ensures !Named(s.list, wanted[k].name) ==>
      i >= |s.list| && Target(s, wanted).list[i] == wanted[k].(id := Target(s, wanted).list[i].id)
  {
    if Named(s.list, wanted[k].name) {
      i :| 0 <= i < |s.list| && s.list[i].name == wanted[k].name;
    } else {
      var n := CreateOf(s.list, wanted, k);
      i := |s.list| + n;
    }
  }

  /** For every name asked for there is exactly one registry, with the URL, the TLS flag and any credential
      asked for last, and all that was asked for when it is new. */
  lemma TargetAsAsked(s: Server, wanted: seq<Registry>, k: nat)
    requires Valid(s) && NewNamesDistinct(s.list, wanted) && k < |wanted|
    requires forall j :: k < j < |wanted| ==> wanted[j].name != wanted[k].name
    ensures exists i :: 0 <= i < |Target(s, wanted).list| && Target(s, wanted).list[i].name == wanted[k].name
    ensures forall i :: 0 <= i < |Target(s, wanted).list| && Target(s, wanted).list[i].name == wanted[k].name ==>
      var r := Target(s, wanted).list[i];
      && r.url == wanted[k].url && r.insecure == wanted[k].insecure
      && (wanted[k].credential.Some? ==> r.credential == wanted[k].credential)
      && (!Named(s.list, r.name) ==> r == wanted[k].(id := r.id))
  {
    var t := Target(s, wanted);
    TargetValid(s, wanted);
    var n := WantedIsThere(s, wanted, k);
    if Named(s.list, wanted[k].name) {
      SettleLast(s.list[n], wanted, k);
    }
    forall i | 0 <= i < |t.list| && t.list[i].name == wanted[k].name ensures i == n {
      Unique(t, i, n);
    }
  }

  /** In terms of the known registries, when no name is listed twice among them: each has the requested
      endpoint and TLS flag, and the requested provider where it is new. */
  lemma KnownAsAsked(s: Server, known: seq<KnownRegistry>, wanted: seq<Registry>, k: nat, i: nat)
    requires Valid(s) && Asks(known, wanted) && k < |known|
    requires forall a, b :: 0 <= a < b < |known| ==> known[a].name != known[b].name
    requires i < |Target(s, wanted).list| && Target(s, wanted).list[i].name == known[k].name
    ensures var r := Target(s, wanted).list[i];
      && r.url == known[k].endpoint && r.insecure == known[k].skipTLSVerify
      && (!Named(s.list, known[k].name) ==> r.kind == known[k].provider)
  {
    assert forall j :: 0 <= j < |wanted| ==> wanted[j].name == known[j].name;
    assert NewNamesDistinct(s.list, wanted);
    TargetAsAsked(s, wanted, k);
  }

  /** Registering again creates nothing and, once it succeeds, leaves the server as it is. */
  lemma SecondRunCreatesNothing(s: Server, wanted: seq<Registry>, outcomes: seq<Outcome>)
    requires Valid(s) && NewNamesDistinct(s.list, wanted)
    ensures var t := Target(s, wanted);
      && (forall op :: op in Plan(t.list, wanted) ==> op.Update?)
      && (Perform(t, Plan(t.list, wanted), outcomes).1 ==> Perform(t, Plan(t.list, wanted), outcomes).0 == t)
  {
    var t := Target(s, wanted);
    TargetValid(s, wanted);
    forall k | 0 <= k < |wanted| ensures Named(t.list, wanted[k].name) {
      var _ := WantedIsThere(s, wanted, k);
    }
    CreatesNamed(t.list, wanted);
    if Perform(t, Plan(t.list, wanted), outcomes).1 {
      var plan := Plan(s.list, wanted);
      SucceedsIffNewNamesDistinct(s, wanted);
      SuccessReachesTarget(s, wanted, Acks(|plan|));
      var runs := [Acks(|plan|)];
      assert runs[1..] == [] && Runs(t, wanted, []) == t;
      assert Runs(s, wanted, runs) == t;
      RetriesConverge(s, wanted, runs, outcomes);
    }
  }
}
