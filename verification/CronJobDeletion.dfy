/** Exactly when a policy keeps to one Inspection job from now on. */
module CronJobDeletion {
  import opened Wrappers
  import opened CronJobs
  import opened CronJobSafety
  import opened CronJobResult

  predicate DeletesNothing(events: seq<Event>) {
    forall i :: 0 <= i < |events| ==> !events[i].Delete?
  }

  /** However the policies are edited and reconciled from here on, with fresh reads for `p` and without a
      deletion, `p` has at most one Inspection job. */
  ghost predicate StaysAtMostOne(s: System, p: string) {
    forall events :: Runs(s, events, p) && DeletesNothing(events) ==>
      AtMostOne(ApplyAll(s, events).cluster, p, Inspection)
  }

  // ---- It does when the reference is sound ----

  lemma {:induction false} NothingDeletedSpares(s: System, events: seq<Event>, p: string)
    requires PossibleRun(s, events) && DeletesNothing(events)
    ensures SparingRun(s, events, p)
    decreases |events|
  {
    if events != [] {
      assert forall i :: 0 <= i < |events[1..]| ==> events[1..][i] == events[i + 1];
      NothingDeletedSpares(Apply(s, events[0]), events[1..], p);
    }
  }

  // ---- It does not when the reference names no job ----

  lemma {:induction false} LongName(keys: set<Key>) returns (n: nat)
    ensures forall k :: k in keys ==> |k.name| < n
    decreases |keys|
  {
    n := 0;
    if keys != {} {
      var k :| k in keys;
      var m := LongName(keys - {k});
      n := if |k.name| < m then m else |k.name| + 1;
    }
  }

  /** There are always two more names. */
  lemma FreeNames(c: Cluster, policy: Policy) returns (names: seq<string>)
    ensures |names| == 2 && Free(c, policy, names)
  {
    var n := LongName(c.Keys + (if policy.executor.Some? then {policy.executor.value} else {}));
    names := [seq(n, _ => 'a'), seq(n + 1, _ => 'a')];
    forall i | 0 <= i < 2
      ensures NewKey(policy, names[i]) !in c && Some(NewKey(policy, names[i])) != policy.executor
    {
      assert |names[i]| >= n && NewKey(policy, names[i]).name == names[i];
    }
    assert |names[0]| != |names[1]|;
  }

  /** A reconcile whose lookup fails still updates a status that is empty. */
  lemma FillsPhase(s: System, p: string) returns (events: seq<Event>)
    requires p in s.policies && !Running(s, p) && s.policies[p].phase.Empty?
    requires s.policies[p].spec.images == {Inspection}
    ensures Runs(s, events, p) && DeletesNothing(events)
    ensures var t := ApplyAll(s, events);
      && t.cluster == s.cluster && p in t.policies && !Running(t, p)
      && t.policies[p] == s.policies[p].(phase := PhaseOf(s.policies[p].spec))
  {
    var policy := s.policies[p];
    var failing := Step(p, Reply(Refused, s.cluster, Key("", ""), true, true, ""));
    if !Fits(p, Run(policy, false, Check(Inspection)), failing.reply) {
      var pick :| pick in s.cluster && Match(s.cluster, pick, p, Inspection);
      failing := Step(p, Reply(Refused, s.cluster, pick, true, true, ""));
    }
    var saving := Step(p, Acking(s.cluster, "", Key("", "")));
    var run := Run(policy, false, Check(Inspection));
    OneImage(Run(policy, false, Done), Inspection);
    OneImage(run, Inspection);
    var s1 := s.(runs := s.runs[p := run]);
    var s2 := s.(runs := s.runs[p := run.(pc := Save)]);
    events := [Begin(p, false)] + ([failing] + ([saving] + []));
    Before(s2, saving, [], p);
    assert s.policies[p := policy] == s.policies;
    assert Apply(s1, failing) == s2;
    Before(s1, failing, [saving] + [], p);
    assert Apply(s, Begin(p, false)) == s1;
    Before(s, Begin(p, false), [failing] + ([saving] + []), p);
  }

  lemma GetsDangling(s: System, p: string) returns (events: seq<Event>)
    requires p in s.policies && !Running(s, p)
    requires s.policies[p].executor.Some? && s.policies[p].executor.value !in s.cluster
    ensures Runs(s, events, p) && DeletesNothing(events)
    ensures ApplyAll(s, events).cluster == s.cluster && Dangling(ApplyAll(s, events), p)
  {
    var edit := Edit(p, s.policies[p].spec.(images := {Inspection}));
    var t := Apply(s, edit);
    var more := [];
    if t.policies[p].phase.Empty? {
      more := FillsPhase(t, p);
    }
    Before(s, edit, more, p);
    events := [edit] + more;
  }

  lemma {:induction false} AgainDeletesNothing(c: Cluster, policy: Policy, p: string, names: seq<string>)
    ensures DeletesNothing(AgainAll(c, policy, p, names))
    decreases |names|
  {
    if names != [] {
      AgainDeletesNothing(c[NewKey(policy, names[0]) := NewJob(policy, p)], policy, p, names[1..]);
      assert DeletesNothing(Again(c, policy, p, names[0]));
    }
  }

  lemma OneAtMost(c: Cluster, p: string)
    requires AtMostOne(c, p, Inspection)
    ensures |Inspections(c, p)| <= 1
  {
    if Inspections(c, p) != {} {
      var key :| key in Inspections(c, p);
      assert Inspections(c, p) == {key};
    }
  }

  lemma DanglingDuplicates(s: System, p: string) returns (events: seq<Event>)
    requires p in s.policies && !Running(s, p)
    requires s.policies[p].executor.Some? && s.policies[p].executor.value !in s.cluster
    ensures Runs(s, events, p) && DeletesNothing(events) && !AtMostOne(ApplyAll(s, events).cluster, p, Inspection)
  {
    var first := GetsDangling(s, p);
    var t := ApplyAll(s, first);
    var names := FreeNames(t.cluster, t.policies[p]);
    var more := AgainAll(t.cluster, t.policies[p], p, names);
    DeletionMultiplies(t, p, names);
    AgainDeletesNothing(t.cluster, t.policies[p], p, names);
    Then(s, first, more, p);
    events := first + more;
    if AtMostOne(ApplyAll(s, events).cluster, p, Inspection) {
      OneAtMost(ApplyAll(s, events).cluster, p);
    }
  }

  /** For a policy without a reconcile under way: it has at most one Inspection job in every continuation
      without a deletion if and only if it has at most one now and its reference is unset or names an
      existing job. */
  lemma StaysAtMostOneIff(s: System, p: string)
    requires Base(s) && p in s.policies && !Running(s, p)
    ensures StaysAtMostOne(s, p) <==>
            AtMostOne(s.cluster, p, Inspection) && Existing(s.cluster, s.policies[p].executor)
  {
    if AtMostOne(s.cluster, p, Inspection) && Existing(s.cluster, s.policies[p].executor) {
      forall events | Runs(s, events, p) && DeletesNothing(events)
        ensures AtMostOne(ApplyAll(s, events).cluster, p, Inspection)
      {
        NothingDeletedSpares(s, events, p);
        RunKeepsKept(s, events, p);
      }
    } else if !AtMostOne(s.cluster, p, Inspection) {
      assert Runs(s, [], p) && DeletesNothing([]) && ApplyAll(s, []) == s;
    } else {
      var events := DanglingDuplicates(s, p);
    }
  }
}
