/** What the enforcer writes on pods, label by label: who is isolated after it, and who is released. */
module QuarantineLabels {
  import opened Wrappers
  import opened Quarantine
  import opened QuarantineSafety
  import opened QuarantineEffect

  predicate Has(m: Labels, key: string, value: string) {
    key in m && m[key] == value
  }

  /** The labels that the deny-all policy of a namespace selects. */
  predicate Isolating(m: Labels) {
    Has(m, "goharbor.io/controller", "CNSI") && Has(m, "goharbor.io/inspection", "risk")
  }

  /** Neither of the two labels has a value of someone else's. */
  predicate NotForeign(m: Labels) {
    && ("goharbor.io/controller" in m ==> m["goharbor.io/controller"] == "CNSI")
    && ("goharbor.io/inspection" in m ==> m["goharbor.io/inspection"] == "risk")
  }

  predicate BothKeys(m: Labels) {
    "goharbor.io/controller" in m && "goharbor.io/inspection" in m
  }

  predicate NoKeys(m: Labels) {
    "goharbor.io/controller" !in m && "goharbor.io/inspection" !in m
  }

  /** All other labels are the same. */
  ghost predicate SameOthers(m: Labels, m': Labels) {
    forall key :: key != "goharbor.io/controller" && key != "goharbor.io/inspection" ==>
      (key in m <==> key in m') && (key in m ==> m'[key] == m[key])
  }

  lemma KeysByName(l: Option<Labels>)
    ensures Selected(l) <==> Isolating(LabelsOf(l))
    ensures Marked(l) <==> BothKeys(LabelsOf(l))
    ensures Unmarked(l) <==> NoKeys(LabelsOf(l))
  {
  }

  lemma MarksByName(m: Labels)
    ensures Isolating(WithMarks(m)) <==> NotForeign(m)
    ensures BothKeys(WithMarks(m)) && SameOthers(m, WithMarks(m))
    ensures NoKeys(WithoutMarks(m)) && SameOthers(m, WithoutMarks(m))
  {
    assert "goharbor.io/controller" != "goharbor.io/inspection" by {
      assert "goharbor.io/controller"[12] != "goharbor.io/inspection"[12];
    }
  }

  /** After a successful Enforce the policy is there, and each pod of the workload is one that it selects if
      and only if neither label had a foreign value before; its other labels are as they were. */
  lemma EnforceIsolates(c: Cluster, w: Workload, os: seq<Outcome>)
    requires Drive(c, EnsureGet(w), os).1 == Ended(true)
    ensures var c' := Drive(c, EnsureGet(w), os).0;
      && w.namespace in c' && c'[w.namespace].policy
      && forall p :: p in w.pods ==>
           && Exists(c, p) && Exists(c', p)
           && (Isolating(LabelsOf(PodAt(c', p))) <==> NotForeign(LabelsOf(PodAt(c, p))))
           && SameOthers(LabelsOf(PodAt(c, p)), LabelsOf(PodAt(c', p)))
  {
    EnforceEffect(c, w, os);
    var c1, c' := SetPolicy(c, w.namespace, true), Drive(c, EnsureGet(w), os).0;
    forall p | p in w.pods
      ensures Exists(c, p) && Exists(c', p)
      ensures Isolating(LabelsOf(PodAt(c', p))) <==> NotForeign(LabelsOf(PodAt(c, p)))
      ensures SameOthers(LabelsOf(PodAt(c, p)), LabelsOf(PodAt(c', p)))
    {
      assert Exists(c1, p) && PodAt(c1, p) == PodAt(c, p);
      MarksByName(PodAt(c, p).value);
    }
  }

  /** After a successful Revoke no pod of the workload has one of the labels; all others are as they were. */
  lemma RevokeReleases(c: Cluster, w: Workload, os: seq<Outcome>)
    requires Drive(c, UnmarkFrom(w, w.pods), os).1 == Ended(true)
    ensures var c' := Drive(c, UnmarkFrom(w, w.pods), os).0;
      forall p :: p in w.pods ==>
        && Exists(c, p) && Exists(c', p) && NoKeys(LabelsOf(PodAt(c', p)))
        && SameOthers(LabelsOf(PodAt(c, p)), LabelsOf(PodAt(c', p)))
  {
    var c1 := RevokeEffect(c, w, os);
    var c' := Drive(c, UnmarkFrom(w, w.pods), os).0;
    forall p | p in w.pods
      ensures Exists(c, p) && Exists(c', p) && NoKeys(LabelsOf(PodAt(c', p)))
      ensures SameOthers(LabelsOf(PodAt(c, p)), LabelsOf(PodAt(c', p)))
    {
      assert Exists(c1, p) && PodAt(c', p) == PodAt(c1, p);
      MarksByName(LabelsOf(PodAt(c, p)));
    }
  }

  /** A scan that ends without an error, of a workload that failed its inspection and of which some pod lacks a
      key: the policy is there and selects each of its pods that had no foreign value. With both keys on
      all pods before, whatever their values, the scan changes nothing. */
  lemma FailedIsIsolated(c: Cluster, t: Task, os: seq<Outcome>)
    requires !t.passed && Drive(c, CheckFrom(t, t.workload.pods, true), os).1 == Ended(true)
    ensures var c', ns := Drive(c, CheckFrom(t, t.workload.pods, true), os).0, t.workload.namespace;
      && (forall p :: p in t.workload.pods ==> Exists(c, p) && Exists(c', p))
      && ((forall p :: p in t.workload.pods ==> BothKeys(LabelsOf(PodAt(c, p)))) ==> c' == c)
      && ((exists p :: p in t.workload.pods && !BothKeys(LabelsOf(PodAt(c, p)))) ==>
            && ns in c' && c'[ns].policy
            && forall p :: p in t.workload.pods ==>
                 && (Isolating(LabelsOf(PodAt(c', p))) <==> NotForeign(LabelsOf(PodAt(c, p))))
                 && SameOthers(LabelsOf(PodAt(c, p)), LabelsOf(PodAt(c', p))))
  {
    var w := t.workload;
    var rest := CheckLoop(c, t, w.pods, true, os);
    forall p | p in w.pods ensures Marked(PodAt(c, p)) <==> BothKeys(LabelsOf(PodAt(c, p))) {
      KeysByName(PodAt(c, p));
    }
    if !AllMarked(c, w.pods) {
      EnforceIsolates(c, w, rest);
    }
  }

  /** So a workload with pods that had neither key ends with all of them isolated. */
  lemma UnmarkedIsIsolated(c: Cluster, t: Task, os: seq<Outcome>)
    requires !t.passed && Drive(c, CheckFrom(t, t.workload.pods, true), os).1 == Ended(true)
    requires t.workload.pods != []
    requires forall p :: p in t.workload.pods && Exists(c, p) ==> NoKeys(LabelsOf(PodAt(c, p)))
    ensures var c', ns := Drive(c, CheckFrom(t, t.workload.pods, true), os).0, t.workload.namespace;
      && ns in c' && c'[ns].policy
      && forall p :: p in t.workload.pods ==> Exists(c', p) && Isolating(LabelsOf(PodAt(c', p)))
  {
    FailedIsIsolated(c, t, os);
    assert t.workload.pods[0] in t.workload.pods;
  }

  /** What Revoke's List finds: the pods that the policy selects, in the workload's namespace or, with a blank
      one, in all of them; without any, the policy of a blank namespace is asked for in vain. */
  lemma ListFinds(c: Cluster, w: Workload)
    ensures var (c1, pc1) := Call(c, RemoveList(w), Acked);
      && c1 == c
      && (pc1 == Ended(true) <==>
          exists ns, p :: ns in c && p in c[ns].pods && (w.namespace == "" || ns == w.namespace)
                          && Isolating(LabelsOf(c[ns].pods[p])))
      && (pc1 != Ended(true) ==> pc1 == RemoveGet(w))
      && (w.namespace == "" ==> Call(c, RemoveGet(w), Acked) == (c, Ended(false)))
  {
    forall ns, p | ns in c && p in c[ns].pods
      ensures Selected(c[ns].pods[p]) <==> Isolating(LabelsOf(c[ns].pods[p]))
    {
      KeysByName(c[ns].pods[p]);
    }
    if AnyListed(c, w.namespace) {
      var ns :| ns in c && AnySelected(c, ns) && (w.namespace == "" || ns == w.namespace);
      var p :| p in c[ns].pods && Selected(c[ns].pods[p]);
      assert Isolating(LabelsOf(c[ns].pods[p]));
    }
  }
}
