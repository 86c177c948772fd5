/** What complete calls of Enforce and Revoke achieve, and how they undo each other. */
module QuarantineEffect {
  import opened Wrappers
  import opened Quarantine
  import opened QuarantineSafety

  /** The calls made from `pc` on, until the outcomes are used up or the operation is over. */
  function Drive(c: Cluster, pc: Pc, os: seq<Outcome>): (Cluster, Pc)
    decreases |os|
  {
    if os == [] || !Waiting(pc) || !WellFormed(pc) then (c, pc)
    else
      var (c', pc') := Call(c, pc, os[0]);
      Drive(c', pc', os[1..])
  }

  lemma {:induction false} DriveOneMore(c: Cluster, pc: Pc, os: seq<Outcome>, o: Outcome)
    requires Waiting(Drive(c, pc, os).1) && WellFormed(Drive(c, pc, os).1)
    ensures Drive(c, pc, os + [o]) == Call(Drive(c, pc, os).0, Drive(c, pc, os).1, o)
    decreases |os|
  {
    if os == [] {
      var (c', pc') := Call(c, pc, o);
      assert Drive(c', pc', []) == (c', pc');
      assert (os + [o])[1..] == [];
    } else {
      var (c', pc') := Call(c, pc, os[0]);
      DriveOneMore(c', pc', os[1..], o);
      assert (os + [o])[1..] == os[1..] + [o];
    }
  }

  /** The first call of an operation that succeeds. */
  lemma FirstCall(c: Cluster, pc: Pc, os: seq<Outcome>) returns (c': Cluster, pc': Pc, rest: seq<Outcome>)
    requires Waiting(pc) && WellFormed(pc) && Drive(c, pc, os).1 == Ended(true)
    ensures os != [] && (c', pc') == Call(c, pc, os[0]) && rest == os[1..]
    ensures Drive(c', pc', rest) == Drive(c, pc, os)
    ensures !Waiting(pc') ==> pc' == Ended(true)
  {
    c', pc' := Call(c, pc, os[0]).0, Call(c, pc, os[0]).1;
    rest := os[1..];
  }

  // ---- Changes of labels, pod by pod ----

  function Marking(l: Option<Labels>): Option<Labels> {
    if l.Some? then Some(WithMarks(l.value)) else None
  }

  function Unmarking(l: Option<Labels>): Option<Labels> {
    if l.Some? then Some(WithoutMarks(l.value)) else None
  }

  ghost predicate SameShape(c: Cluster, c': Cluster) {
    && c'.Keys == c.Keys
    && forall ns :: ns in c ==> c'[ns].pods.Keys == c[ns].pods.Keys && c'[ns].policy == c[ns].policy
  }

  /** `c'` is `c` with exactly the given pods marked (or unmarked), and nothing else different. */
  ghost predicate Relabelled(c: Cluster, c': Cluster, refs: seq<PodRef>, mark: bool) {
    && SameShape(c, c')
    && (forall r :: r in refs ==> Exists(c, r))
    && forall r :: Exists(c, r) ==>
         PodAt(c', r) == if r !in refs then PodAt(c, r)
                         else if mark then Marking(PodAt(c, r)) else Unmarking(PodAt(c, r))
  }

  lemma MarksOfMarks(m: Labels)
    ensures WithMarks(WithMarks(m)) == WithMarks(m)
    ensures WithoutMarks(WithoutMarks(m)) == WithoutMarks(m)
    ensures Marked(Some(m)) ==> WithMarks(m) == m
    ensures Unmarked(Some(m)) ==> WithoutMarks(m) == m
    ensures Unmarked(Some(m)) <==> WithoutMarks(WithMarks(m)) == m
    ensures Marked(Some(WithMarks(m))) && Unmarked(Some(WithoutMarks(m)))
  {
    var stripped := WithoutMarks(WithMarks(m));
    assert CTRL_KEY !in stripped && RISK_KEY !in stripped;
    if Unmarked(Some(m)) {
      assert stripped == m;
    }
  }

  lemma RelabelStep(c: Cluster, c1: Cluster, c': Cluster, left: seq<PodRef>, mark: bool)
    requires left != [] && Relabelled(c, c1, [left[0]], mark) && Relabelled(c1, c', left[1..], mark)
    ensures Relabelled(c, c', left, mark)
  {
    assert left == [left[0]] + left[1..];
    forall r | r in left ensures Exists(c, r) {
      assert r == left[0] || r in left[1..];
    }
    forall r | Exists(c, r)
      ensures PodAt(c', r) == if r !in left then PodAt(c, r)
                              else if mark then Marking(PodAt(c, r)) else Unmarking(PodAt(c, r))
    {
      assert Exists(c1, r);
      if PodAt(c, r).Some? {
        MarksOfMarks(PodAt(c, r).value);
      }
    }
  }

  lemma RelabelOne(c: Cluster, p: PodRef, mark: bool)
    requires Exists(c, p) && PodAt(c, p).Some?
    ensures Relabelled(c, SetPod(c, p, if mark then WithMarks(PodAt(c, p).value)
                                       else WithoutMarks(PodAt(c, p).value)), [p], mark)
  {
  }

  lemma RelabelNone(c: Cluster, p: PodRef, mark: bool)
    requires Exists(c, p)
    requires if mark then Marked(PodAt(c, p)) else Unmarked(PodAt(c, p))
    ensures Relabelled(c, c, [p], mark)
  {
    if PodAt(c, p).Some? {
      MarksOfMarks(PodAt(c, p).value);
    }
  }

  /** A labelling loop that ends without error has marked exactly its pods. */
  lemma {:induction false} MarkLoop(c: Cluster, w: Workload, left: seq<PodRef>, os: seq<Outcome>)
    requires Drive(c, MarkFrom(w, left), os).1 == Ended(true)
    ensures Relabelled(c, Drive(c, MarkFrom(w, left), os).0, left, true)
    ensures forall p :: p in left ==> PodAt(c, p).Some?
    decreases |left|
  {
    if left != [] {
      var p := left[0];
      var c1, pc1, os1 := FirstCall(c, MarkGet(w, left), os);
      if Marked(PodAt(c, p)) {
        RelabelNone(c, p, true);
        MarkLoop(c, w, left[1..], os1);
        RelabelStep(c, c, Drive(c, MarkFrom(w, left), os).0, left, true);
      } else {
        var c2, pc2, os2 := FirstCall(c, pc1, os1);
        RelabelOne(c, p, true);
        MarkLoop(c2, w, left[1..], os2);
        RelabelStep(c, c2, Drive(c, MarkFrom(w, left), os).0, left, true);
      }
    }
  }

  /** The state in which a workload's Revoke asks for the pods that are still quarantined. */
  lemma {:induction false} UnmarkLoop(c: Cluster, w: Workload, left: seq<PodRef>, os: seq<Outcome>)
    returns (c1: Cluster, rest: seq<Outcome>)
    requires Drive(c, UnmarkFrom(w, left), os).1 == Ended(true)
    ensures Relabelled(c, c1, left, false)
    ensures Drive(c1, RemoveList(w), rest) == Drive(c, UnmarkFrom(w, left), os)
    decreases |left|
  {
    if left == [] {
      c1, rest := c, os;
    } else {
      var p := left[0];
      var _, pc1, os1 := FirstCall(c, UnmarkGet(w, left), os);
      if Unmarked(PodAt(c, p)) {
        RelabelNone(c, p, false);
        c1, rest := UnmarkLoop(c, w, left[1..], os1);
        RelabelStep(c, c, c1, left, false);
      } else {
        var c2, pc2, os2 := FirstCall(c, pc1, os1);
        RelabelOne(c, p, false);
        c1, rest := UnmarkLoop(c2, w, left[1..], os2);
        RelabelStep(c, c2, c1, left, false);
      }
    }
  }

  /** A successful Enforce: the policy is there, the workload's pods are marked, the rest is as before. */
  lemma EnforceEffect(c: Cluster, w: Workload, os: seq<Outcome>)
    requires Drive(c, EnsureGet(w), os).1 == Ended(true)
    ensures w.namespace in c
    ensures Relabelled(SetPolicy(c, w.namespace, true), Drive(c, EnsureGet(w), os).0, w.pods, true)
    ensures forall p :: p in w.pods ==> Exists(c, p) && PodAt(c, p).Some?
  {
    var _, pc1, os1 := FirstCall(c, EnsureGet(w), os);
    if HasPolicy(c, w.namespace) {
      MarkLoop(c, w, w.pods, os1);
      assert SetPolicy(c, w.namespace, true) == c;
    } else {
      var c1, _, os2 := FirstCall(c, pc1, os1);
      MarkLoop(c1, w, w.pods, os2);
      forall p | p in w.pods ensures Exists(c, p) && PodAt(c, p).Some? {
        assert Exists(c1, p);
      }
    }
  }

  /** A successful Revoke: the workload's pods are unmarked, the rest is as before, and the policy is
      gone exactly if no pod of the namespace is quarantined any more. */
  lemma RevokeEffect(c: Cluster, w: Workload, os: seq<Outcome>) returns (c1: Cluster)
    requires Drive(c, UnmarkFrom(w, w.pods), os).1 == Ended(true)
    ensures Relabelled(c, c1, w.pods, false)
    ensures var c' := Drive(c, UnmarkFrom(w, w.pods), os).0;
      if AnyListed(c1, w.namespace) then c' == c1
      else HasPolicy(c1, w.namespace) && c' == SetPolicy(c1, w.namespace, false)
  {
    var rest;
    c1, rest := UnmarkLoop(c, w, w.pods, os);
    var _, pc2, os2 := FirstCall(c1, RemoveList(w), rest);
    if !AnyListed(c1, w.namespace) {
      var _, pc3, os3 := FirstCall(c1, pc2, os2);
      var c4, pc4, os4 := FirstCall(c1, pc3, os3);
    }
  }

  lemma SelectedTransfers(c: Cluster, c': Cluster, ns: string)
    requires ns in c && ns in c' && c'[ns].pods == c[ns].pods
    ensures AnySelected(c', ns) <==> AnySelected(c, ns)
  {
  }

  /** From any guarded cluster, a successful Revoke leaves the policy in place exactly if a pod of
      the namespace still carries both quarantine values; with a blank reference it leaves the policy as
      it was. */
  lemma RevokeLeavesPolicyIffNeeded(c: Cluster, ns: string, w: Workload, os: seq<Outcome>)
    requires Guarded(c) && LocalWorkload(ns, w) && ns in c
    requires Drive(c, UnmarkFrom(w, w.pods), os).1 == Ended(true)
    ensures var c' := Drive(c, UnmarkFrom(w, w.pods), os).0;
      ns in c' && if w.namespace == ns then c'[ns].policy <==> AnySelected(c', ns) else c'[ns].policy == c[ns].policy
  {
    var c1 := RevokeEffect(c, w, os);
    if w.namespace != ns {
      assert !HasPolicy(c1, "");
    } else if AnySelected(c1, ns) {
      var p :| p in c1[ns].pods && Selected(c1[ns].pods[p]);
      assert Exists(c, PodRef(ns, p)) && PodAt(c1, PodRef(ns, p)) == c1[ns].pods[p];
      assert Selected(c[ns].pods[p]);
    } else {
      SelectedTransfers(c1, Drive(c, UnmarkFrom(w, w.pods), os).0, ns);
    }
  }

  /** The policy of the namespace exists exactly if some pod needs it. */
  predicate Consistent(c: Cluster, ns: string) {
    ns in c && (c[ns].policy <==> AnySelected(c, ns))
  }

  lemma SameCluster(c: Cluster, c': Cluster)
    requires SameShape(c, c') && forall r :: Exists(c, r) ==> PodAt(c', r) == PodAt(c, r)
    ensures c' == c
  {
    forall ns | ns in c ensures c'[ns] == c[ns] {
      forall p | p in c[ns].pods ensures c'[ns].pods[p] == c[ns].pods[p] {
        assert Exists(c, PodRef(ns, p));
        assert PodAt(c', PodRef(ns, p)) == c'[ns].pods[p];
      }
    }
  }

  lemma MarkThenUnmark(c: Cluster, c1: Cluster, c2: Cluster, pods: seq<PodRef>)
    requires Relabelled(c, c1, pods, true) && Relabelled(c1, c2, pods, false)
    requires forall p :: p in pods ==> PodAt(c, p).Some?
    ensures c2 == c <==> forall p :: p in pods ==> Unmarked(PodAt(c, p))
  {
    forall r | Exists(c, r) && r in pods
      ensures PodAt(c2, r) == PodAt(c, r) <==> Unmarked(PodAt(c, r))
    {
      assert Exists(c1, r);
      MarksOfMarks(PodAt(c, r).value);
    }
    forall r | Exists(c, r) && r !in pods
      ensures PodAt(c2, r) == PodAt(c, r)
    {
      assert Exists(c1, r);
    }
    if forall p :: p in pods ==> Unmarked(PodAt(c, p)) {
      SameCluster(c, c2);
    }
  }

  /** From a namespace whose policy exists exactly if it is needed, a successful Enforce followed by
      a successful Revoke of the same workload restores the whole cluster if and only if none of the
      workload's pods carried a quarantine key before. */
  lemma RevokeUndoesEnforce(c: Cluster, ns: string, w: Workload, os1: seq<Outcome>, os2: seq<Outcome>)
    requires Consistent(c, ns) && LocalWorkload(ns, w)
    requires Drive(c, EnsureGet(w), os1).1 == Ended(true)
    requires Drive(Drive(c, EnsureGet(w), os1).0, UnmarkFrom(w, w.pods), os2).1 == Ended(true)
    ensures (forall p :: p in w.pods ==> Exists(c, p))
    ensures Drive(Drive(c, EnsureGet(w), os1).0, UnmarkFrom(w, w.pods), os2).0 == c <==>
            forall p :: p in w.pods ==> Unmarked(PodAt(c, p))
  {
    var withPolicy := SetPolicy(c, ns, true);
    var c1 := Drive(c, EnsureGet(w), os1).0;
    EnforceEffect(c, w, os1);
    var c2 := RevokeEffect(c1, w, os2);
    var end := Drive(c1, UnmarkFrom(w, w.pods), os2).0;
    forall p | p in w.pods
      ensures Exists(withPolicy, p) && PodAt(withPolicy, p) == PodAt(c, p)
    {
    }
    MarkThenUnmark(withPolicy, c1, c2, w.pods);
    if forall p :: p in w.pods ==> Unmarked(PodAt(c, p)) {
      assert c2 == withPolicy;
      SelectedTransfers(c, withPolicy, ns);
    } else {
      var p :| p in w.pods && !Unmarked(PodAt(c, p));
      assert Exists(c1, p) && Exists(c2, p);
      if PodAt(c1, p).Some? {
        MarksOfMarks(PodAt(c1, p).value);
      }
      assert Unmarked(PodAt(c2, p));
      assert PodAt(end, p) == PodAt(c2, p);
    }
  }

  // ---- From the verdict of an inspection to the labels ----

  predicate AllMarked(c: Cluster, pods: seq<PodRef>) {
    forall p :: p in pods ==> Exists(c, p) && Marked(PodAt(c, p))
  }

  predicate AllUnmarked(c: Cluster, pods: seq<PodRef>) {
    forall p :: p in pods ==> Exists(c, p) && Unmarked(PodAt(c, p))
  }

  /** HasBeenEnforced answers whether every pod has both label keys. */
  lemma {:induction false} CheckLoop(c: Cluster, t: Task, left: seq<PodRef>, all: bool, os: seq<Outcome>)
    returns (rest: seq<Outcome>)
    requires Drive(c, CheckFrom(t, left, all), os).1 == Ended(true)
    ensures forall p :: p in left ==> Exists(c, p)
    ensures Drive(c, Decide(t, all && AllMarked(c, left)), rest) == Drive(c, CheckFrom(t, left, all), os)
    decreases |left|
  {
    if left == [] {
      rest := os;
    } else {
      var _, pc1, os1 := FirstCall(c, Checking(t, left, all), os);
      rest := CheckLoop(c, t, left[1..], all && Marked(PodAt(c, left[0])), os1);
      assert left == [left[0]] + left[1..];
    }
  }

  lemma RelabelledPods(c: Cluster, c': Cluster, pods: seq<PodRef>, mark: bool)
    requires Relabelled(c, c', pods, mark)
    requires mark ==> forall p :: p in pods ==> PodAt(c, p).Some?
    ensures if mark then AllMarked(c', pods) else AllUnmarked(c', pods)
  {
    forall p | p in pods ensures Exists(c', p) && if mark then Marked(PodAt(c', p)) else Unmarked(PodAt(c', p)) {
      assert Exists(c, p);
      if PodAt(c, p).Some? {
        MarksOfMarks(PodAt(c, p).value);
      }
    }
  }

  /** What the scan of one workload achieves when it ends without an error: a workload that failed its
      inspection ends with all its pods marked; one that passed ends with all of them unmarked if and
      only if they were all marked or all unmarked before, because Revoke is skipped in between. */
  lemma VerdictTakesEffect(c: Cluster, t: Task, os: seq<Outcome>)
    requires Drive(c, CheckFrom(t, t.workload.pods, true), os).1 == Ended(true)
    ensures var c' := Drive(c, CheckFrom(t, t.workload.pods, true), os).0;
            var pods := t.workload.pods;
      && (!t.passed ==> AllMarked(c', pods))
      && (t.passed ==> (AllUnmarked(c', pods) <==> AllMarked(c, pods) || AllUnmarked(c, pods)))
  {
    var w := t.workload;
    var rest := CheckLoop(c, t, w.pods, true, os);
    if t.passed && AllMarked(c, w.pods) {
      var c1 := RevokeEffect(c, w, rest);
      RelabelledPods(c, c1, w.pods, false);
    } else if !t.passed && !AllMarked(c, w.pods) {
      EnforceEffect(c, w, rest);
      var c1 := SetPolicy(c, w.namespace, true);
      forall p | p in w.pods ensures PodAt(c1, p).Some? {
        assert Exists(c, p);
      }
      RelabelledPods(c1, Drive(c, EnsureGet(w), rest).0, w.pods, true);
    }
  }

  // ---- Pods without an owner ----

  /** Enforcing a workload with a blank reference fails at its first call and changes nothing. */
  lemma BareEnforceFails(c: Cluster, w: Workload, os: seq<Outcome>)
    requires w.namespace == ""
    ensures Drive(c, EnsureGet(w), os).0 == c && Drive(c, EnsureGet(w), os).1 != Ended(true)
  {
    if os != [] {
      var (c', pc') := Call(c, EnsureGet(w), os[0]);
      assert Drive(c', pc', os[1..]) == (c', pc');
    }
  }

  lemma {:induction false} BareCheck(c: Cluster, t: Task, left: seq<PodRef>, all: bool, os: seq<Outcome>)
    requires t.workload.namespace == "" && !t.passed
    ensures var (c', pc') := Drive(c, CheckFrom(t, left, all), os);
      c' == c && (pc' == Ended(true) ==> all && AllMarked(c, left))
    decreases |os|
  {
    if left == [] {
      if !all {
        BareEnforceFails(c, t.workload, os);
      }
    } else if os != [] {
      var (c', pc') := Call(c, Checking(t, left, all), os[0]);
      if Waiting(pc') || pc' == Ended(true) {
        BareCheck(c, t, left[1..], all && Marked(PodAt(c, left[0])), os[1..]);
      }
    }
  }

  /** A pod without an owner that fails its inspection is never quarantined: whatever the outcomes, the
      scan of its workload changes nothing, and it ends without an error only if its pods were marked
      before. */
  lemma BarePodsAreNeverQuarantined(c: Cluster, t: Task, os: seq<Outcome>)
    requires t.workload.namespace == "" && !t.passed
    ensures var (c', pc') := Drive(c, CheckFrom(t, t.workload.pods, true), os);
      c' == c && (pc' == Ended(true) ==> AllMarked(c, t.workload.pods))
  {
    BareCheck(c, t, t.workload.pods, true, os);
  }

  /** Whatever fails on the way, no call of a workload's Enforce or Revoke touches another pod. */
  lemma {:induction false} OtherPodsUntouched(c: Cluster, ns: string, pc: Pc, os: seq<Outcome>, r: PodRef)
    requires Waiting(pc) ==> WellFormed(pc) && InWorkload(pc) && LocalWorkload(ns, Subject(pc).value)
    requires Exists(c, r) && (Waiting(pc) ==> r !in Subject(pc).value.pods)
    ensures Exists(Drive(c, pc, os).0, r) && PodAt(Drive(c, pc, os).0, r) == PodAt(c, r)
    decreases |os|
  {
    if os != [] && Waiting(pc) {
      var (c', pc') := Call(c, pc, os[0]);
      CallIsLocal(c, ns, pc, os[0]);
      OtherPodsUntouched(c', ns, pc', os[1..], r);
    }
  }
}
