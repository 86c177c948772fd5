/** The verdict on a workload: the security data of each container image held against the baselines of the
    policy. */
module ImageScan {
  import opened Wrappers
  import opened Sequences
  import opened Artifact
  import opened SecurityCache
  import opened SecurityCacheResult

  /** A baseline: which data it is about, and the highest severity it accepts. */
  datatype Baseline = Baseline(meta: Metadata, severity: string)

  /** What inspecting a container meets: whether its scanner report is a readable one (or missing), and what
      reading its security data yields. */
  datatype Reading = Reading(readable: bool, stores: Option<seq<Store>>)

  datatype Failure =
    | Unread(container: nat)
    | Violated(container: nat, baseline: Baseline)

  datatype Assessment = Assessment(passed: bool, failures: seq<Failure>)

  /** Store.Assess; `code` orders severities. */
  predicate Acceptable(s: Store, b: Baseline, code: string -> int) {
    s.err.None? && code(s.data) <= code(b.severity)
  }

  /** Every store holds vulnerability data; one that matches the baseline, if there is one, is assessed. */
  predicate Meets(stores: seq<Store>, b: Baseline, code: string -> int) {
    VULN_META.Equal(b.meta) && stores != [] ==> Acceptable(stores[0], b, code)
  }

  /** The baselines that a container violates, in order. */
  function Violations(container: nat, stores: seq<Store>, baselines: seq<Baseline>, code: string -> int): seq<Failure> {
    if baselines == [] then []
    else
      var last := baselines[|baselines| - 1];
      Violations(container, stores, baselines[..|baselines| - 1], code)
      + (if Meets(stores, last, code) then [] else [Violated(container, last)])
  }

  function FailuresOf(container: nat, r: Reading, baselines: seq<Baseline>, code: string -> int): seq<Failure> {
    if r.stores.None? then [Unread(container)] else Violations(container, r.stores.value, baselines, code)
  }

  function AllFailures(readings: seq<Reading>, baselines: seq<Baseline>, code: string -> int): seq<Failure> {
    if readings == [] then []
    else
      var n := |readings| - 1;
      AllFailures(readings[..n], baselines, code) + FailuresOf(n, readings[n], baselines, code)
  }

  lemma {:induction false} ViolationsEmptyIff(container: nat, stores: seq<Store>, baselines: seq<Baseline>,
      code: string -> int)
    ensures Violations(container, stores, baselines, code) == [] <==>
            forall i :: 0 <= i < |baselines| ==> Meets(stores, baselines[i], code)
  {
    if baselines != [] {
      ViolationsEmptyIff(container, stores, baselines[..|baselines| - 1], code);
    }
  }

  predicate ContainerPasses(r: Reading, baselines: seq<Baseline>, code: string -> int) {
    r.stores.Some? && forall i :: 0 <= i < |baselines| ==> Meets(r.stores.value, baselines[i], code)
  }

  lemma OneContainer(container: nat, r: Reading, baselines: seq<Baseline>, code: string -> int)
    ensures FailuresOf(container, r, baselines, code) == [] <==> ContainerPasses(r, baselines, code)
  {
    if r.stores.Some? {
      ViolationsEmptyIff(container, r.stores.value, baselines, code);
    }
  }

  lemma BothEmpty(a: seq<Failure>, b: seq<Failure>)
    ensures a + b == [] <==> a == [] && b == []
  {
    assert |a + b| == |a| + |b|;
  }

  predicate WorkloadPasses(readings: seq<Reading>, baselines: seq<Baseline>, code: string -> int) {
    forall i :: 0 <= i < |readings| ==> ContainerPasses(readings[i], baselines, code)
  }

  lemma OneMorePasses(readings: seq<Reading>, n: nat, baselines: seq<Baseline>, code: string -> int)
    requires |readings| == n + 1
    ensures WorkloadPasses(readings, baselines, code) <==>
            WorkloadPasses(readings[..n], baselines, code) && ContainerPasses(readings[n], baselines, code)
  {
    assert readings == readings[..n] + [readings[n]];
  }

  lemma {:induction false} FailuresEmptyIff(readings: seq<Reading>, baselines: seq<Baseline>, code: string -> int)
    ensures AllFailures(readings, baselines, code) == [] <==> WorkloadPasses(readings, baselines, code)
  {
    if readings != [] {
      var n := |readings| - 1;
      FailuresEmptyIff(readings[..n], baselines, code);
      OneContainer(n, readings[n], baselines, code);
      OneMorePasses(readings, n, baselines, code);
      BothEmpty(AllFailures(readings[..n], baselines, code), FailuresOf(n, readings[n], baselines, code));
    }
  }

  /** The compliance check of one container: the first store that matches a baseline decides. */
  method CheckBaselines(container: nat, stores: seq<Store>, baselines: seq<Baseline>, code: string -> int)
    returns (failures: seq<Failure>)
    ensures failures == Violations(container, stores, baselines, code)
  {
    failures := [];
    for b := 0 to |baselines|
      invariant failures == Violations(container, stores, baselines[..b], code)
    {
      assert baselines[..b + 1][..b] == baselines[..b];
      for k := 0 to |stores|
        invariant VULN_META.Equal(baselines[b].meta) ==> k == 0
        invariant failures == Violations(container, stores, baselines[..b], code)
      {
        if VULN_META.Equal(baselines[b].meta) {
          if !Acceptable(stores[k], baselines[b], code) {
            failures := failures + [Violated(container, baselines[b])];
          }
          break;
        }
      }
    }
    assert baselines[..|baselines|] == baselines;
  }

  /** The inspection of one workload, given the readings of its containers. A scanner report that is there
      but cannot be read ends it without an assessment. */
  method Inspect(readings: seq<Reading>, baselines: seq<Baseline>, code: string -> int) returns (wa: Option<Assessment>)
    ensures wa.None? <==> exists i :: 0 <= i < |readings| && !readings[i].readable
    ensures wa.Some? ==>
      && wa.value.failures == AllFailures(readings, baselines, code)
      && (wa.value.passed <==> forall i :: 0 <= i < |readings| ==> ContainerPasses(readings[i], baselines, code))
  {
    var passed, failures := true, [];
    for n := 0 to |readings|
      invariant forall i :: 0 <= i < n ==> readings[i].readable
      invariant failures == AllFailures(readings[..n], baselines, code)
      invariant passed <==> failures == []
    {
      assert readings[..n + 1][..n] == readings[..n];
      if !readings[n].readable {
        return None;
      }
      if readings[n].stores.None? {
        passed := false;
        failures := failures + [Unread(n)];
        continue;
      }
      var violated := CheckBaselines(n, readings[n].stores.value, baselines, code);
      passed := passed && violated == [];
      failures := failures + violated;
    }
    assert readings[..|readings|] == readings;
    FailuresEmptyIff(readings, baselines, code);
    wa := Some(Assessment(passed, failures));
  }

  // ---- Which failures, and in which order ----

  /** A container and, when its data could be read, one of the baselines. */
  datatype Place = Place(container: nat, baseline: nat)

  /** The baseline is about vulnerabilities, and the first data of the container are worse than it accepts. */
  predicate Excludes(b: Baseline, stores: seq<Store>, code: string -> int) {
    VULN_META.Equal(b.meta) && |stores| > 0 && (stores[0].err.Some? || code(stores[0].data) > code(b.severity))
  }

  predicate FailsAt(readings: seq<Reading>, baselines: seq<Baseline>, code: string -> int, at: Place) {
    at.container < |readings|
    && match readings[at.container].stores
       case None => at.baseline == 0
       case Some(stores) => at.baseline < |baselines| && Excludes(baselines[at.baseline], stores, code)
  }

  predicate Tells(f: Failure, readings: seq<Reading>, baselines: seq<Baseline>, at: Place) {
    match f
    case Unread(n) => at.container == n < |readings| && readings[n].stores.None?
    case Violated(n, b) =>
      at.container == n < |readings| && readings[n].stores.Some?
      && at.baseline < |baselines| && baselines[at.baseline] == b
  }

  predicate Precedes(a: Place, b: Place) {
    a.container < b.container || (a.container == b.container && a.baseline < b.baseline)
  }

  /** The failures are those at these places. */
  predicate Located(failures: seq<Failure>, readings: seq<Reading>, baselines: seq<Baseline>, code: string -> int,
                    places: seq<Place>) {
    && |places| == |failures|
    && (forall i, j :: 0 <= i < j < |places| ==> Precedes(places[i], places[j]))
    && (forall i :: 0 <= i < |places| ==>
          FailsAt(readings, baselines, code, places[i]) && Tells(failures[i], readings, baselines, places[i]))
  }

  /** Every place up to these counts has been told, or does not fail. */
  ghost predicate Complete(readings: seq<Reading>, baselines: seq<Baseline>, code: string -> int, places: seq<Place>,
                           n: nat, k: nat) {
    forall at: Place ::
      FailsAt(readings, baselines, code, at) && (at.container < n || (at.container == n && at.baseline < k)) ==>
      at in places
  }

  lemma OneMoreLocated(failures: seq<Failure>, readings: seq<Reading>, baselines: seq<Baseline>,
                       code: string -> int, places: seq<Place>, f: Failure, at: Place)
    requires Located(failures, readings, baselines, code, places)
    requires FailsAt(readings, baselines, code, at) && Tells(f, readings, baselines, at)
    requires forall i :: 0 <= i < |places| ==> Precedes(places[i], at)
    ensures Located(failures + [f], readings, baselines, code, places + [at])
  {
  }

  lemma OneMoreComplete(readings: seq<Reading>, baselines: seq<Baseline>, code: string -> int, places: seq<Place>,
                        n: nat, k: nat)
    requires Complete(readings, baselines, code, places, n, k)
    ensures Complete(readings, baselines, code, places + [Place(n, k)], n, k + 1)
    ensures !FailsAt(readings, baselines, code, Place(n, k)) ==> Complete(readings, baselines, code, places, n, k + 1)
  {
    assert forall at: Place :: at.container == n && at.baseline == k ==> at == Place(n, k);
    assert forall at :: at in places + [Place(n, k)] <==> at in places || at == Place(n, k);
  }

  lemma {:induction false} ViolationsLocated(readings: seq<Reading>, baselines: seq<Baseline>, code: string -> int,
      n: nat, k: nat, before: seq<Failure>, places: seq<Place>) returns (more: seq<Place>)
    requires n < |readings| && readings[n].stores.Some? && k <= |baselines|
    requires Located(before, readings, baselines, code, places) && Complete(readings, baselines, code, places, n, 0)
    requires forall i :: 0 <= i < |places| ==> places[i].container < n
    ensures Located(before + Violations(n, readings[n].stores.value, baselines[..k], code),
                    readings, baselines, code, more)
    ensures Complete(readings, baselines, code, more, n, k)
    ensures forall i :: 0 <= i < |more| ==> Precedes(more[i], Place(n, k))
    decreases k
  {
    var stores := readings[n].stores.value;
    if k == 0 {
      assert before + [] == before;
      more := places;
    } else {
      more := ViolationsLocated(readings, baselines, code, n, k - 1, before, places);
      assert baselines[..k][..k - 1] == baselines[..k - 1];
      var former, at := Violations(n, stores, baselines[..k - 1], code), Place(n, k - 1);
      OneMoreComplete(readings, baselines, code, more, n, k - 1);
      if Meets(stores, baselines[k - 1], code) {
        assert former + [] == former;
      } else {
        var f := Violated(n, baselines[k - 1]);
        OneMoreLocated(before + former, readings, baselines, code, more, f, at);
        Associate(before, former, [f]);
        more := more + [at];
      }
    }
  }

  lemma OneMoreReading(readings: seq<Reading>, baselines: seq<Baseline>, code: string -> int, n: nat)
    requires n < |readings|
    ensures AllFailures(readings[..n + 1], baselines, code) ==
            AllFailures(readings[..n], baselines, code)
            + (if readings[n].stores.None? then [Unread(n)]
               else Violations(n, readings[n].stores.value, baselines[..|baselines|], code))
  {
    assert readings[..n + 1][..n] == readings[..n];
    assert baselines[..|baselines|] == baselines;
  }

  /** No place of a container comes after its last baseline. */
  lemma NextContainer(readings: seq<Reading>, baselines: seq<Baseline>, code: string -> int, places: seq<Place>, n: nat)
    requires n < |readings|
    requires Complete(readings, baselines, code, places, n, if readings[n].stores.None? then 1 else |baselines|)
    ensures Complete(readings, baselines, code, places, n + 1, 0)
  {
  }

  /** The failures are told container by container, for each container baseline by baseline, each once:
      of a container that the assessment could not read exactly that, and of any other exactly the baselines
      that exclude it. */
  lemma {:induction false} FailuresLocated(readings: seq<Reading>, baselines: seq<Baseline>, code: string -> int,
      n: nat) returns (places: seq<Place>)
    requires n <= |readings|
    ensures Located(AllFailures(readings[..n], baselines, code), readings, baselines, code, places)
    ensures Complete(readings, baselines, code, places, n, 0)
    ensures forall i :: 0 <= i < |places| ==> places[i].container < n
    decreases n
  {
    if n == 0 {
      places := [];
    } else {
      places := FailuresLocated(readings, baselines, code, n - 1);
      OneMoreReading(readings, baselines, code, n - 1);
      var former := AllFailures(readings[..n - 1], baselines, code);
      if readings[n - 1].stores.None? {
        OneMoreLocated(former, readings, baselines, code, places, Unread(n - 1), Place(n - 1, 0));
        OneMoreComplete(readings, baselines, code, places, n - 1, 0);
        places := places + [Place(n - 1, 0)];
      } else {
        places := ViolationsLocated(readings, baselines, code, n - 1, |baselines|, former, places);
      }
      NextContainer(readings, baselines, code, places, n - 1);
    }
  }

  // ---- What follows from the verdict ----

  /** The actions of the policy are revoked or enforced; a missing assessment is dereferenced. */
  datatype Decision = Nothing | Revoke | Enforce | NilPanic

  predicate AllReadable(readings: seq<Reading>) {
    forall i :: 0 <= i < |readings| ==> readings[i].readable
  }

  /** The assessment of a workload, which is there unless a scanner report could not be read. */
  predicate Assesses(wa: Option<Assessment>, readings: seq<Reading>, baselines: seq<Baseline>, code: string -> int) {
    && (wa.Some? <==> AllReadable(readings))
    && (wa.Some? ==>
          && wa.value.failures == AllFailures(readings, baselines, code)
          && (wa.value.passed <==> WorkloadPasses(readings, baselines, code)))
  }

  method Judge(readings: seq<Reading>, baselines: seq<Baseline>, code: string -> int, actions: bool)
    returns (wa: Option<Assessment>, decision: Decision)
    ensures Assesses(wa, readings, baselines, code)
    ensures decision == NilPanic <==> actions && !AllReadable(readings)
    ensures decision == Revoke <==> actions && AllReadable(readings) && WorkloadPasses(readings, baselines, code)
    ensures decision == Enforce <==> actions && AllReadable(readings) && !WorkloadPasses(readings, baselines, code)
  {
    wa := Inspect(readings, baselines, code);
    decision := Nothing;
    if actions {
      if wa.None? {
        return wa, NilPanic;
      }
      decision := if wa.value.passed then Revoke else Enforce;
    }
  }

  /** The job of one namespace: a panic ends it, and with it the scan. */
  method ScanNamespace(workloads: seq<seq<Reading>>, baselines: seq<Baseline>, code: string -> int, actions: bool)
    returns (assessments: seq<Option<Assessment>>, decisions: seq<Decision>)
    ensures |assessments| == |decisions| <= |workloads|
    ensures forall k :: 0 <= k < |assessments| ==> Assesses(assessments[k], workloads[k], baselines, code)
    ensures forall k :: 0 <= k < |decisions| ==>
      decisions[k] == if !actions then Nothing
                      else if !AllReadable(workloads[k]) then NilPanic
                      else if WorkloadPasses(workloads[k], baselines, code) then Revoke else Enforce
    ensures NilPanic in decisions <==> actions && exists k :: 0 <= k < |workloads| && !AllReadable(workloads[k])
    ensures NilPanic !in decisions ==> |decisions| == |workloads|
    ensures forall k :: 0 <= k < |decisions| - 1 ==> decisions[k] != NilPanic
  {
    assessments, decisions := [], [];
    for k := 0 to |workloads|
      invariant |assessments| == |decisions| == k
      invariant forall j :: 0 <= j < k ==> Assesses(assessments[j], workloads[j], baselines, code)
      invariant forall j :: 0 <= j < k ==>
        decisions[j] == if !actions then Nothing
                        else if !AllReadable(workloads[j]) then NilPanic
                        else if WorkloadPasses(workloads[j], baselines, code) then Revoke else Enforce
      invariant NilPanic !in decisions
    {
      var wa, decision := Judge(workloads[k], baselines, code, actions);
      assessments := assessments + [wa];
      decisions := decisions + [decision];
      if decision == NilPanic {
        assert decisions[k] == NilPanic;
        return;
      }
    }
    if actions {
      forall k | 0 <= k < |workloads| ensures AllReadable(workloads[k]) {
        assert decisions[k] in decisions;
      }
    }
  }

  function Metas(baselines: seq<Baseline>): (r: seq<Metadata>)
    ensures |r| == |baselines| && forall i :: 0 <= i < |r| ==> r[i] == baselines[i].meta
  {
    seq(|baselines|, i requires 0 <= i < |baselines| => baselines[i].meta)
  }

  /** Harbor's answer is good enough: with baselines, all about vulnerabilities, there is a scan overview
      whose severity none of them excludes. */
  predicate GoodEnough(id: ArtifactID, response: Response, baselines: seq<Baseline>, code: string -> int) {
    && response.Artifact?
    && (forall i :: 0 <= i < |baselines| ==> Supported(baselines[i].meta))
    && (baselines != [] ==> id.artifactID != "" && response.overview.Some?)
    && forall i :: 0 <= i < |baselines| ==> code(response.overview.value) <= code(baselines[i].severity)
  }

  /** A container whose data comes from Harbor passes if and only if Harbor's answer is good enough. */
  lemma PassesIffHarborSaysSo(id: ArtifactID, response: Response, baselines: seq<Baseline>, code: string -> int,
      readable: bool)
    ensures ContainerPasses(Reading(readable, Fetched(id, Metas(baselines), response)), baselines, code)
            <==> GoodEnough(id, response, baselines, code)
  {
    var metas := Metas(baselines);
    var fetched := Fetched(id, metas, response);
    if fetched.Some? {
      assert fetched.value[0] == Filled(id, response.overview);
      assert forall i :: 0 <= i < |baselines| ==> Supported(metas[i]);
    } else if response.Artifact? {
      var k :| 0 <= k < |metas| && !Supported(metas[k]);
      assert !Supported(baselines[k].meta);
    }
  }

  lemma CachedReadIsFetched(entries: Entries, now: int, id: ArtifactID, baselines: seq<Baseline>, oks: nat -> bool,
                            response: Response)
    requires Key(id, VULN_META) in entries
    requires response.Artifact? && entries[Key(id, VULN_META)].value == ToJSON(Filled(id, response.overview))
    requires CacheRead(entries, now, id, Metas(baselines), oks).Some?
    ensures CacheRead(entries, now, id, Metas(baselines), oks) == Fetched(id, Metas(baselines), response)
  {
    CachedStores(entries, now, id, Metas(baselines), oks, response, 0);
    assert CacheRead(entries, now, id, Metas(baselines), oks).value == Fetched(id, Metas(baselines), response).value;
  }

  /** The entry of an artifact that is served holds an answer of Harbor for that artifact. */
  lemma ServedEntryIsAnswer(s: System, id: ArtifactID, metas: seq<Metadata>, oks: nat -> bool) returns (w: Written)
    requires Inv(s) && CacheRead(s.entries, s.now, id, metas, oks).Some?
    ensures Key(id, VULN_META) in s.entries
    ensures s.entries[Key(id, VULN_META)].value == ToJSON(Filled(id, w.fetch.overview))
    ensures w.fetch in s.fetches && w.fetch.artifact == id.artifactID && w.fetch.at <= w.at <= s.now < w.at + s.living
  {
    var key := Key(id, VULN_META);
    assert metas != [] && ReadStores(s.entries, s.now, id, metas, oks, 0).Some?;
    assert metas[0].Text() == VULN_META.Text() && Key(id, metas[0]) == key;
    w :| WrittenBy(s, key, s.entries[key], w);
    KeysDiffer(id, ArtifactID(w.fetch.artifact, ""), VULN_META, VULN_META);
  }

  /** Over every run of readers side by side: a verdict from the cache is the verdict that an answer Harbor
      once gave for this artifact calls for, an answer written to the cache less than the living time ago. */
  lemma CachedVerdictIsHarbors(living: int, events: seq<Event>, id: ArtifactID, baselines: seq<Baseline>,
                               oks: nat -> bool, code: string -> int, readable: bool)
    requires PossibleRun(Start(living), events)
    requires var s := ApplyAll(Start(living), events); CacheRead(s.entries, s.now, id, Metas(baselines), oks).Some?
    ensures var s := ApplyAll(Start(living), events);
      var cached := Reading(readable, CacheRead(s.entries, s.now, id, Metas(baselines), oks));
      exists w: Written ::
        && w.fetch in s.fetches && w.fetch.artifact == id.artifactID && w.fetch.at <= w.at <= s.now < w.at + s.living
        && (ContainerPasses(cached, baselines, code) <==> GoodEnough(id, Artifact(w.fetch.overview), baselines, code))
  {
    RunKeepsInv(Start(living), events);
    var s := ApplyAll(Start(living), events);
    var w := ServedEntryIsAnswer(s, id, Metas(baselines), oks);
    CachedReadIsFetched(s.entries, s.now, id, baselines, oks, Artifact(w.fetch.overview));
    PassesIffHarborSaysSo(id, Artifact(w.fetch.overview), baselines, code, readable);
  }

  lemma {:induction false} CachedStores(entries: Entries, now: int, id: ArtifactID, metas: seq<Metadata>,
      oks: nat -> bool,
                                        response: Response, k: nat)
    requires k <= |metas| && response.Artifact? && Key(id, VULN_META) in entries
    requires entries[Key(id, VULN_META)].value == ToJSON(Filled(id, response.overview))
    requires ReadStores(entries, now, id, metas, oks, k).Some?
    ensures forall i :: k <= i < |metas| ==> Supported(metas[i])
    ensures ReadStores(entries, now, id, metas, oks, k).value == seq(|metas| - k, _ => Filled(id, response.overview))
    decreases |metas| - k
  {
    if k < |metas| {
      CachedStores(entries, now, id, metas, oks, response, k + 1);
      assert metas[k].Text() == VULN_META.Text();
      assert Key(id, metas[k]) == Key(id, VULN_META);
    }
  }
}
