/** What the cache serves: nothing but recent answers of the provider for the same artifact. */
module SecurityCacheResult {
  import opened Wrappers
  import opened Artifact
  import opened SecurityCache
  import opened Sequences
  import opened Strings

  // ---- Keys and encodings ----

  /** Metadata.Equal compares the joined texts; without colons in kind and version that is equality. */
  lemma EqualIsEquality(m1: Metadata, m2: Metadata)
    requires ':' !in m1.kind && ':' !in m1.version && ':' !in m2.kind && ':' !in m2.version
    ensures m1.Equal(m2) <==> m1 == m2
  {
    FirstFieldsAgree(m1.version, m1.scheme, m2.version, m2.scheme);
    FirstFieldsAgree(m1.kind, m1.version + ":" + m1.scheme, m2.kind, m2.version + ":" + m2.scheme);
    assert m1.Text() == m1.kind + ":" + (m1.version + ":" + m1.scheme);
    assert m2.Text() == m2.kind + ":" + (m2.version + ":" + m2.scheme);
  }

  /** Another metadata with the same text. */
  ghost predicate Confusable(m: Metadata) {
    exists other :: other != m && m.Equal(other)
  }

  lemma ColonConfuses(a: string, b: string, c: string, d: string)
    ensures Metadata(a + ":" + b, c, d).Equal(Metadata(a, b + ":" + c, d))
    ensures Metadata(a, b + ":" + c, d).Equal(Metadata(a, b, c + ":" + d))
    ensures Metadata(a + ":" + b, c, d) != Metadata(a, b + ":" + c, d)
    ensures Metadata(a, b + ":" + c, d) != Metadata(a, b, c + ":" + d)
  {
    assert a + ":" + b + ":" + c == a + ":" + (b + ":" + c);
    assert a + ":" + (b + ":" + c) + ":" + d == a + ":" + b + ":" + (c + ":" + d);
    assert |a + ":" + b| > |a| && |b + ":" + c| > |b|;
  }

  lemma ColonSplits(s: string) returns (a: string, b: string)
    requires ':' in s
    ensures s == a + ":" + b
  {
    var i :| 0 <= i < |s| && s[i] == ':';
    a, b := s[..i], s[i + 1..];
  }

  /** Metadata is taken for another one by Metadata.Equal if and only if one of its fields holds a colon. */
  lemma ConfusableIffColon(m: Metadata)
    ensures Confusable(m) <==> ':' in m.kind || ':' in m.version || ':' in m.scheme
  {
    if ':' in m.kind {
      var a, b := ColonSplits(m.kind);
      ColonConfuses(a, b, m.version, m.scheme);
      assert m.Equal(Metadata(a, b + ":" + m.version, m.scheme));
    } else if ':' in m.version {
      var b, c := ColonSplits(m.version);
      ColonConfuses(m.kind, b, c, m.scheme);
      assert m.Equal(Metadata(m.kind, b, c + ":" + m.scheme));
    } else if ':' in m.scheme {
      var c, d := ColonSplits(m.scheme);
      ColonConfuses(m.kind, m.version, c, d);
      assert m.Equal(Metadata(m.kind, m.version + ":" + c, d));
    } else {
      forall other | m.Equal(other) ensures other == m {
        OnlyTwoColons(m, other);
      }
    }
  }

  /** A text with two colons is split in one way. */
  lemma OnlyTwoColons(m: Metadata, other: Metadata)
    requires ':' !in m.kind && ':' !in m.version && ':' !in m.scheme && m.Equal(other)
    ensures other == m
  {
    ColonsInText(m);
    ColonsInText(other);
    CountZero(m.kind, ':');
    CountZero(m.version, ':');
    CountZero(m.scheme, ':');
    CountZero(other.kind, ':');
    CountZero(other.version, ':');
    EqualIsEquality(m, other);
  }

  lemma ColonsInText(m: Metadata)
    ensures Count(m.Text(), ':') == Count(m.kind, ':') + Count(m.version, ':') + Count(m.scheme, ':') + 2
  {
    CountAppend(m.kind + ":" + m.version + ":", m.scheme, ':');
    CountSnoc(m.kind + ":" + m.version, ':', ':');
    CountAppend(m.kind + ":", m.version, ':');
    CountSnoc(m.kind, ':', ':');
  }

  /** Different artifacts never share a key of the same kind of data. */
  lemma KeysDiffer(id1: ArtifactID, id2: ArtifactID, m1: Metadata, m2: Metadata)
    requires m1.Equal(m2)
    ensures Key(id1, m1) == Key(id2, m2) <==> id1.artifactID == id2.artifactID
  {
    var p := m1.Text() + ":";
    assert Key(id1, m1)[|p|..] == id1.artifactID && Key(id2, m2)[|p|..] == id2.artifactID;
  }

  /** The JSON round trip keeps exactly the stores without an error. */
  lemma RoundTripIffNoError(s: Store)
    ensures FromJSON(ToJSON(s)) == s <==> s.err.None? || (s.err == Some(BAD_JSON))
    ensures FromJSON(ToJSON(s)).err.None? <==> s.err.None?
  {
  }

  // ---- The invariant ----

  /** The entry is what some reader wrote, from an answer that the provider gave for this artifact. */
  ghost predicate WrittenBy(s: System, key: string, e: Entry, w: Written) {
    && w in s.writes && w.fetch in s.fetches && w.fetch.at <= w.at <= s.now
    && key == Key(ArtifactID(w.fetch.artifact, ""), VULN_META)
    && e.value == ToJSON(Filled(ArtifactID(w.fetch.artifact, ""), w.fetch.overview))
    && e.expires == w.at + s.living
  }

  predicate PendingOk(s: System, p: Pending) {
    && p.fetch in s.fetches && p.fetch.at <= s.now && p.fetch.artifact == p.id.artifactID
    && forall x :: x in p.stores ==> x == Filled(p.id, p.fetch.overview)
  }

  ghost predicate Inv(s: System) {
    && (forall key :: key in s.entries ==> exists w :: WrittenBy(s, key, s.entries[key], w))
    && (forall r :: r in s.pending ==> PendingOk(s, s.pending[r]))
  }

  lemma {:induction false} SetAllSame(entries: Entries, now: int, living: int, id: ArtifactID, stores: seq<Store>,
      x: Store)
    requires forall y :: y in stores ==> y == x
    ensures SetAll(entries, now, living, id, stores) ==
            if stores == [] || living <= 0 then entries
            else entries[Key(id, VULN_META) := Entry(ToJSON(x), now + living)]
    decreases |stores|
  {
    if stores != [] && living > 0 {
      assert stores[0] in stores;
      forall y | y in stores[1..] ensures y == x {
        assert y in stores;
      }
      SetAllSame(entries[Key(id, VULN_META) := Entry(ToJSON(x), now + living)], now, living, id, stores[1..], x);
    }
  }

  lemma KeepsWritten(s: System, t: System, key: string, e: Entry)
    requires exists w :: WrittenBy(s, key, e, w)
    requires t.living == s.living && s.now <= t.now
    requires (forall w :: w in s.writes ==> w in t.writes) && (forall f :: f in s.fetches ==> f in t.fetches)
    ensures exists w :: WrittenBy(t, key, e, w)
  {
    var w :| WrittenBy(s, key, e, w);
    assert WrittenBy(t, key, e, w);
  }

  lemma SaveKeepsInv(s: System, reader: nat, exec: Outcome)
    requires Inv(s) && reader in s.pending
    ensures Inv(Apply(s, Save(reader, exec)))
  {
    var t, p := Apply(s, Save(reader, exec)), s.pending[reader];
    var w, x := Written(p.fetch, s.now), Filled(p.id, p.fetch.overview);
    assert PendingOk(s, p);
    SetAllSame(s.entries, s.now, s.living, p.id, p.stores, x);
    forall key | key in t.entries ensures exists v :: WrittenBy(t, key, t.entries[key], v) {
      if key in s.entries && t.entries[key] == s.entries[key] {
        KeepsWritten(s, t, key, s.entries[key]);
      } else {
        assert WrittenBy(t, key, t.entries[key], w);
      }
    }
    forall r | r in t.pending ensures PendingOk(t, t.pending[r]) {
      assert PendingOk(s, s.pending[r]);
    }
  }

  lemma OthersKeepInv(s: System, e: Event)
    requires Inv(s) && Possible(s, e) && !e.Save?
    ensures Inv(Apply(s, e))
  {
    var t := Apply(s, e);
    forall key | key in t.entries ensures exists w :: WrittenBy(t, key, t.entries[key], w) {
      KeepsWritten(s, t, key, s.entries[key]);
    }
    forall r | r in t.pending ensures PendingOk(t, t.pending[r]) {
      if r in s.pending {
        assert PendingOk(s, s.pending[r]);
      }
    }
  }

  lemma {:induction false} RunKeepsInv(s: System, events: seq<Event>)
    requires Inv(s) && PossibleRun(s, events)
    ensures Inv(ApplyAll(s, events)) && ApplyAll(s, events).living == s.living
    decreases |events|
  {
    if events != [] {
      if events[0].Save? {
        SaveKeepsInv(s, events[0].reader, events[0].exec);
      } else {
        OthersKeepInv(s, events[0]);
      }
      RunKeepsInv(Apply(s, events[0]), events[1..]);
    }
  }

  // ---- What is served ----

  /** The store is an answer that the provider gave for the artifact and that was written to the cache
      less than the living time ago. */
  ghost predicate Recent(s: System, artifact: string, x: Store) {
    && x.err.None?
    && exists w :: w in s.writes && w.fetch in s.fetches && w.fetch.artifact == artifact
                   && w.fetch.overview == Some(x.data) && w.fetch.at <= w.at <= s.now < w.at + s.living
  }

  lemma {:induction false} ServedIsRecent(s: System, id: ArtifactID, metas: seq<Metadata>, oks: nat -> bool, k: nat)
    requires Inv(s) && k <= |metas|
    ensures var r := ReadStores(s.entries, s.now, id, metas, oks, k);
      r.Some? ==> forall x :: x in r.value ==> Recent(s, id.artifactID, x)
    decreases |metas| - k
  {
    if k < |metas| && ReadStores(s.entries, s.now, id, metas, oks, k).Some? {
      ServedIsRecent(s, id, metas, oks, k + 1);
      var key := Key(id, metas[k]);
      var w :| WrittenBy(s, key, s.entries[key], w);
      KeysDiffer(id, ArtifactID(w.fetch.artifact, ""), metas[k], VULN_META);
      assert Recent(s, id.artifactID, FromJSON(s.entries[key].value));
    }
  }

  /** Over every run, with any number of readers side by side, any call failing and any delay between a
      fetch and its write: every store served from the cache carries no error and is what the provider
      answered for the same artifact, in an answer written less than the living time ago. */
  lemma BoundedStaleness(living: int, events: seq<Event>, id: ArtifactID, metas: seq<Metadata>, oks: nat -> bool)
    requires PossibleRun(Start(living), events)
    ensures var s := ApplyAll(Start(living), events);
      var r := CacheRead(s.entries, s.now, id, metas, oks);
      r.Some? ==> |r.value| == |metas| > 0 && forall x :: x in r.value ==> Recent(s, id.artifactID, x)
  {
    RunKeepsInv(Start(living), events);
    ServedIsRecent(ApplyAll(Start(living), events), id, metas, oks, 0);
  }

  /** After the run, in which no reader took longer than `delay` between its fetch and its write, the cache
      serves `x`. */
  ghost predicate ServesAfter(
    living: int, events: seq<Event>, delay: int, id: ArtifactID, metas: seq<Metadata>, oks: nat -> bool, x: Store)
  {
    && PossibleRun(Start(living), events)
    && var s := ApplyAll(Start(living), events);
       var r := CacheRead(s.entries, s.now, id, metas, oks);
       (forall w :: w in s.writes ==> w.at - w.fetch.at <= delay) && r.Some? && x in r.value
  }

  /** `x` is an answer of the provider for the artifact that is younger than `age`. */
  ghost predicate Younger(s: System, id: ArtifactID, x: Store, age: int) {
    exists f :: f in s.fetches && f.artifact == id.artifactID && f.overview == Some(x.data) && s.now - f.at < age
  }

  lemma {:induction false} LivingIsFixed(s: System, events: seq<Event>)
    requires PossibleRun(s, events)
    ensures ApplyAll(s, events).living == s.living
    decreases |events|
  {
    if events != [] {
      LivingIsFixed(Apply(s, events[0]), events[1..]);
    }
  }

  /** The answers themselves are younger than the living time and the delay together, and nothing is served
      without a living time. */
  lemma AnswersAreRecent(
    living: int, events: seq<Event>, delay: int, id: ArtifactID, metas: seq<Metadata>, oks: nat -> bool, x: Store)
    requires ServesAfter(living, events, delay, id, metas, oks, x)
    ensures living > 0 && Younger(ApplyAll(Start(living), events), id, x, living + delay)
  {
    BoundedStaleness(living, events, id, metas, oks);
    var s := ApplyAll(Start(living), events);
    LivingIsFixed(Start(living), events);
    assert Recent(s, id.artifactID, x);
    var w :| w in s.writes && w.fetch in s.fetches && w.fetch.artifact == id.artifactID
             && w.fetch.overview == Some(x.data) && w.fetch.at <= w.at <= s.now < w.at + s.living;
    assert w.fetch in s.fetches;
  }

  /** One reader that takes its time to write its answer, and the last moment at which it is served. */
  function OldestRun(living: int, id: ArtifactID, overview: string, delay: nat): seq<Event>
    requires living > 0
  {
    [Ask(0, id, [VULN_META], Artifact(Some(overview)))]
    + ([Tick(delay)] + ([Save(0, Acked)] + ([Tick(living - 1)] + [])))
  }

  lemma OldestIsServed(living: int, id: ArtifactID, overview: string, delay: nat)
    requires living > 0 && id.artifactID != ""
    ensures var events := OldestRun(living, id, overview, delay);
      && ServesAfter(living, events, delay, id, [VULN_META], _ => true, Store(overview, None))
      && var s := ApplyAll(Start(living), events);
         s.fetches == [Fetch(id.artifactID, 0, Some(overview))] && s.now == delay + living - 1
  {
    var f := Fetch(id.artifactID, 0, Some(overview));
    var x := Store(overview, None);
    var asked := Start(living).(fetches := [f], pending := map[0 := Pending(id, f, [x])]);
    var later := asked.(now := delay);
    var saved := later.(pending := map[], entries := map[Key(id, VULN_META) := Entry(ToJSON(x), delay + living)],
                        writes := [Written(f, delay)]);
    SetAllSame(map[], delay, living, id, [x], x);
    Before(saved, Tick(living - 1), []);
    var more := [Tick(living - 1)] + [];
    assert Apply(later, Save(0, Acked)) == saved;
    Before(later, Save(0, Acked), more);
    assert Apply(asked, Tick(delay)) == later;
    Before(asked, Tick(delay), [Save(0, Acked)] + more);
    assert Fetched(id, [VULN_META], Artifact(Some(overview))).value == [x];
    assert Apply(Start(living), Ask(0, id, [VULN_META], Artifact(Some(overview)))) == asked;
    Before(Start(living), Ask(0, id, [VULN_META], Artifact(Some(overview))), [Tick(delay)] + ([Save(0, Acked)] + more));
    OneServed(saved.entries, delay + living - 1, id, x);
  }

  lemma OneServed(entries: Entries, now: int, id: ArtifactID, x: Store)
    requires Key(id, VULN_META) in entries && entries[Key(id, VULN_META)].value == ToJSON(x)
    requires x.err.None? && now < entries[Key(id, VULN_META)].expires
    ensures CacheRead(entries, now, id, [VULN_META], _ => true) == Some([x])
  {
    AllServed(entries, now, id, x, [VULN_META], 0);
    var r := CacheRead(entries, now, id, [VULN_META], _ => true);
    assert r.Some? && |r.value| == 1;
    assert r.value[0] in r.value;
    assert r.value == [x];
  }

  /** In every run with delays up to `delay`, everything that is served is younger than `age`. */
  ghost predicate BoundsAge(living: int, delay: int, age: int) {
    forall events, id, metas, oks, x :: ServesAfter(living, events, delay, id, metas, oks, x) ==>
      Younger(ApplyAll(Start(living), events), id, x, age)
  }

  /** The bound is exact: with delays up to `delay`, all that is ever served is younger than `age` if and
      only if the living time and the delay together are at most that (or nothing is cached at all). */
  lemma AgeBoundIff(living: int, delay: nat, age: int)
    ensures BoundsAge(living, delay, age) <==> living <= 0 || living + delay <= age
  {
    if living <= 0 || living + delay <= age {
      forall events, id, metas, oks, x | ServesAfter(living, events, delay, id, metas, oks, x)
        ensures Younger(ApplyAll(Start(living), events), id, x, age)
      {
        AnswersAreRecent(living, events, delay, id, metas, oks, x);
      }
    } else {
      var id := ArtifactID("a", "");
      var x := Store("", None);
      var events := OldestRun(living, id, "", delay);
      OldestIsServed(living, id, "", delay);
      assert ServesAfter(living, events, delay, id, [VULN_META], _ => true, x);
      assert !Younger(ApplyAll(Start(living), events), id, x, age);
    }
  }

  lemma Before(s: System, e: Event, rest: seq<Event>)
    requires Possible(s, e) && PossibleRun(Apply(s, e), rest)
    ensures PossibleRun(s, [e] + rest) && ApplyAll(s, [e] + rest) == ApplyAll(Apply(s, e), rest)
  {
    assert ([e] + rest)[1..] == rest;
  }

  /** The other side: what was written without an error is served until it expires, and what was written
      with one never is. */
  lemma {:induction false} ServedUntilExpiry(
    entries: Entries, at: int, now: int, living: int, id: ArtifactID, stores: seq<Store>, x: Store,
      metas: seq<Metadata>)
    requires living > 0 && stores != [] && metas != [] && at <= now
    requires (forall y :: y in stores ==> y == x) && forall m :: m in metas ==> Supported(m)
    ensures var r := CacheRead(SetAll(entries, at, living, id, stores), now, id, metas, _ => true);
      if x.err.None? && now - at < living then r.Some? && forall y :: y in r.value ==> y == x else r.None?
  {
    SetAllSame(entries, at, living, id, stores, x);
    var written := SetAll(entries, at, living, id, stores);
    forall m | m in metas ensures Key(id, m) == Key(id, VULN_META) {
    }
    AllServed(written, now, id, x, metas, 0);
  }

  lemma {:induction false} AllServed(entries: Entries, now: int, id: ArtifactID, x: Store, metas: seq<Metadata>, k: nat)
    requires k <= |metas| && forall m :: m in metas ==> Supported(m) && Key(id, m) == Key(id, VULN_META)
    requires Key(id, VULN_META) in entries && entries[Key(id, VULN_META)].value == ToJSON(x)
    ensures var r := ReadStores(entries, now, id, metas, _ => true, k);
      if k == |metas| || (x.err.None? && now < entries[Key(id, VULN_META)].expires)
      then r.Some? && forall y :: y in r.value ==> y == x else r.None?
    decreases |metas| - k
  {
    if k < |metas| {
      assert metas[k] in metas;
      AllServed(entries, now, id, x, metas, k + 1);
      RoundTripIffNoError(x);
    }
  }
}
