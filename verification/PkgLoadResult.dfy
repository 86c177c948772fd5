/** What the report of a process says about each pair of vulnerability and package. */
module PkgLoadResult {
  import opened Wrappers
  import opened Sequences
  import opened PkgLoad

  // ---- What should be reported ----

  /** Package `i` is the first scanned one of that name. */
  predicate FirstNamed(pkgs: seq<Package>, name: string, i: nat) {
    i < |pkgs| && pkgs[i].name == name && forall j :: 0 <= j < i ==> pkgs[j].name != name
  }

  predicate OpensFile(names: seq<string>, files: seq<string>) {
    exists i :: 0 <= i < |names| && names[i] in files
  }

  /** The process has open a file of the first scanned package of that name. */
  predicate Opens(names: seq<string>, pkgs: seq<Package>, package: string) {
    exists i: nat :: i < |pkgs| && FirstNamed(pkgs, package, i) && OpensFile(names, pkgs[i].installedFiles)
  }

  lemma {:induction false} FirstIs(pkgs: seq<Package>, name: string, i: nat)
    requires FirstNamed(pkgs, name, i)
    ensures FirstPackage(pkgs, name) == Some(pkgs[i])
  {
    if i > 0 {
      assert forall j :: 0 <= j < i ==> pkgs[1..][j] == pkgs[j + 1];
      FirstIs(pkgs[1..], name, i - 1);
    }
  }

  lemma FirstLater(pkgs: seq<Package>, name: string, i: nat)
    requires pkgs != [] && pkgs[0].name != name && FirstNamed(pkgs[1..], name, i)
    ensures FirstNamed(pkgs, name, i + 1)
  {
    forall j | 0 <= j < i + 1 ensures pkgs[j].name != name {
      assert j > 0 ==> pkgs[j] == pkgs[1..][j - 1];
    }
  }

  lemma {:induction false} HasFirst(pkgs: seq<Package>, name: string) returns (i: nat)
    requires FirstPackage(pkgs, name).Some?
    ensures FirstNamed(pkgs, name, i)
  {
    i := 0;
    if pkgs[0].name != name {
      var k := HasFirst(pkgs[1..], name);
      FirstLater(pkgs, name, k);
      i := k + 1;
    }
  }

  lemma OpensIff(names: seq<string>, pkgs: seq<Package>, package: string)
    ensures Opens(names, pkgs, package) <==>
      FirstPackage(pkgs, package).Some? && OpensFile(names, FirstPackage(pkgs, package).value.installedFiles)
  {
    if FirstPackage(pkgs, package).Some? {
      var i := HasFirst(pkgs, package);
      FirstIs(pkgs, package, i);
    }
    if Opens(names, pkgs, package) {
      var i: nat :| i < |pkgs| && FirstNamed(pkgs, package, i) && OpensFile(names, pkgs[i].installedFiles);
      FirstIs(pkgs, package, i);
    }
  }

  predicate Vulnerable(vulns: seq<Vulnerability>, cve: string, package: string) {
    exists i :: 0 <= i < |vulns| && vulns[i].id == cve && vulns[i].package == package
  }

  predicate IsLoaded(vulns: seq<Vulnerability>, pkgs: seq<Package>, names: seq<string>, cve: string, package: string) {
    Vulnerable(vulns, cve, package) && Opens(names, pkgs, package)
  }

  function Mentions(lines: seq<Loaded>, cve: string, package: string): nat {
    if lines == [] then 0
    else
      var last := lines[|lines| - 1];
      Mentions(lines[..|lines| - 1], cve, package) + if last.cve == cve && last.pkgName == package then 1 else 0
  }

  /** Each loaded pair is reported once, and no other pair. */
  ghost predicate Exact(lines: seq<Loaded>, vulns: seq<Vulnerability>, pkgs: seq<Package>, names: seq<string>) {
    forall cve, package :: Mentions(lines, cve, package) == if IsLoaded(vulns, pkgs, names, cve, package) then 1 else 0
  }

  /** The last vulnerability of a key whose package has been scanned. */
  function Winner(vulns: seq<Vulnerability>, pkgs: seq<Package>, key: string): (v: Option<Vulnerability>)
    ensures v.Some? ==> PairKey(v.value.id, v.value.package) == key && FirstPackage(pkgs, v.value.package).Some?
    ensures v.Some? ==> Vulnerable(vulns, v.value.id, v.value.package)
  {
    if vulns == [] then None
    else
      var last := vulns[|vulns| - 1];
      if PairKey(last.id, last.package) == key && FirstPackage(pkgs, last.package).Some? then Some(last)
      else
        var w := Winner(vulns[..|vulns| - 1], pkgs, key);
        assert w.Some? && Vulnerable(vulns[..|vulns| - 1], w.value.id, w.value.package)
          ==> Vulnerable(vulns, w.value.id, w.value.package) by {
          if w.Some? && Vulnerable(vulns[..|vulns| - 1], w.value.id, w.value.package) {
            var i :| 0 <= i < |vulns| - 1 && vulns[..|vulns| - 1][i].id == w.value.id
                     && vulns[..|vulns| - 1][i].package == w.value.package;
            assert vulns[i].id == w.value.id && vulns[i].package == w.value.package;
          }
        }
        w
  }

  lemma {:induction false} DetailsAreWinners(vulns: seq<Vulnerability>, pkgs: seq<Package>, key: string)
    ensures var details, w := DetailsOf(vulns, pkgs), Winner(vulns, pkgs, key);
      && (key in details <==> w.Some?)
      && (w.Some? ==> details[key] == DetailOf(w.value, FirstPackage(pkgs, w.value.package).value))
  {
    if vulns != [] {
      DetailsAreWinners(vulns[..|vulns| - 1], pkgs, key);
    }
  }

  /** A vulnerable pair with a scanned package has a winner, itself or one that shares its key. */
  lemma {:induction false} HasWinner(vulns: seq<Vulnerability>, pkgs: seq<Package>, cve: string, package: string)
    requires Vulnerable(vulns, cve, package) && FirstPackage(pkgs, package).Some?
    ensures Winner(vulns, pkgs, PairKey(cve, package)).Some?
  {
    var n := |vulns| - 1;
    if !(vulns[n].id == cve && vulns[n].package == package) {
      var i :| 0 <= i < |vulns| && vulns[i].id == cve && vulns[i].package == package;
      assert vulns[..n][i].id == cve;
      HasWinner(vulns[..n], pkgs, cve, package);
    }
  }

  // ---- Counting lines ----

  lemma {:induction false} MentionsAtMost(details: Details, r: Record, site: Site,
                                          keys: seq<string>, lines: seq<Loaded>, cve: string, package: string)
    requires Keyed(details) && Distinct(keys) && |lines| == |keys|
    requires forall i :: 0 <= i < |keys| ==> keys[i] in details && lines[i] == Line(details[keys[i]], r, site)
    ensures Mentions(lines, cve, package) ==
      if PairKey(cve, package) in keys && details[PairKey(cve, package)].cve == cve
         && details[PairKey(cve, package)].pkgName == package then 1 else 0
    decreases |keys|
  {
    if keys != [] {
      var n := |keys| - 1;
      var key := PairKey(cve, package);
      MentionsAtMost(details, r, site, keys[..n], lines[..n], cve, package);
      assert keys == keys[..n] + [keys[n]];
      assert key in keys[..n] ==> key != keys[n];
      assert keys[n] in details;
    }
  }

  lemma TouchesIffOpens(names: seq<string>, pkgs: seq<Package>, v: Vulnerability)
    requires FirstPackage(pkgs, v.package).Some?
    ensures Touches(names, DetailOf(v, FirstPackage(pkgs, v.package).value)) <==> Opens(names, pkgs, v.package)
  {
    OpensIff(names, pkgs, v.package);
  }

  /** How often a pair is reported: once if it wins its key and its package is open, else not at all. */
  lemma MentionsIff(vulns: seq<Vulnerability>, pkgs: seq<Package>, r: Record, site: Site,
                    keys: seq<string>, lines: seq<Loaded>, cve: string, package: string)
    requires Reports(DetailsOf(vulns, pkgs), r, r.names, site, keys, lines)
    ensures var w := Winner(vulns, pkgs, PairKey(cve, package));
      Mentions(lines, cve, package) ==
      if w.Some? && w.value.id == cve && w.value.package == package && Opens(r.names, pkgs, package) then 1 else 0
  {
    var details, key := DetailsOf(vulns, pkgs), PairKey(cve, package);
    DetailsKeyed(vulns, pkgs);
    DetailsAreWinners(vulns, pkgs, key);
    MentionsAtMost(details, r, site, keys, lines, cve, package);
    var w := Winner(vulns, pkgs, key);
    if w.Some? {
      TouchesIffOpens(r.names, pkgs, w.value);
    }
  }

  // ---- Results ----

  /** Entry `j` is the last one listed with this key whose package has been scanned. */
  predicate LastListed(vulns: seq<Vulnerability>, pkgs: seq<Package>, key: string, j: nat) {
    && j < |vulns| && PairKey(vulns[j].id, vulns[j].package) == key && FirstPackage(pkgs, vulns[j].package).Some?
    && forall l :: j < l < |vulns| && FirstPackage(pkgs, vulns[l].package).Some? ==>
         PairKey(vulns[l].id, vulns[l].package) != key
  }

  lemma {:induction false} WinnerIsLast(vulns: seq<Vulnerability>, pkgs: seq<Package>, key: string) returns (j: nat)
    requires Winner(vulns, pkgs, key).Some?
    ensures LastListed(vulns, pkgs, key, j) && Winner(vulns, pkgs, key) == Some(vulns[j])
  {
    var n := |vulns| - 1;
    if PairKey(vulns[n].id, vulns[n].package) == key && FirstPackage(pkgs, vulns[n].package).Some? {
      j := n;
    } else {
      j := WinnerIsLast(vulns[..n], pkgs, key);
      assert forall l :: 0 <= l < n ==> vulns[..n][l] == vulns[l];
    }
  }

  lemma {:induction false} LastWins(vulns: seq<Vulnerability>, pkgs: seq<Package>, key: string, j: nat)
    requires LastListed(vulns, pkgs, key, j)
    ensures Winner(vulns, pkgs, key) == Some(vulns[j])
  {
    var n := |vulns| - 1;
    if j < n {
      assert forall l :: 0 <= l < n ==> vulns[..n][l] == vulns[l];
      LastWins(vulns[..n], pkgs, key, j);
    }
  }

  /** For every loaded pair of the listing, the last entry with its key is of that pair. */
  ghost predicate KeysKept(vulns: seq<Vulnerability>, pkgs: seq<Package>, names: seq<string>) {
    forall i: nat, j: nat ::
      (i < |vulns| && Opens(names, pkgs, vulns[i].package)
       && LastListed(vulns, pkgs, PairKey(vulns[i].id, vulns[i].package), j)) ==>
      vulns[j].id == vulns[i].id && vulns[j].package == vulns[i].package
  }

  /** Whatever the order of the map iterations, the report of a process is exact if and only if the last
      listed entry of each loaded pair's key is of that pair. */
  lemma ExactIffKeysKept(vulns: seq<Vulnerability>, pkgs: seq<Package>, r: Record, site: Site,
                         keys: seq<string>, lines: seq<Loaded>)
    requires Reports(DetailsOf(vulns, pkgs), r, r.names, site, keys, lines)
    ensures Exact(lines, vulns, pkgs, r.names) <==> KeysKept(vulns, pkgs, r.names)
  {
    if KeysKept(vulns, pkgs, r.names) {
      forall cve, package
        ensures Mentions(lines, cve, package) == if IsLoaded(vulns, pkgs, r.names, cve, package) then 1 else 0
      {
        MentionsIff(vulns, pkgs, r, site, keys, lines, cve, package);
        if IsLoaded(vulns, pkgs, r.names, cve, package) {
          var i :| 0 <= i < |vulns| && vulns[i].id == cve && vulns[i].package == package;
          OpensIff(r.names, pkgs, package);
          HasWinner(vulns, pkgs, cve, package);
          var j := WinnerIsLast(vulns, pkgs, PairKey(cve, package));
        }
      }
    }
    if Exact(lines, vulns, pkgs, r.names) {
      forall i: nat, j: nat | i < |vulns| && Opens(r.names, pkgs, vulns[i].package)
                    && LastListed(vulns, pkgs, PairKey(vulns[i].id, vulns[i].package), j)
        ensures vulns[j].id == vulns[i].id && vulns[j].package == vulns[i].package
      {
        LastWins(vulns, pkgs, PairKey(vulns[i].id, vulns[i].package), j);
        MentionsIff(vulns, pkgs, r, site, keys, lines, vulns[i].id, vulns[i].package);
        assert Mentions(lines, vulns[i].id, vulns[i].package) == 1;
      }
    }
  }

  /** Different pairs of scanned packages have different keys. */
  ghost predicate Injective(vulns: seq<Vulnerability>, pkgs: seq<Package>) {
    forall i, j :: 0 <= i < |vulns| && 0 <= j < |vulns|
      && FirstPackage(pkgs, vulns[i].package).Some? && FirstPackage(pkgs, vulns[j].package).Some?
      && PairKey(vulns[i].id, vulns[i].package) == PairKey(vulns[j].id, vulns[j].package)
      ==> vulns[i].id == vulns[j].id && vulns[i].package == vulns[j].package
  }

  lemma InjectiveSuffices(vulns: seq<Vulnerability>, pkgs: seq<Package>, names: seq<string>)
    requires Injective(vulns, pkgs)
    ensures KeysKept(vulns, pkgs, names)
  {
  }

  /** Two loaded pairs of one key, of which the report of the process that loads both drops the first. */
  lemma CollisionDrops(r: Record, site: Site, keys: seq<string>, lines: seq<Loaded>)
    requires r.names == ["/lib/x.so"]
    requires var vulns := [Vulnerability("A", "b-c", "1", "High"), Vulnerability("A-b", "c", "1", "High")];
      var pkgs := [Package("b-c", ["/lib/x.so"]), Package("c", ["/lib/x.so"])];
      Reports(DetailsOf(vulns, pkgs), r, r.names, site, keys, lines)
    ensures Mentions(lines, "A", "b-c") == 0 && Mentions(lines, "A-b", "c") == 1
  {
    var vulns := [Vulnerability("A", "b-c", "1", "High"), Vulnerability("A-b", "c", "1", "High")];
    var pkgs := [Package("b-c", ["/lib/x.so"]), Package("c", ["/lib/x.so"])];
    assert PairKey("A", "b-c") == PairKey("A-b", "c");
    MentionsIff(vulns, pkgs, r, site, keys, lines, "A", "b-c");
    MentionsIff(vulns, pkgs, r, site, keys, lines, "A-b", "c");
    assert FirstNamed(pkgs, "b-c", 0) && FirstNamed(pkgs, "c", 1);
    assert r.names[0] in pkgs[1].installedFiles;
    assert Opens(r.names, pkgs, "c");
  }

  /** Where the report lists a pair, it gives the version and the severity of the last vulnerability listed
      for it, and the process that has the file open. */
  lemma LinesTellTheTruth(vulns: seq<Vulnerability>, pkgs: seq<Package>, r: Record, site: Site,
                          keys: seq<string>, lines: seq<Loaded>, k: nat, n: nat)
    requires Reports(DetailsOf(vulns, pkgs), r, r.names, site, keys, lines)
    requires k < |vulns| && n < |lines| && lines[n].cve == vulns[k].id && lines[n].pkgName == vulns[k].package
    requires LastListed(vulns, pkgs, PairKey(vulns[k].id, vulns[k].package), k)
    ensures lines[n] == Loaded(vulns[k].id, vulns[k].severity, vulns[k].package, vulns[k].version,
                               r.pid, r.user, r.containerID, site)
    ensures Opens(r.names, pkgs, vulns[k].package)
  {
    DetailsKeyed(vulns, pkgs);
    DetailsAreWinners(vulns, pkgs, keys[n]);
    assert keys[n] in keys;
    TouchesIffOpens(r.names, pkgs, Winner(vulns, pkgs, keys[n]).value);
    LastWins(vulns, pkgs, keys[n], k);
  }

  // ---- Several processes and containers ----

  /** The lines of the processes follow each other in the order of the processes. */
  lemma {:induction false} ConcatKeepsOrder(a: seq<seq<Loaded>>, b: seq<seq<Loaded>>)
    ensures Concat(a + b) == Concat(a) + Concat(b)
    ensures |b| == 1 ==> Concat(b) == b[0]
  {
    if b == [] {
      assert a + b == a && Concat(a) + [] == Concat(a);
    } else {
      var n := |b| - 1;
      ConcatKeepsOrder(a, b[..n]);
      assert (a + b)[..|a| + n] == a + b[..n];
      assert n == 0 ==> Concat(b[..n]) == [] && [] + b[n] == b[n];
      Associate(Concat(a), Concat(b[..n]), b[n]);
    }
  }

  /** The records of a container are those of `records` with its id, in the same order. */
  lemma {:induction false} OfKeepsOrder(a: seq<Record>, b: seq<Record>, id: string)
    ensures Of(a + b, id) == Of(a, id) + Of(b, id)
    ensures |b| == 1 ==> Of(b, id) == if b[0].containerID == id then b else []
  {
    if b == [] {
      assert a + b == a && Of(a, id) + [] == Of(a, id);
    } else {
      var n := |b| - 1;
      OfKeepsOrder(a, b[..n], id);
      assert (a + b)[..|a| + n] == a + b[..n];
      var last := if b[n].containerID == id then [b[n]] else [];
      assert n == 0 ==> b[..n] == [] && [] + last == last && b == [b[n]];
      Associate(Of(a, id), Of(b[..n], id), last);
    }
  }
}
