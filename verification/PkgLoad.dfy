/** Which vulnerabilities of an image are loaded: the join of its vulnerability report, the files of its
    installed packages and the files that the processes of its container have open. */
module PkgLoad {
  import opened Wrappers
  import opened Sequences

  datatype Vulnerability = Vulnerability(id: string, package: string, version: string, severity: string)

  datatype Package = Package(name: string, installedFiles: seq<string>)

  /** One process as lsof lists it. */
  datatype Record = Record(pid: string, user: string, containerID: string, names: seq<string>)

  datatype Detail = Detail(pkgName: string, version: string, cve: string, severity: string, files: set<string>)

  /** The running container a report line is about. */
  datatype Site = Site(podName: string, namespace: string, nodeName: string, imageName: string)

  datatype Loaded = Loaded(
    cve: string, severity: string, pkgName: string, version: string,
    pid: string, user: string, containerID: string, site: Site)

  /** getCVE2VulnPairKey */
  function PairKey(cve: string, pkgName: string): string {
    cve + "-" + pkgName
  }

  /** getPkgFromScanReport: the first package of that name. */
  function FirstPackage(pkgs: seq<Package>, name: string): (r: Option<Package>)
    ensures r.Some? ==> r.value.name == name && r.value in pkgs
    ensures r.None? <==> forall i :: 0 <= i < |pkgs| ==> pkgs[i].name != name
  {
    if pkgs == [] then None
    else if pkgs[0].name == name then Some(pkgs[0])
    else FirstPackage(pkgs[1..], name)
  }

  function Files(pkg: Package): set<string> {
    set f | f in pkg.installedFiles
  }

  function DetailOf(v: Vulnerability, pkg: Package): Detail {
    Detail(v.package, v.version, v.id, v.severity, Files(pkg))
  }

  type Details = map<string, Detail>

  /** mVulnPkg2Detail: a later vulnerability replaces an earlier one of the same key. */
  function DetailsOf(vulns: seq<Vulnerability>, pkgs: seq<Package>): Details {
    if vulns == [] then map[]
    else
      var v, before := vulns[|vulns| - 1], DetailsOf(vulns[..|vulns| - 1], pkgs);
      var pkg := FirstPackage(pkgs, v.package);
      if pkg.None? then before else before[PairKey(v.id, pkg.value.name) := DetailOf(v, pkg.value)]
  }

  method CollectDetails(vulns: seq<Vulnerability>, pkgs: seq<Package>) returns (details: Details)
    ensures details == DetailsOf(vulns, pkgs)
  {
    details := map[];
    for k := 0 to |vulns|
      invariant details == DetailsOf(vulns[..k], pkgs)
    {
      assert vulns[..k + 1][..k] == vulns[..k];
      var pkg := FirstPackage(pkgs, vulns[k].package);
      if pkg.None? {
        continue;
      }
      var files := {};
      for j := 0 to |pkg.value.installedFiles|
        invariant files == set f | f in pkg.value.installedFiles[..j]
      {
        files := files + {pkg.value.installedFiles[j]};
        assert pkg.value.installedFiles[..j + 1] == pkg.value.installedFiles[..j] + [pkg.value.installedFiles[j]];
      }
      assert pkg.value.installedFiles[..|pkg.value.installedFiles|] == pkg.value.installedFiles;
      details := details[PairKey(vulns[k].id, pkg.value.name) :=
        Detail(vulns[k].package, vulns[k].version, vulns[k].id, vulns[k].severity, files)];
    }
    assert vulns[..|vulns|] == vulns;
  }

  // ---- The join ----

  function Line(d: Detail, r: Record, site: Site): Loaded {
    Loaded(d.cve, d.severity, d.pkgName, d.version, r.pid, r.user, r.containerID, site)
  }

  predicate Touches(names: seq<string>, d: Detail) {
    exists i :: 0 <= i < |names| && names[i] in d.files
  }

  /** Every detail is indexed under its own pair. */
  predicate Keyed(details: Details) {
    forall k :: k in details ==> k == PairKey(details[k].cve, details[k].pkgName)
  }

  /** The lines of one process: one for each detail it touches, in some order. */
  ghost predicate Reports(
    details: Details, r: Record, names: seq<string>, site: Site, keys: seq<string>, lines: seq<Loaded>)
  {
    && Distinct(keys) && (forall k :: k in keys <==> k in details && Touches(names, details[k]))
    && |lines| == |keys|
    && forall i :: 0 <= i < |keys| ==> keys[i] in details && lines[i] == Line(details[keys[i]], r, site)
  }

  lemma {:induction false} DetailsKeyed(vulns: seq<Vulnerability>, pkgs: seq<Package>)
    ensures Keyed(DetailsOf(vulns, pkgs))
  {
    if vulns != [] {
      DetailsKeyed(vulns[..|vulns| - 1], pkgs);
    }
  }

  /** The lines of one process. The details are visited in the order of a map iteration, which may differ
      from file to file. */
  method JoinRecord(details: Details, r: Record, site: Site) returns (lines: seq<Loaded>, ghost keys: seq<string>)
    requires Keyed(details)
    ensures Reports(details, r, r.names, site, keys, lines)
    ensures exists ks :: Reports(details, r, r.names, site, ks, lines)
  {
    lines, keys := [], [];
    var encountered: set<string> := {};
    for n := 0 to |r.names|
      invariant Reports(details, r, r.names[..n], site, keys, lines)
      invariant forall k :: k in encountered <==> k in keys
    {
      var todo := details.Keys;
      while todo != {}
        invariant todo <= details.Keys
        invariant Distinct(keys) && |lines| == |keys|
        invariant forall i :: 0 <= i < |keys| ==> keys[i] in details && lines[i] == Line(details[keys[i]], r, site)
        invariant forall k :: k in keys <==>
          k in details && (Touches(r.names[..n], details[k]) || (k !in todo && r.names[n] in details[k].files))
        invariant forall k :: k in encountered <==> k in keys
      {
        var key :| key in todo;
        todo := todo - {key};
        var d := details[key];
        if r.names[n] in d.files {
          if PairKey(d.cve, d.pkgName) in encountered {
            continue;
          }
          encountered := encountered + {PairKey(d.cve, d.pkgName)};
          lines := lines + [Line(d, r, site)];
          keys := keys + [key];
        }
      }
      TouchesMore(r.names, n, details);
    }
    assert r.names[..|r.names|] == r.names;
  }

  lemma TouchesMore(names: seq<string>, n: nat, details: Details)
    requires n < |names|
    ensures forall k :: k in details ==>
      (Touches(names[..n + 1], details[k]) <==> Touches(names[..n], details[k]) || names[n] in details[k].files)
  {
    forall k | k in details
      ensures Touches(names[..n + 1], details[k]) <==> Touches(names[..n], details[k]) || names[n] in details[k].files
    {
      if names[n] in details[k].files {
        assert names[..n + 1][n] in details[k].files;
      }
      if Touches(names[..n], details[k]) {
        var i :| 0 <= i < |names[..n]| && names[..n][i] in details[k].files;
        assert names[..n + 1][i] in details[k].files;
      }
    }
  }

  function Concat(parts: seq<seq<Loaded>>): seq<Loaded> {
    if parts == [] then [] else Concat(parts[..|parts| - 1]) + parts[|parts| - 1]
  }

  /** All processes of one container, in order. */
  method JoinContainer(details: Details, records: seq<Record>, site: Site)
    returns (vulnLoaded: seq<Loaded>, ghost parts: seq<seq<Loaded>>, ghost keys: seq<seq<string>>)
    requires Keyed(details)
    ensures vulnLoaded == Concat(parts) && |parts| == |keys| == |records|
    ensures forall i :: 0 <= i < |records| ==> Reports(details, records[i], records[i].names, site, keys[i], parts[i])
  {
    vulnLoaded, parts, keys := [], [], [];
    for k := 0 to |records|
      invariant vulnLoaded == Concat(parts) && |parts| == |keys| == k
      invariant forall i :: 0 <= i < k ==> Reports(details, records[i], records[i].names, site, keys[i], parts[i])
    {
      ghost var ks;
      var lines;
      lines, ks := JoinRecord(details, records[k], site);
      vulnLoaded := vulnLoaded + lines;
      parts, keys := parts + [lines], keys + [ks];
      assert parts[..k] == parts[..|parts| - 1];
    }
  }

  // ---- Records by container ----

  function Of(records: seq<Record>, id: string): seq<Record> {
    if records == [] then []
    else Of(records[..|records| - 1], id)
         + (if records[|records| - 1].containerID == id then [records[|records| - 1]] else [])
  }

  /** mContainerID2LsofFiles */
  method ByContainer(records: seq<Record>) returns (m: map<string, seq<Record>>)
    ensures forall id :: (id in m <==> Of(records, id) != []) && (id in m ==> m[id] == Of(records, id))
  {
    m := map[];
    for k := 0 to |records|
      invariant forall id :: (id in m <==> Of(records[..k], id) != []) && (id in m ==> m[id] == Of(records[..k], id))
    {
      assert records[..k + 1][..k] == records[..k];
      var r := records[k];
      m := m[r.containerID := (if r.containerID in m then m[r.containerID] else []) + [r]];
    }
    assert records[..|records|] == records;
  }
}
