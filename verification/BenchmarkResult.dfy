/** What the version searches find, for versions with a decimal minor number. */
module BenchmarkResult {
  import opened Wrappers
  import opened Sequences
  import opened Strings
  import opened BenchmarkVersion

  /** Nothing, or further parts behind the minor number. */
  predicate IsRest(rest: string) {
    rest == "" || rest[0] == '.'
  }

  /** The version `major.minor` with its further parts, if any. */
  function Version(major: string, minor: nat, rest: string): string {
    major + "." + Itoa(minor) + rest
  }

  function MoreParts(rest: string): seq<string> {
    if rest == "" then [] else Split(rest[1..], '.')
  }

  function Parts(major: string, minor: nat, rest: string): seq<string> {
    [major] + ([Itoa(minor)] + MoreParts(rest))
  }

  lemma PartsAt(major: string, minor: nat, rest: string, n: nat)
    ensures var parts := Parts(major, minor, rest);
      |parts| == 2 + |MoreParts(rest)| && parts[0] == major && parts[1] == Itoa(minor)
      && parts[1 := Itoa(n)] == Parts(major, n, rest)
  {
  }

  lemma SplitMinor(minor: nat, rest: string)
    requires IsRest(rest)
    ensures Split(Itoa(minor) + rest, '.') == [Itoa(minor)] + MoreParts(rest)
  {
    var s := Itoa(minor);
    if rest == "" {
      SplitPlain(s, '.');
      assert s + rest == s && [s] + [] == [s];
    } else {
      SplitHead(s, rest[1..], '.');
      Associate(s, ['.'], rest[1..]);
      assert rest == ['.'] + rest[1..];
    }
  }

  lemma SplitVersion(major: string, minor: nat, rest: string)
    requires '.' !in major && IsRest(rest)
    ensures Split(Version(major, minor, rest), '.') == Parts(major, minor, rest)
    ensures Join(Parts(major, minor, rest), ['.']) == Version(major, minor, rest)
  {
    SplitMinor(minor, rest);
    SplitHead(major, Itoa(minor) + rest, '.');
    Associate(major + ['.'], Itoa(minor), rest);
  }

  lemma VersionsDiffer(major1: string, minor1: nat, rest: string, major2: string, minor2: nat)
    requires '.' !in major1 && '.' !in major2 && IsRest(rest)
    ensures Version(major1, minor1, rest) == Version(major2, minor2, "") <==>
            major1 == major2 && minor1 == minor2 && rest == ""
  {
    SplitVersion(major1, minor1, rest);
    SplitVersion(major2, minor2, "");
    ItoaNotSigned(minor1);
    ItoaNotSigned(minor2);
    PartsAt(major1, minor1, rest, minor1);
    PartsAt(major2, minor2, "", minor2);
    assert rest != "" ==> |MoreParts(rest)| > 0;
  }

  lemma NotBlank(major: string, minor: nat, rest: string)
    ensures !IsEmpty(Version(major, minor, rest))
  {
    var s := Version(major, minor, rest);
    assert s[|major|] == '.' && s[|major|] in s;
  }

  lemma DecrementVersion(major: string, minor: nat, rest: string)
    requires '.' !in major && minor <= MAX_INT && IsRest(rest)
    ensures Decrement(Version(major, minor, rest)) == if minor > 1 then Version(major, minor - 1, rest) else ""
    ensures !IsEmpty(Version(major, minor, rest))
  {
    NotBlank(major, minor, rest);
    SplitVersion(major, minor, rest);
    AtoiItoa(minor);
    PartsAt(major, minor, rest, if minor > 1 then minor - 1 else 0);
    if minor > 1 {
      SplitVersion(major, minor - 1, rest);
    }
  }

  lemma DefaultVersion(major: string, minor: nat, rest: string)
    requires '.' !in major && IsRest(rest)
    ensures Version(major, minor, rest) == DEFAULT_KUBE_VERSION <==> major == "1" && minor == 18 && rest == ""
  {
    VersionsDiffer(major, minor, rest, "1", 18);
    assert Itoa(18) == Itoa(1) + "8" && Itoa(1) == "1";
    assert Version("1", 18, "") == "1.18";
  }

  /** The lowest minor number the search looks at below the one it starts from. */
  function Floor(major: string, minor: nat, rest: string): nat {
    if major == "1" && minor >= 18 && rest == "" then 18 else 1
  }

  /** `j` is the greatest mapped minor number within reach. */
  predicate IsBest(m: map<string, string>, major: string, minor: nat, rest: string, j: nat) {
    && (j == minor || Floor(major, minor, rest) <= j <= minor)
    && Version(major, j, rest) in m
    && forall i: nat :: j < i <= minor ==> Version(major, i, rest) !in m
  }

  /** One round of the search. */
  lemma SearchRound(m: map<string, string>, major: string, minor: nat, rest: string)
    requires '.' !in major && minor <= MAX_INT && IsRest(rest)
    ensures Search(m, Version(major, minor, rest)) ==
      if Version(major, minor, rest) in m then Some(m[Version(major, minor, rest)])
      else if major == "1" && minor == 18 && rest == "" then None
      else if minor > 1 then Search(m, Version(major, minor - 1, rest))
      else if "" in m then Some(m[""]) else None
  {
    DecrementVersion(major, minor, rest);
    DefaultVersion(major, minor, rest);
    assert IsEmpty("");
  }

  lemma {:induction false} SearchFinds(m: map<string, string>, major: string, minor: nat, rest: string, j: nat)
    requires '.' !in major && minor <= MAX_INT && IsRest(rest) && IsBest(m, major, minor, rest, j)
    ensures Search(m, Version(major, minor, rest)) == Some(m[Version(major, j, rest)])
    decreases minor
  {
    SearchRound(m, major, minor, rest);
    if j < minor {
      SearchFinds(m, major, minor - 1, rest, j);
    }
  }

  lemma {:induction false} SearchFails(m: map<string, string>, major: string, minor: nat, rest: string)
    requires '.' !in major && minor <= MAX_INT && IsRest(rest) && forall j :: !IsBest(m, major, minor, rest, j)
    ensures Search(m, Version(major, minor, rest)) ==
      if Floor(major, minor, rest) == 1 && "" in m then Some(m[""]) else None
    decreases minor
  {
    SearchRound(m, major, minor, rest);
    assert !IsBest(m, major, minor, rest, minor);
    if minor > 1 && !(major == "1" && minor == 18 && rest == "") {
      var fewer := minor - 1;
      forall j | IsBest(m, major, fewer, rest, j) ensures IsBest(m, major, minor, rest, j) {
      }
      SearchFails(m, major, minor - 1, rest);
    }
  }

  /** For every map and every version: the benchmark is that of the greatest minor number, from the given one
      down to 1, that is mapped with the same major number and the same further parts, but not below 18 for
      Kubernetes 1 from 18 on without further parts; without one, the search fails unless it ends at the
      empty version and that is mapped. */
  lemma SearchFindsGreatest(m: map<string, string>, major: string, minor: nat, rest: string)
    requires '.' !in major && minor <= MAX_INT && IsRest(rest)
    ensures forall j :: IsBest(m, major, minor, rest, j) ==>
      Search(m, Version(major, minor, rest)) == Some(m[Version(major, j, rest)])
    ensures (forall j :: !IsBest(m, major, minor, rest, j)) ==>
      Search(m, Version(major, minor, rest)) ==
      if Floor(major, minor, rest) == 1 && "" in m then Some(m[""]) else None
  {
    if j :| IsBest(m, major, minor, rest, j) {
      forall i | IsBest(m, major, minor, rest, i)
        ensures Search(m, Version(major, minor, rest)) == Some(m[Version(major, i, rest)])
      {
        SearchFinds(m, major, minor, rest, i);
      }
    } else {
      SearchFails(m, major, minor, rest);
    }
  }

  lemma OcpVersions(major: string, minor: nat, rest: string)
    requires '.' !in major && IsRest(rest)
    ensures Version(major, minor, rest) == "4.1" <==> major == "4" && minor == 1 && rest == ""
    ensures Version(major, minor, rest) == "3.10" <==> major == "3" && minor == 10 && rest == ""
  {
    VersionsDiffer(major, minor, rest, "4", 1);
    VersionsDiffer(major, minor, rest, "3", 10);
    assert Itoa(1) == "1" && Itoa(10) == Itoa(1) + "0";
    assert Version("4", 1, "") == "4.1" && Version("3", 10, "") == "3.10";
  }

  /** What the search should find. */
  function Accepted(major: string, minor: nat, rest: string): Option<string> {
    if rest != "" then None
    else if major == "4" && minor >= 1 then Some("4.1")
    else if major == "3" && minor >= 10 then Some("3.10")
    else None
  }

  lemma AcceptedBelow(major: string, minor: nat, rest: string)
    requires minor > 1 && !(rest == "" && major == "3" && minor == 10)
    ensures Accepted(major, minor - 1, rest) == Accepted(major, minor, rest)
  {
  }

  /** One round of the search. */
  lemma OcpRound(major: string, minor: nat, rest: string)
    requires '.' !in major && minor <= MAX_INT && IsRest(rest)
    ensures OcpSearch(Version(major, minor, rest)) ==
      if minor > 1 && !(rest == "" && major == "3" && minor == 10) then OcpSearch(Version(major, minor - 1, rest))
      else Accepted(major, minor, rest)
  {
    OcpVersions(major, minor, rest);
    DecrementVersion(major, minor, rest);
    assert IsEmpty("");
  }

  /** For every version: OpenShift 4 from 4.1 on is taken for 4.1, OpenShift 3 from 3.10 on for 3.10, and
      nothing else is accepted, above all no version with a patch level. */
  lemma {:induction false} OcpAccepts(major: string, minor: nat, rest: string)
    requires '.' !in major && minor <= MAX_INT && IsRest(rest)
    ensures OcpSearch(Version(major, minor, rest)) == Accepted(major, minor, rest)
    decreases minor
  {
    OcpRound(major, minor, rest);
    if minor > 1 && !(rest == "" && major == "3" && minor == 10) {
      OcpAccepts(major, minor - 1, rest);
      AcceptedBelow(major, minor, rest);
    }
  }

  /** A version without a dot, or whose second part is no number, is looked up as it is and then as "". */
  lemma OddVersions(m: map<string, string>, kv: string)
    requires !IsEmpty(kv) && kv != DEFAULT_KUBE_VERSION && kv !in m
    requires var split := Split(kv, '.'); |split| < 2 || Atoi(split[1]).None?
    ensures Search(m, kv) == if "" in m then Some(m[""]) else None
  {
    assert IsEmpty("");
  }
}
