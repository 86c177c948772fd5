/** Finding the benchmark for a Kubernetes or OpenShift version by counting its minor number down. */
module BenchmarkVersion {
  import opened Wrappers
  import opened Strings

  const DEFAULT_KUBE_VERSION := "1.18"
  const NO_KUBE_MATCH := "unable to find a matching Benchmark Version match for kubernetes version: "
  const NO_OCP_MATCH := "unable to find a matching Benchmark Version match for ocp version: "
  const MAX_INT := 0x7fff_ffff_ffff_ffff

  // ---- strconv ----

  predicate IsDigit(c: char) {
    '0' <= c <= '9'
  }

  function Digit(c: char): nat
    requires IsDigit(c)
  {
    c as int - '0' as int
  }

  function Digits(s: string): nat
    requires forall c :: c in s ==> IsDigit(c)
  {
    if s == "" then 0
    else
      assert s[|s| - 1] in s && IsDigit(s[|s| - 1]);
      Digits(s[..|s| - 1]) * 10 + Digit(s[|s| - 1])
  }

  /** strconv.Atoi: an optional sign, at least one decimal digit, the range of a 64-bit int. */
  function Atoi(s: string): Option<int> {
    var signed := s != "" && (s[0] == '+' || s[0] == '-');
    var digits := if signed then s[1..] else s;
    if digits == "" || exists i :: 0 <= i < |digits| && !IsDigit(digits[i]) then None
    else
      var n: int := Digits(digits);
      var v: int := if signed && s[0] == '-' then -n else n;
      if -MAX_INT - 1 <= v <= MAX_INT then Some(v) else None
  }

  /** strconv.Itoa for the non-negative numbers that occur. */
  function Itoa(n: nat): (s: string)
    ensures s != "" && forall c :: c in s ==> IsDigit(c)
  {
    if n < 10 then [('0' as int + n) as char] else Itoa(n / 10) + [('0' as int + n % 10) as char]
  }

  /** isEmpty: nothing but white space. */
  predicate IsEmpty(s: string) {
    forall c :: c in s ==> IsSpace(c)
  }

  // ---- Counting down ----

  /** decrementVersion: the second dot-separated part lowered by one, or the empty string. */
  function Decrement(version: string): string {
    var split := Split(version, '.');
    if |split| < 2 then ""
    else
      match Atoi(split[1])
      case None => ""
      case Some(minor) => if minor <= 1 then "" else Join(split[1 := Itoa(minor - 1)], ".")
  }

  /** How often a version can still be lowered. */
  function Countdown(version: string): nat {
    var split := Split(version, '.');
    if |split| < 2 then if version == "" then 0 else 1
    else
      match Atoi(split[1])
      case None => 1
      case Some(minor) => if minor <= 1 then 1 else minor
  }

  /** The first version on the way down that the map knows. The search stops, before looking further,
      at the default version and at a blank one. */
  function Search(m: map<string, string>, kv: string): Option<string>
    decreases Countdown(kv)
  {
    if kv in m then Some(m[kv])
    else if kv == DEFAULT_KUBE_VERSION || IsEmpty(kv) then None
    else
      CountsDown(kv);
      Search(m, Decrement(kv))
  }

  method MapToBenchmarkVersion(kubeToBenchmarkMap: map<string, string>, kubeVersion: string)
    returns (r: Result<string>)
    ensures r == match Search(kubeToBenchmarkMap, kubeVersion)
                 case Some(v) => Ok(v)
                 case None => Err(NO_KUBE_MATCH + kubeVersion)
  {
    var kv := kubeVersion;
    var found := kv in kubeToBenchmarkMap;
    while !found && kv != DEFAULT_KUBE_VERSION && !IsEmpty(kv)
      invariant found <==> kv in kubeToBenchmarkMap
      invariant Search(kubeToBenchmarkMap, kv) == Search(kubeToBenchmarkMap, kubeVersion)
      decreases Countdown(kv)
    {
      CountsDown(kv);
      kv := Decrement(kv);
      found := kv in kubeToBenchmarkMap;
    }
    if !found {
      return Err(NO_KUBE_MATCH + kubeVersion);
    }
    r := Ok(kubeToBenchmarkMap[kv]);
  }

  function OcpSearch(v: string): Option<string>
    decreases Countdown(v)
  {
    if IsEmpty(v) then None
    else if v == "3.10" || v == "4.1" then Some(v)
    else
      CountsDown(v);
      OcpSearch(Decrement(v))
  }

  method GetOcpValidVersion(version: string) returns (r: Result<string>)
    ensures r == match OcpSearch(version)
                 case Some(v) => Ok(v)
                 case None => Err(NO_OCP_MATCH + version)
  {
    var ocpVer := version;
    while !IsEmpty(ocpVer)
      invariant OcpSearch(ocpVer) == OcpSearch(version)
      decreases Countdown(ocpVer)
    {
      if ocpVer == "3.10" || ocpVer == "4.1" {
        return Ok(ocpVer);
      }
      CountsDown(ocpVer);
      ocpVer := Decrement(ocpVer);
    }
    r := Err(NO_OCP_MATCH + version);
  }

  // ---- Termination ----

  lemma {:induction false} ItoaNotSigned(n: nat)
    ensures Digits(Itoa(n)) == n
  {
    var s := Itoa(n);
    if n < 10 {
      assert s[..|s| - 1] == "";
    } else {
      ItoaNotSigned(n / 10);
      assert s[..|s| - 1] == Itoa(n / 10);
    }
  }

  /** Printing and parsing a number that fits an int. */
  lemma AtoiItoa(n: nat)
    requires n <= MAX_INT
    ensures Atoi(Itoa(n)) == Some(n)
  {
    ItoaNotSigned(n);
    var s := Itoa(n);
    assert s[0] in s;
  }

  lemma DecrementSplit(version: string)
    requires var split := Split(version, '.'); |split| >= 2 && Atoi(split[1]).Some? && Atoi(split[1]).value > 1
    ensures var split := Split(version, '.');
      Split(Decrement(version), '.') == split[1 := Itoa(Atoi(split[1]).value - 1)]
  {
    var split := Split(version, '.');
    var parts := split[1 := Itoa(Atoi(split[1]).value - 1)];
    forall p | p in parts ensures '.' !in p {
      assert p in split || p == parts[1];
    }
    SplitJoin(parts, '.');
  }

  /** Each step lowers the parsed minor number, whatever the version looks like. */
  lemma CountsDown(version: string)
    requires version != ""
    ensures Countdown(Decrement(version)) < Countdown(version)
  {
    var split := Split(version, '.');
    if |split| >= 2 && Atoi(split[1]).Some? && Atoi(split[1]).value > 1 {
      var minor := Atoi(split[1]).value;
      DecrementSplit(version);
      AtoiItoa(minor - 1);
    }
  }
}
