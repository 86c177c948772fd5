/** Bringing Harbor's registries in line with the known registries of the settings: list page by page,
    split into what must be created and what must be updated, then one call for each. */
module Registries {
  import opened Wrappers

  const PAGE_SIZE := 100

  datatype Credential = Credential(accessKey: string, accessSecret: string)

  datatype Registry = Registry(
    id: int, name: string, url: string, kind: string, insecure: bool, credential: Option<Credential>)

  datatype KnownRegistry = KnownRegistry(
    name: string, endpoint: string, provider: string, skipTLSVerify: bool, credentialRef: Option<string>)

  // ---- Harbor ----

  datatype Server = Server(list: seq<Registry>, next: int)

  /** Names and ids are unique, and new ids are new. */
  ghost predicate Valid(s: Server) {
    && (forall i, j :: 0 <= i < j < |s.list| ==> s.list[i].name != s.list[j].name)
    && (forall i, j :: 0 <= i < j < |s.list| ==> s.list[i].id != s.list[j].id)
    && (forall i :: 0 <= i < |s.list| ==> s.list[i].id < s.next)
  }

  function Page(s: Server, page: int): seq<Registry>
    requires page >= 1
  {
    var from := (page - 1) * PAGE_SIZE;
    if from >= |s.list| then [] else s.list[from..if from + PAGE_SIZE < |s.list| then from + PAGE_SIZE else |s.list|]
  }

  datatype Op = Create(registry: Registry) | Update(registry: Registry)

  predicate Named(list: seq<Registry>, name: string) {
    exists i :: 0 <= i < |list| && list[i].name == name
  }

  predicate WithId(list: seq<Registry>, id: int) {
    exists i :: 0 <= i < |list| && list[i].id == id
  }

  /** An update sets the name, the URL and the TLS flag, the credential when there is one, never the kind. */
  function Patched(r: Registry, u: Registry): Registry {
    r.(name := u.name, url := u.url, insecure := u.insecure,
       credential := if u.credential.Some? then u.credential else r.credential)
  }

  /** Harbor refuses a second registry of the same name and an update of none. */
  predicate Accepts(s: Server, op: Op) {
    match op
    case Create(r) => !Named(s.list, r.name)
    case Update(u) => WithId(s.list, u.id)
  }

  function Do(s: Server, op: Op): Server {
    if !Accepts(s, op) then s
    else
      match op
      case Create(r) => Server(s.list + [r.(id := s.next)], s.next + 1)
      case Update(u) =>
        s.(list := seq(|s.list|, i requires 0 <= i < |s.list| =>
                         if s.list[i].id == u.id then Patched(s.list[i], u) else s.list[i]))
  }

  // ---- The adapter's plan ----

  /** The last listed registry of a name. */
  function Find(list: seq<Registry>, name: string): (r: Option<Registry>)
    ensures r.Some? <==> Named(list, name)
    ensures r.Some? ==> r.value in list && r.value.name == name
  {
    if list == [] then None
    else if list[|list| - 1].name == name then Some(list[|list| - 1])
    else
      var r := Find(list[..|list| - 1], name);
      assert Named(list[..|list| - 1], name) <==> Named(list, name);
      r
  }

  /** What is wanted of a registry, before the id is known. */
  function Wanted(k: KnownRegistry, credential: Option<Credential>): Registry {
    Registry(0, k.name, k.endpoint, k.provider, k.skipTLSVerify, credential)
  }

  function Creates(list: seq<Registry>, wanted: seq<Registry>): (ops: seq<Op>)
    ensures forall op :: op in ops ==> op.Create?
    decreases |wanted|
  {
    if wanted == [] then []
    else if Named(list, wanted[0].name) then Creates(list, wanted[1..])
    else [Create(wanted[0])] + Creates(list, wanted[1..])
  }

  /** The update of a registry that is listed, under the id it is listed with. */
  function IdUpdate(list: seq<Registry>, reg: Registry): seq<Op> {
    var found := Find(list, reg.name);
    if found.None? then [] else [Update(reg.(id := found.value.id))]
  }

  function Updates(list: seq<Registry>, wanted: seq<Registry>): (ops: seq<Op>)
    ensures forall op :: op in ops ==> op.Update?
    decreases |wanted|
  {
    if wanted == [] then [] else IdUpdate(list, wanted[0]) + Updates(list, wanted[1..])
  }

  function Plan(list: seq<Registry>, wanted: seq<Registry>): seq<Op> {
    Creates(list, wanted) + Updates(list, wanted)
  }

  /** One call after the other, up to the first that does not report success. */
  function Perform(s: Server, ops: seq<Op>, outcomes: seq<Outcome>): (Server, bool)
    decreases |ops|
  {
    if ops == [] then (s, true)
    else if outcomes == [] then (s, false)
    else
      var t := if outcomes[0].Applied() then Do(s, ops[0]) else s;
      if outcomes[0].Succeeded() && Accepts(s, ops[0]) then Perform(t, ops[1..], outcomes[1..]) else (t, false)
  }

  // ---- The adapter ----

  class Adapter {
    var server: Server

    constructor (server: Server)
      ensures this.server == server
    {
      this.server := server;
    }

    /** listAllRegistries: None when a request fails. */
    method ListAllRegistries() returns (r: Option<seq<Registry>>, requests: nat)
      ensures r.Some? ==> r.value == server.list
      ensures r.Some? ==> requests == if server.list == [] then 1 else (|server.list| + 99) / 100
      ensures 1 <= requests <= |server.list| / 100 + 1
    {
      var registries: seq<Registry> := [];
      var page := 1;
      requests := 0;
      while true
        invariant page == requests + 1
        invariant requests > 0 ==> requests * PAGE_SIZE < |server.list|
        invariant |registries| == requests * PAGE_SIZE
        invariant |registries| <= |server.list| && registries == server.list[..|registries|]
        decreases |server.list| - |registries|
      {
        var o: Outcome := *;
        requests := requests + 1;
        if !o.Succeeded() {
          return None, requests;
        }
        registries := registries + Page(server, page);
        if |registries| >= |server.list| {
          break;
        }
        page := page + 1;
      }
      r := Some(registries);
    }

    /** One call to Harbor. */
    method Call(op: Op) returns (ok: bool, o: Outcome)
      modifies this
      ensures server == if o.Applied() then Do(old(server), op) else old(server)
      ensures ok <==> o.Succeeded() && Accepts(old(server), op)
    {
      o := *;
      ok := o.Succeeded() && Accepts(server, op);
      if o.Applied() {
        server := Do(server, op);
      }
    }

    /** The calls of one set, in order. */
    method CallAll(ops: seq<Op>) returns (ok: bool, ghost outcomes: seq<Outcome>)
      modifies this
      ensures (server, ok) == Perform(old(server), ops, outcomes)
      ensures |outcomes| <= |ops| && (ok ==> |outcomes| == |ops|)
    {
      outcomes := [];
      assert ops[0..] == ops;
      assert forall more: seq<Outcome> :: outcomes + more == more;
      for k := 0 to |ops|
        invariant |outcomes| == k
        invariant forall more :: Perform(old(server), ops, outcomes + more) == Perform(server, ops[k..], more)
      {
        ghost var before, was := server, outcomes;
        var fine, o := Call(ops[k]);
        outcomes := outcomes + [o];
        assert ops[k..][0] == ops[k] && ops[k..][1..] == ops[k + 1..];
        forall more
          ensures Perform(old(server), ops, outcomes + more) == Perform(before, ops[k..], [o] + more)
        {
          assert outcomes + more == was + ([o] + more);
        }
        assert forall more :: ([o] + more)[0] == o && ([o] + more)[1..] == more;
        if !fine {
          assert outcomes + [] == outcomes;
          return false, outcomes;
        }
      }
      assert outcomes + [] == outcomes;
      ok := true;
    }

    /** RegisterKnownRegistries. `planned` says that the list and all credentials could be read, and
        `wanted` is what was asked for, with these credentials. */
    method RegisterKnownRegistries(known: seq<KnownRegistry>)
      returns (ok: bool, ghost planned: bool, ghost wanted: seq<Registry>, ghost outcomes: seq<Outcome>)
      modifies this
      ensures !planned ==> !ok && server == old(server)
      ensures planned ==>
        Asks(known, wanted) && (server, ok) == Perform(old(server), Plan(old(server).list, wanted), outcomes)
    {
      planned, wanted, outcomes := false, [], [];
      var rs, _ := ListAllRegistries();
      if rs.None? {
        return false, false, wanted, outcomes;
      }
      var readable, createSet, updateSet;
      readable, createSet, updateSet, wanted := SplitSets(known, rs.value);
      if !readable {
        return false, false, wanted, outcomes;
      }
      planned := true;
      ok, outcomes := CallAll(createSet);
      if !ok {
        FailedPrefix(old(server), createSet, updateSet, outcomes);
        return false, true, wanted, outcomes;
      }
      ghost var more;
      ok, more := CallAll(updateSet);
      PerformSplit(old(server), createSet, updateSet, outcomes, more);
      outcomes := outcomes + more;
    }
  }

  /** `wanted` asks for the known registries, with a credential where one is referred to. */
  predicate Asks(known: seq<KnownRegistry>, wanted: seq<Registry>) {
    && |wanted| == |known|
    && forall k :: 0 <= k < |known| ==>
         && wanted[k] == Wanted(known[k], wanted[k].credential)
         && (wanted[k].credential.Some? <==> known[k].credentialRef.Some?)
  }

  lemma AsksSnoc(known: seq<KnownRegistry>, k: nat, wanted: seq<Registry>, reg: Registry)
    requires k < |known| && Asks(known[..k], wanted)
    requires reg == Wanted(known[k], reg.credential) && (reg.credential.Some? <==> known[k].credentialRef.Some?)
    ensures Asks(known[..k + 1], wanted + [reg])
  {
  }

  method IndexByName(rs: seq<Registry>) returns (registered: map<string, Registry>)
    ensures forall name :: name in registered <==> Find(rs, name).Some?
    ensures forall name :: name in registered ==> Some(registered[name]) == Find(rs, name)
  {
    registered := map[];
    for i := 0 to |rs|
      invariant forall name :: name in registered <==> Find(rs[..i], name).Some?
      invariant forall name :: name in registered ==> Some(registered[name]) == Find(rs[..i], name)
    {
      assert rs[..i + 1][..i] == rs[..i];
      registered := registered[rs[i].name := rs[i]];
    }
    assert rs[..|rs|] == rs;
  }

  /** The two sets of RegisterKnownRegistries; not `ok` when a credential cannot be read. */
  method SplitSets(known: seq<KnownRegistry>, rs: seq<Registry>)
    returns (ok: bool, createSet: seq<Op>, updateSet: seq<Op>, ghost wanted: seq<Registry>)
    ensures ok ==> Asks(known, wanted) && createSet == Creates(rs, wanted) && updateSet == Updates(rs, wanted)
    ensures (forall k :: 0 <= k < |known| ==> known[k].credentialRef.None?) ==> ok
  {
    var registered := IndexByName(rs);
    createSet, updateSet, wanted := [], [], [];
    for k := 0 to |known|
      invariant Asks(known[..k], wanted)
      invariant createSet == Creates(rs, wanted) && updateSet == Updates(rs, wanted)
    {
      var reg := Wanted(known[k], None);
      if known[k].credentialRef.Some? {
        var credential: Option<Credential> := *;
        if credential.None? {
          return false, createSet, updateSet, wanted;
        }
        reg := reg.(credential := credential);
      }
      CreatesSnoc(rs, wanted, reg);
      UpdatesSnoc(rs, wanted, reg);
      AsksSnoc(known, k, wanted, reg);
      wanted := wanted + [reg];
      if reg.name in registered {
        updateSet := updateSet + [Update(reg.(id := registered[reg.name].id))];
      } else {
        createSet := createSet + [Create(reg)];
      }
    }
    assert known[..|known|] == known;
    ok := true;
  }

  /** What is created was asked for and is not listed. */
  lemma {:induction false} CreatesNew(list: seq<Registry>, wanted: seq<Registry>)
    ensures forall op :: op in Creates(list, wanted) ==> op.registry in wanted && !Named(list, op.registry.name)
    decreases |wanted|
  {
    if wanted != [] {
      CreatesNew(list, wanted[1..]);
    }
  }

  lemma {:induction false} CreatesSnoc(list: seq<Registry>, wanted: seq<Registry>, reg: Registry)
    ensures Creates(list, wanted + [reg]) ==
      Creates(list, wanted) + (if Named(list, reg.name) then [] else [Create(reg)])
    decreases |wanted|
  {
    if wanted == [] {
      assert (wanted + [reg])[1..] == [];
    } else {
      assert (wanted + [reg])[0] == wanted[0] && (wanted + [reg])[1..] == wanted[1..] + [reg];
      CreatesSnoc(list, wanted[1..], reg);
    }
  }

  lemma {:induction false} UpdatesSnoc(list: seq<Registry>, wanted: seq<Registry>, reg: Registry)
    ensures Updates(list, wanted + [reg]) == Updates(list, wanted) + IdUpdate(list, reg)
    decreases |wanted|
  {
    if wanted == [] {
      assert (wanted + [reg])[1..] == [];
    } else {
      assert (wanted + [reg])[0] == wanted[0] && (wanted + [reg])[1..] == wanted[1..] + [reg];
      UpdatesSnoc(list, wanted[1..], reg);
    }
  }

  /** A set of calls that fails ends the run. */
  lemma {:induction false} FailedPrefix(s: Server, a: seq<Op>, b: seq<Op>, x: seq<Outcome>)
    requires !Perform(s, a, x).1
    ensures Perform(s, a + b, x) == Perform(s, a, x)
    decreases |a|
  {
    assert (a + b)[0] == a[0];
    if x != [] && x[0].Succeeded() && Accepts(s, a[0]) {
      assert (a + b)[1..] == a[1..] + b;
      FailedPrefix(Do(s, a[0]), a[1..], b, x[1..]);
    }
  }

  /** A set of calls that succeeds is followed by the next. */
  lemma {:induction false} PerformSplit(s: Server, a: seq<Op>, b: seq<Op>, x: seq<Outcome>, y: seq<Outcome>)
    requires Perform(s, a, x).1 && |x| == |a|
    ensures Perform(s, a + b, x + y) == Perform(Perform(s, a, x).0, b, y)
    decreases |a|
  {
    if a == [] {
      assert a + b == b && x + y == y;
    } else {
      assert (a + b)[1..] == a[1..] + b && (x + y)[1..] == x[1..] + y;
      PerformSplit(Do(s, a[0]), a[1..], b, x[1..], y);
    }
  }
}
