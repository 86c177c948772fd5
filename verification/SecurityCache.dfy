/** Vulnerability data read through a Redis cache with a time to live in front of the Harbor provider. */
module SecurityCache {
  import opened Wrappers
  import opened Artifact

  // ---- Metadata and stores ----

  datatype Metadata = Metadata(kind: string, version: string, scheme: string) {
    /** Metadata.String */
    function Text(): string {
      kind + ":" + version + ":" + scheme
    }

    /** Metadata.Equal */
    predicate Equal(other: Metadata) {
      Text() == other.Text()
    }
  }

  const VULN_META := Metadata(
    "vulnerability", "v1.1", "application/vnd.security.vulnerability.report; version=1.1")

  /** A vulnerability store: the report summary, or the error that Validate returns. Its artifact is not
      kept: no code sets it and its fields are not part of the JSON. */
  datatype Store = Store(data: string, err: Option<string>)

  /** JSON text as far as the store's decoder can tell it apart. An error value is encoded as an
      object, which cannot be decoded into an error again. */
  datatype JsonErr = Null | AnObject
  datatype Json = Empty | Malformed | Object(data: string, err: JsonErr)

  const BAD_JSON := "json: cannot unmarshal"
  const EMPTY_ID := "empty artifact ID"
  const NO_DATA := "no data found"

  function ToJSON(s: Store): Json {
    Object(s.data, if s.err.None? then Null else AnObject)
  }

  function FromJSON(js: Json): Store {
    match js
    case Empty => Store("", Some(BAD_JSON))
    case Malformed => Store("", Some(BAD_JSON))
    case Object(d, Null) => Store(d, None)
    case Object(d, AnObject) => Store(d, Some(BAD_JSON))
  }

  /** GetStore knows the vulnerability store only. */
  predicate Supported(meta: Metadata) {
    meta.Equal(VULN_META)
  }

  // ---- The cache client ----

  /** key */
  function Key(id: ArtifactID, meta: Metadata): string {
    meta.Text() + ":" + id.artifactID
  }

  datatype Entry = Entry(value: Json, expires: int)

  type Entries = map<string, Entry>

  /** GET: a missing or expired key is an error for the caller. */
  function Get(entries: Entries, now: int, key: string, ok: bool): Option<Json> {
    if ok && key in entries && now < entries[key].expires then Some(entries[key].value) else None
  }

  /** Client.Read; `oks` says which GET calls reach Redis. */
  function CacheRead(entries: Entries, now: int, id: ArtifactID, metas: seq<Metadata>,
      oks: nat -> bool): Option<seq<Store>> {
    if metas == [] then None else ReadStores(entries, now, id, metas, oks, 0)
  }

  function ReadStores(entries: Entries, now: int, id: ArtifactID, metas: seq<Metadata>, oks: nat -> bool, k: nat)
    : (r: Option<seq<Store>>)
    requires k <= |metas|
    ensures r.Some? ==> |r.value| == |metas| - k
    decreases |metas| - k
  {
    if k == |metas| then Some([])
    else
      var js := Get(entries, now, Key(id, metas[k]), oks(k));
      if js.None? || !Supported(metas[k]) || FromJSON(js.value).err.Some? then None
      else
        var rest := ReadStores(entries, now, id, metas, oks, k + 1);
        if rest.None? then None else Some([FromJSON(js.value)] + rest.value)
  }

  /** The SET commands of one transaction. Redis refuses an expiry that is not positive. */
  function SetAll(entries: Entries, now: int, living: int, id: ArtifactID, stores: seq<Store>): Entries
    decreases |stores|
  {
    if stores == [] || living <= 0 then entries
    else
      SetAll(entries[Key(id, VULN_META) := Entry(ToJSON(stores[0]), now + living)], now, living, id, stores[1..])
  }

  class Client {
    var entries: Entries
    var now: int
    const livingTime: int

    constructor (livingTime: int)
      ensures entries == map[] && now == 0 && this.livingTime == livingTime
    {
      this.livingTime := livingTime;
      entries, now := map[], 0;
    }

    method Read(id: ArtifactID, metas: seq<Metadata>, oks: nat -> bool) returns (r: Option<seq<Store>>)
      ensures r == CacheRead(entries, now, id, metas, oks)
    {
      if |metas| == 0 {
        return None;
      }
      var stores := [];
      ghost var all := CacheRead(entries, now, id, metas, oks);
      assert forall x: seq<Store> :: [] + x == x;
      for k := 0 to |metas|
        invariant |stores| == k
        invariant var rest := ReadStores(entries, now, id, metas, oks, k);
                  all == if rest.None? then None else Some(stores + rest.value)
      {
        var js := Get(entries, now, Key(id, metas[k]), oks(k));
        if js.None? {
          return None;
        }
        if !Supported(metas[k]) {
          return None;
        }
        var store := FromJSON(js.value);
        if store.err.Some? {
          return None;
        }
        ghost var rest := ReadStores(entries, now, id, metas, oks, k + 1);
        assert rest.Some? ==> (stores + [store]) + rest.value == stores + ([store] + rest.value);
        stores := stores + [store];
      }
      assert stores + [] == stores;
      r := Some(stores);
    }

    /** The transaction is committed as a whole or not at all; a lost reply is an error too. */
    method Write(id: ArtifactID, data: seq<Store>, exec: Outcome) returns (ok: bool)
      modifies this`entries
      ensures entries == if exec.Applied() then SetAll(old(entries), now, livingTime, id, data) else old(entries)
      ensures ok <==> data == [] || exec.Succeeded()
    {
      if |data| == 0 {
        return true;
      }
      var pending := entries;
      for k := 0 to |data|
        invariant SetAll(pending, now, livingTime, id, data[k..]) == SetAll(old(entries), now, livingTime, id, data)
      {
        assert data[k..][0] == data[k] && data[k..][1..] == data[k + 1..];
        if livingTime > 0 {
          pending := pending[Key(id, VULN_META) := Entry(ToJSON(data[k]), now + livingTime)];
        } else {
          assert SetAll(pending, now, livingTime, id, data[k..]) == pending;
        }
      }
      if exec.Applied() {
        entries := pending;
      }
      ok := exec.Succeeded();
    }
  }

  // ---- The provider ----

  /** What Harbor knows of an artifact: nothing, or its scan overview for the vulnerability scheme. */
  datatype Response = Unavailable | Artifact(overview: Option<string>)

  /** FillIn, or SetError without an overview. */
  function Filled(id: ArtifactID, overview: Option<string>): Store {
    if overview.None? then Store("", Some(NO_DATA))
    else if id.artifactID == "" then Store("", Some(EMPTY_ID))
    else Store(overview.value, None)
  }

  /** The stores of a provider read: one for each kind of data, or an error for an unknown kind. */
  function Fetched(id: ArtifactID, metas: seq<Metadata>, r: Response): Option<seq<Store>> {
    if r.Unavailable? then None
    else if exists k :: 0 <= k < |metas| && !Supported(metas[k]) then None
    else Some(seq(if metas == [] then 1 else |metas|, _ => Filled(id, r.overview)))
  }

  /** Adapter.Read: the cache first, then the provider, whose answer is written to the cache. */
  method ReadThrough(cache: Client?, id: ArtifactID, metas: seq<Metadata>, oks: nat -> bool, response: Response,
      exec: Outcome)
    returns (r: Option<seq<Store>>)
    modifies if cache == null then {} else {cache}
    ensures cache == null ==> r == Fetched(id, metas, response)
    ensures cache != null ==>
      var hit := CacheRead(old(cache.entries), old(cache.now), id, metas, oks);
      var fetched := Fetched(id, metas, response);
      && r == (if hit.Some? then hit else fetched)
      && cache.now == old(cache.now)
      && cache.entries == if hit.None? && fetched.Some? && exec.Applied()
                          then SetAll(old(cache.entries), cache.now, cache.livingTime, id, fetched.value)
                          else old(cache.entries)
  {
    if cache != null {
      var hit := cache.Read(id, metas, oks);
      if hit.Some? {
        return hit;
      }
    }
    r := Fetched(id, metas, response);
    if r.Some? && cache != null {
      var _ := cache.Write(id, r.value, exec);
    }
  }

  // ---- Readers running side by side ----

  /** An answer of the provider: for which artifact, when, and what. */
  datatype Fetch = Fetch(artifact: string, at: int, overview: Option<string>)

  /** A reader between its fetch and its write to the cache. */
  datatype Pending = Pending(id: ArtifactID, fetch: Fetch, stores: seq<Store>)

  datatype Written = Written(fetch: Fetch, at: int)

  datatype System = System(
    living: int,
    now: int,
    entries: Entries,
    pending: map<nat, Pending>,
    fetches: seq<Fetch>,
    writes: seq<Written>)

  datatype Event =
    | Tick(seconds: nat)
    | Ask(reader: nat, id: ArtifactID, metas: seq<Metadata>, response: Response)  // after a cache miss
    | Save(reader: nat, exec: Outcome)

  predicate Possible(s: System, e: Event) {
    e.Save? ==> e.reader in s.pending
  }

  function Apply(s: System, e: Event): System
    requires Possible(s, e)
  {
    match e
    case Tick(n) => s.(now := s.now + n)
    case Ask(reader, id, metas, response) =>
      var stores := Fetched(id, metas, response);
      if stores.None? then s
      else
        var f := Fetch(id.artifactID, s.now, response.overview);
        s.(fetches := s.fetches + [f], pending := s.pending[reader := Pending(id, f, stores.value)])
    case Save(reader, exec) =>
      var p := s.pending[reader];
      s.(pending := s.pending - {reader},
         entries := if exec.Applied() then SetAll(s.entries, s.now, s.living, p.id, p.stores) else s.entries,
         writes := s.writes + [Written(p.fetch, s.now)])
  }

  ghost predicate PossibleRun(s: System, events: seq<Event>)
    decreases |events|
  {
    events == [] || (Possible(s, events[0]) && PossibleRun(Apply(s, events[0]), events[1..]))
  }

  function ApplyAll(s: System, events: seq<Event>): System
    requires PossibleRun(s, events)
    decreases |events|
  {
    if events == [] then s else ApplyAll(Apply(s, events[0]), events[1..])
  }

  function Start(living: int): System {
    System(living, 0, map[], map[], [], [])
  }
}
