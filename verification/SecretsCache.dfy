/**
 The secrets cache of dblift/config/secrets: composite keys, expiry, and the walk that resolves
 every secret URI of a configuration tree.

 The clock and the secret providers are parameters: any clock that never runs backwards, any
 provider, which may answer differently each time it is asked or not at all.
 */
module SecretsCache {
  import opened Basics

  /** `cacheTtl` is the time to live as far as it is a number. */
  datatype SecretsConfig = SecretsConfig(
    vaultUrl: Option<string>, vaultToken: Option<string>, vaultNamespace: Option<string>,
    awsRegion: Option<string>, azureVaultName: Option<string>, gcpProjectId: Option<string>,
    cacheTtl: Option<real>)

  // ---------------------------------------------------------------- the composite key

  /** `value or ''`. */
  function OrEmpty(value: Option<string>): string {
    if value.Some? then value.value else ""
  }

  function Fields(c: SecretsConfig): seq<string> {
    [OrEmpty(c.vaultUrl), OrEmpty(c.vaultToken), OrEmpty(c.vaultNamespace),
     OrEmpty(c.awsRegion), OrEmpty(c.azureVaultName), OrEmpty(c.gcpProjectId)]
  }

  /** What a provider is given to authenticate with; null and empty settings are the same. */
  function Credentials(config: Option<SecretsConfig>): Option<seq<string>> {
    if config.Some? then Some(Fields(config.value)) else None
  }

  function Then(a: string, rest: string): string {
    a + "\0" + rest
  }

  /** `_cache_key`: the URI and every setting, with a NUL between each two. */
  function CacheKey(uri: string, config: Option<SecretsConfig>): string {
    match config
    case None => uri
    case Some(c) =>
      Then(uri, Then(OrEmpty(c.vaultUrl), Then(OrEmpty(c.vaultToken), Then(OrEmpty(c.vaultNamespace),
        Then(OrEmpty(c.awsRegion), Then(OrEmpty(c.azureVaultName), OrEmpty(c.gcpProjectId)))))))
  }

  function Join(parts: seq<string>): string
    requires parts != []
  {
    if |parts| == 1 then parts[0] else Then(parts[0], Join(parts[1..]))
  }

  predicate NulFree(parts: seq<string>) {
    forall p :: p in parts ==> '\0' !in p
  }

  function KeyParts(uri: string, config: Option<SecretsConfig>): seq<string> {
    [uri] + if config.Some? then Fields(config.value) else []
  }

  lemma JoinNext(a: string, rest: seq<string>)
    requires rest != []
    ensures Join([a] + rest) == Then(a, Join(rest))
  {
    assert ([a] + rest)[1..] == rest;
  }

  lemma JoinSix(a: string, b: string, c: string, d: string, e: string, f: string)
    ensures Join([a, b, c, d, e, f]) == Then(a, Then(b, Then(c, Then(d, Then(e, f)))))
  {
    JoinNext(e, [f]);
    JoinNext(d, [e] + [f]);
    JoinNext(c, [d] + ([e] + [f]));
    JoinNext(b, [c] + ([d] + ([e] + [f])));
    JoinNext(a, [b] + ([c] + ([d] + ([e] + [f]))));
    assert [a] + ([b] + ([c] + ([d] + ([e] + [f])))) == [a, b, c, d, e, f];
  }

  lemma CacheKeyIsJoin(uri: string, config: Option<SecretsConfig>)
    ensures CacheKey(uri, config) == Join(KeyParts(uri, config))
  {
    if config.Some? {
      var f := Fields(config.value);
      JoinNext(uri, f);
      JoinSix(f[0], f[1], f[2], f[3], f[4], f[5]);
    }
  }

  /** Two texts without NUL that continue with one, or end, are told apart by where it stands. */
  lemma SameHead(a: string, b: string, restA: string, restB: string)
    requires '\0' !in a && '\0' !in b && a + restA == b + restB
    requires restA == "" || restA[0] == '\0'
    requires restB == "" || restB[0] == '\0'
    ensures a == b && restA == restB
  {
    var whole := a + restA;
    assert a == whole[..|a|] && restA == whole[|a|..] && restB == (b + restB)[|b|..];
  }

  /** Joining with NUL loses nothing when no part holds one. */
  lemma {:induction false} JoinInjective(a: seq<string>, b: seq<string>)
    requires a != [] && b != [] && NulFree(a) && NulFree(b)
    requires Join(a) == Join(b)
    ensures a == b
    decreases |a|
  {
    var restA := if |a| == 1 then "" else "\0" + Join(a[1..]);
    var restB := if |b| == 1 then "" else "\0" + Join(b[1..]);
    assert Join(a) == a[0] + restA && Join(b) == b[0] + restB;
    SameHead(a[0], b[0], restA, restB);
    if |a| > 1 {
      assert restA[1..] == Join(a[1..]) && restB[1..] == Join(b[1..]);
      JoinInjective(a[1..], b[1..]);
    }
    assert a == [a[0]] + a[1..] && b == [b[0]] + b[1..];
  }

  /** The key tells URIs and credentials apart, and nothing else, when none of them holds a NUL. */
  lemma KeyMeans(uri: string, config: Option<SecretsConfig>, uri': string, config': Option<SecretsConfig>)
    requires NulFree(KeyParts(uri, config)) && NulFree(KeyParts(uri', config'))
    ensures CacheKey(uri, config) == CacheKey(uri', config') <==>
            uri == uri' && Credentials(config) == Credentials(config')
  {
    CacheKeyIsJoin(uri, config);
    CacheKeyIsJoin(uri', config');
    if CacheKey(uri, config) == CacheKey(uri', config') {
      var a, b := KeyParts(uri, config), KeyParts(uri', config');
      JoinInjective(a, b);
      assert a[0] == uri && b[0] == uri';
      if config.Some? && config'.Some? {
        assert a[1..] == Fields(config.value) && b[1..] == Fields(config'.value);
      }
    }
  }

  // ---------------------------------------------------------------- when keys are shared

  /** With a NUL in a setting two different credentials share a key. */
  lemma NulCollides(uri: string)
    ensures
      var none := SecretsConfig(None, None, None, None, None, None, None);
      var a, b := none.(vaultUrl := Some("\0")), none.(vaultToken := Some("\0"));
      CacheKey(uri, Some(a)) == CacheKey(uri, Some(b)) && Credentials(Some(a)) != Credentials(Some(b))
  {
    var none := SecretsConfig(None, None, None, None, None, None, None);
    var a, b := none.(vaultUrl := Some("\0")), none.(vaultToken := Some("\0"));
    assert Then("\0", Then("", Then("", Then("", Then("", ""))))) == "\0\0\0\0\0\0";
    assert Then("", Then("\0", Then("", Then("", Then("", ""))))) == "\0\0\0\0\0\0";
    assert Fields(a)[0] != Fields(b)[0];
  }

  function Nuls(s: string): nat {
    if s == "" then 0 else Nuls(s[1..]) + if s[0] == '\0' then 1 else 0
  }

  lemma {:induction false} NulsAppend(a: string, b: string)
    ensures Nuls(a + b) == Nuls(a) + Nuls(b)
    decreases |a|
  {
    if a == "" {
      assert a + b == b;
    } else {
      assert (a + b)[1..] == a[1..] + b;
      NulsAppend(a[1..], b);
    }
  }

  lemma {:induction false} NulsMeans(s: string)
    ensures Nuls(s) == 0 <==> '\0' !in s
  {
    if s != "" {
      NulsMeans(s[1..]);
      assert s == [s[0]] + s[1..];
    }
  }

  lemma NulsThen(a: string, rest: string)
    ensures Nuls(Then(a, rest)) == Nuls(a) + 1 + Nuls(rest)
  {
    NulsAppend(a + "\0", rest);
    NulsAppend(a, "\0");
    assert Nuls("\0") == 1;
  }

  /** A key has a NUL for every boundary, and exactly those when no part holds one. */
  lemma {:induction false} NulsOfJoin(parts: seq<string>)
    requires parts != []
    ensures Nuls(Join(parts)) >= |parts| - 1
    ensures Nuls(Join(parts)) == |parts| - 1 <==> NulFree(parts)
    decreases |parts|
  {
    NulsMeans(parts[0]);
    if |parts| > 1 {
      NulsOfJoin(parts[1..]);
      NulsThen(parts[0], Join(parts[1..]));
      assert parts == [parts[0]] + parts[1..];
    }
  }

  /** The text cut at its first NULs. */
  lemma {:induction false} CutAtNuls(s: string, n: nat) returns (parts: seq<string>)
    requires Nuls(s) >= n
    ensures |parts| == n + 1 && Join(parts) == s
    ensures forall k :: 0 <= k < n ==> '\0' !in parts[k]
  {
    if n == 0 {
      parts := [s];
    } else {
      var i := FirstNul(s);
      NulsThen(s[..i], s[i + 1..]);
      NulsMeans(s[..i]);
      assert s == Then(s[..i], s[i + 1..]);
      var rest := CutAtNuls(s[i + 1..], n - 1);
      JoinNext(s[..i], rest);
      parts := [s[..i]] + rest;
    }
  }

  lemma {:induction false} FirstNul(s: string) returns (i: nat)
    requires Nuls(s) > 0
    ensures i < |s| && s[i] == '\0' && '\0' !in s[..i]
  {
    if s[0] == '\0' {
      i := 0;
    } else {
      var k := FirstNul(s[1..]);
      i := k + 1;
      assert s[..i] == [s[0]] + s[1..][..k];
    }
  }

  /** The configuration with these settings. */
  function ConfigOf(fields: seq<string>): SecretsConfig
    requires |fields| == 6
    ensures Fields(ConfigOf(fields)) == fields
  {
    SecretsConfig(Some(fields[0]), Some(fields[1]), Some(fields[2]),
                  Some(fields[3]), Some(fields[4]), Some(fields[5]), None)
  }

  lemma KeyOfParts(parts: seq<string>)
    requires |parts| == 7
    ensures CacheKey(parts[0], Some(ConfigOf(parts[1..]))) == Join(parts)
  {
    CacheKeyIsJoin(parts[0], Some(ConfigOf(parts[1..])));
    assert [parts[0]] + parts[1..] == parts;
  }

  /** Some other URI or other credentials have the key of these. */
  ghost predicate SharesKey(uri: string, config: SecretsConfig) {
    exists uri': string, config': SecretsConfig ::
      && CacheKey(uri', Some(config')) == CacheKey(uri, Some(config))
      && !(uri' == uri && Credentials(Some(config')) == Credentials(Some(config)))
  }

  /** Exactly when the key identifies a URI and credentials: when none of them holds a NUL. */
  lemma KeyIsSharedIff(uri: string, config: SecretsConfig)
    ensures SharesKey(uri, config) <==> !NulFree(KeyParts(uri, Some(config)))
  {
    var parts := KeyParts(uri, Some(config));
    CacheKeyIsJoin(uri, Some(config));
    NulsOfJoin(parts);
    if NulFree(parts) {
      forall uri': string, config': SecretsConfig | CacheKey(uri', Some(config')) == CacheKey(uri, Some(config))
        ensures uri' == uri && Credentials(Some(config')) == Credentials(Some(config))
      {
        CacheKeyIsJoin(uri', Some(config'));
        NulsOfJoin(KeyParts(uri', Some(config')));
        KeyMeans(uri', Some(config'), uri, Some(config));
      }
    } else {
      var other := OtherParts(parts);
      KeyOfParts(other);
      assert other == [other[0]] + other[1..];
      assert parts[1..] == Fields(config);
      assert CacheKey(other[0], Some(ConfigOf(other[1..]))) == CacheKey(uri, Some(config));
    }
  }

  lemma {:induction false} BoundaryMoves(front: seq<string>, a: string, x: string, y: string)
    ensures Join(front + [a, Then(x, y)]) == Join(front + [Then(a, x), y])
    decreases |front|
  {
    if front == [] {
      JoinNext(a, [Then(x, y)]);
      JoinNext(Then(a, x), [y]);
      assert [] + [a, Then(x, y)] == [a] + [Then(x, y)] && [] + [Then(a, x), y] == [Then(a, x)] + [y];
      assert Then(a, Then(x, y)) == Then(Then(a, x), y);
    } else {
      BoundaryMoves(front[1..], a, x, y);
      assert (front + [a, Then(x, y)])[1..] == front[1..] + [a, Then(x, y)];
      assert (front + [Then(a, x), y])[1..] == front[1..] + [Then(a, x), y];
    }
  }

  /** Parts that hold a NUL are not the only ones with their key: a boundary can be moved. */
  lemma OtherParts(parts: seq<string>) returns (other: seq<string>)
    requires |parts| == 7 && !NulFree(parts)
    ensures |other| == 7 && Join(other) == Join(parts) && other != parts
  {
    var last := parts[6];
    if '\0' in last {
      NulsMeans(last);
      var i := FirstNul(last);
      var x, y := last[..i], last[i + 1..];
      assert last == Then(x, y);
      BoundaryMoves(parts[..5], parts[5], x, y);
      assert parts == parts[..5] + [parts[5], last];
      other := parts[..5] + [Then(parts[5], x), y];
      assert other[6] == y;
    } else {
      NulsOfJoin(parts);
      other := CutAtNuls(Join(parts), 6);
      var p :| p in parts && '\0' in p;
      var k :| 0 <= k < 7 && parts[k] == p;
      assert '\0' !in other[k];
    }
  }

  /** A URI without configuration has the key of some URI with one exactly when it holds six NULs. */
  lemma BareKeyIsShared(uri: string)
    ensures (exists uri': string, config: SecretsConfig :: CacheKey(uri', Some(config)) == CacheKey(uri, None)) <==>
            Nuls(uri) >= 6
  {
    if exists uri': string, config: SecretsConfig :: CacheKey(uri', Some(config)) == CacheKey(uri, None) {
      var uri': string, config: SecretsConfig :| CacheKey(uri', Some(config)) == CacheKey(uri, None);
      CacheKeyIsJoin(uri', Some(config));
      NulsOfJoin(KeyParts(uri', Some(config)));
    }
    if Nuls(uri) >= 6 {
      var parts := CutAtNuls(uri, 6);
      KeyOfParts(parts);
      assert CacheKey(parts[0], Some(ConfigOf(parts[1..]))) == CacheKey(uri, None);
    }
  }

  // ---------------------------------------------------------------- the cache

  datatype CacheEntry = CacheEntry(value: string, expiresAt: real)

  class SecretsCache {
    var ttl: real
    var store: map<string, CacheEntry>

    constructor (ttl: real)
      ensures this.ttl == ttl && store == map[]
    {
      this.ttl, store := ttl, map[];
    }

    /** An expired entry is dropped on the way. */
    method Get(key: string, now: real) returns (value: Option<string>)
      modifies this`store
      ensures key in old(store) && now < old(store)[key].expiresAt ==>
        value == Some(old(store)[key].value) && store == old(store)
      ensures !(key in old(store) && now < old(store)[key].expiresAt) ==>
        value == None && store == old(store) - {key}
    {
      if key !in store {
        assert store - {key} == store;
        return None;
      }
      if now >= store[key].expiresAt {
        store := store - {key};
        return None;
      }
      value := Some(store[key].value);
    }

    method Set(key: string, value: string, now: real)
      modifies this`store
      ensures store == old(store)[key := CacheEntry(value, now + ttl)]
    {
      store := store[key := CacheEntry(value, now + ttl)];
    }

    method Clear()
      modifies this`store
      ensures store == map[]
    {
      store := map[];
    }
  }

  // ---------------------------------------------------------------- resolving

  /** A provider's answer, when it came, and the time to live in force when it was stored. */
  datatype Call = Call(uri: string, config: Option<SecretsConfig>, value: string, at: real, ttl: real)

  /** A value given out from the cache, and the call it came from. */
  datatype Serving = Serving(uri: string, config: Option<SecretsConfig>, value: string, at: real, from: Call)

  predicate Matches(c: Call, uri: string, config: Option<SecretsConfig>) {
    c.uri == uri && Credentials(c.config) == Credentials(config)
  }

  /** Right URI, right credentials, the value of the call, and younger than its time to live. */
  predicate Justified(s: Serving, calls: seq<Call>) {
    && s.from in calls && Matches(s.from, s.uri, s.config)
    && s.value == s.from.value && s.from.at <= s.at < s.from.at + s.from.ttl
  }

  /** The latest answer for this URI and these credentials. */
  function Latest(calls: seq<Call>, uri: string, config: Option<SecretsConfig>): Option<Call> {
    if calls == [] then None
    else
      var last := calls[|calls| - 1];
      if Matches(last, uri, config) then Some(last) else Latest(calls[..|calls| - 1], uri, config)
  }

  lemma {:induction false} LatestIsCall(calls: seq<Call>, uri: string, config: Option<SecretsConfig>)
    ensures var c := Latest(calls, uri, config);
      c.Some? ==> c.value in calls && Matches(c.value, uri, config)
  {
    if calls != [] {
      LatestIsCall(calls[..|calls| - 1], uri, config);
    }
  }

  /** A provider for this URI and these credentials did give this value. */
  predicate Supplied(calls: seq<Call>, uri: string, config: Option<SecretsConfig>, value: string) {
    exists c :: c in calls && Matches(c, uri, config) && c.value == value
  }

  datatype Value =
    | Text(text: string)
    | Items(items: seq<Value>)
    | Dict(entries: seq<(string, Value)>)
    | Other(n: int)

  /** No secret URI in the tree holds a NUL. */
  predicate Clean(data: Value, isUri: string -> bool) {
    match data
    case Text(t) => isUri(t) ==> '\0' !in t
    case Items(items) => forall i :: 0 <= i < |items| ==> Clean(items[i], isUri)
    case Dict(entries) => forall i :: 0 <= i < |entries| ==> Clean(entries[i].1, isUri)
    case Other(_) => true
  }

  /** `result` is `data` with every secret URI replaced by a value supplied for it. */
  predicate Resolved(data: Value, result: Value, isUri: string -> bool, config: Option<SecretsConfig>, calls: seq<Call>)
    decreases data
  {
    match data
    case Text(t) =>
      if isUri(t) then result.Text? && Supplied(calls, t, config, result.text) else result == data
    case Items(items) =>
      && result.Items? && |result.items| == |items|
      && forall i :: 0 <= i < |items| ==> Resolved(items[i], result.items[i], isUri, config, calls)
    case Dict(entries) =>
      && result.Dict? && |result.entries| == |entries|
      && forall i :: 0 <= i < |entries| ==>
        && result.entries[i].0 == entries[i].0
        && Resolved(entries[i].1, result.entries[i].1, isUri, config, calls)
    case Other(_) => result == data
  }

  /** More calls take nothing away. */
  lemma {:induction false} ResolvedStays(
    data: Value, result: Value, isUri: string -> bool, config: Option<SecretsConfig>, calls: seq<Call>, more: seq<Call>)
    requires Resolved(data, result, isUri, config, calls) && calls <= more
    ensures Resolved(data, result, isUri, config, more)
    decreases data
  {
    match data
    case Text(t) =>
      if isUri(t) {
        var c :| c in calls && Matches(c, t, config) && c.value == result.text;
        assert c in more;
      }
    case Items(items) =>
      forall i | 0 <= i < |items| ensures Resolved(items[i], result.items[i], isUri, config, more) {
        ResolvedStays(items[i], result.items[i], isUri, config, calls, more);
      }
    case Dict(entries) =>
      forall i | 0 <= i < |entries| ensures Resolved(entries[i].1, result.entries[i].1, isUri, config, more) {
        ResolvedStays(entries[i].1, result.entries[i].1, isUri, config, calls, more);
      }
    case Other(_) =>
  }

  type Store = map<string, CacheEntry>

  /** The latest answer for it, if there is one and it has not expired. */
  function Unexpired(calls: seq<Call>, uri: string, config: Option<SecretsConfig>, now: real): Option<Call> {
    var c := Latest(calls, uri, config);
    if c.Some? && now < c.value.at + c.value.ttl then c else None
  }

  /**
   A stored entry is the latest answer for whatever it can be asked for, and not from the future;
   and while that answer has not expired, it is stored.
   */
  predicate EntryMeans(store: Store, calls: seq<Call>, now: real, uri: string, config: Option<SecretsConfig>) {
    NulFree(KeyParts(uri, config)) ==>
      var key, c := CacheKey(uri, config), Latest(calls, uri, config);
      && (key in store ==>
            c.Some? && c.value.at <= now && store[key] == CacheEntry(c.value.value, c.value.at + c.value.ttl))
      && (Unexpired(calls, uri, config, now).Some? ==> key in store)
  }

  ghost predicate EntriesMean(store: Store, calls: seq<Call>, now: real) {
    forall uri, config :: EntryMeans(store, calls, now, uri, config)
  }

  lemma EntriesOutlast(store: Store, less: Store, calls: seq<Call>, now: real, later: real)
    requires EntriesMean(store, calls, now) && now <= later
    requires forall k :: k in less ==> k in store && store[k] == less[k]
    requires forall k :: k in store && k !in less ==> store[k].expiresAt <= later
    ensures EntriesMean(less, calls, later)
  {
    forall u, c ensures EntryMeans(less, calls, later, u, c) {
      assert EntryMeans(store, calls, now, u, c);
    }
  }

  /** This is where the key must tell URIs and credentials apart. */
  lemma EntryStored(store: Store, calls: seq<Call>, call: Call)
    requires EntriesMean(store, calls, call.at) && NulFree(KeyParts(call.uri, call.config))
    ensures EntriesMean(store[CacheKey(call.uri, call.config) := CacheEntry(call.value, call.at + call.ttl)],
                        calls + [call], call.at)
  {
    var key := CacheKey(call.uri, call.config);
    var more := store[key := CacheEntry(call.value, call.at + call.ttl)];
    forall u, c ensures EntryMeans(more, calls + [call], call.at, u, c) {
      assert EntryMeans(store, calls, call.at, u, c);
      assert (calls + [call])[..|calls|] == calls;
      if NulFree(KeyParts(u, c)) {
        KeyMeans(call.uri, call.config, u, c);
      }
    }
  }

  /** The same for an answer kept some time after the last look at the clock. */
  lemma EntryKept(store: Store, calls: seq<Call>, before: real, call: Call)
    requires EntriesMean(store, calls, before) && before <= call.at && NulFree(KeyParts(call.uri, call.config))
    ensures EntriesMean(store[CacheKey(call.uri, call.config) := CacheEntry(call.value, call.at + call.ttl)],
                        calls + [call], call.at)
  {
    EntriesOutlast(store, store, calls, before, call.at);
    EntryStored(store, calls, call);
  }

  lemma JustifiedStays(servings: seq<Serving>, calls: seq<Call>, call: Call)
    requires forall s :: s in servings ==> Justified(s, calls)
    ensures forall s :: s in servings ==> Justified(s, calls + [call])
  {
  }

  datatype Fault = Unresolved(uri: string)

  /** The module state of the resolver, with the clock and the providers it works with. */
  class Resolver {
    const cache: SecretsCache
    /** The time at the n-th reading. */
    const clock: nat -> real
    /** What the n-th request gets; `None` when there is no provider, it is unavailable or it raises. */
    const provider: (nat, string, Option<SecretsConfig>) -> Option<string>
    const isUri: string -> bool
    var readings: nat
    var requests: nat
    ghost var calls: seq<Call>
    /** How many of them the cache has been cleared of. */
    ghost var cleared: nat
    ghost var servings: seq<Serving>

    ghost predicate ClockRuns()
      reads this
    {
      forall i: nat, j: nat :: i <= j ==> clock(i) <= clock(j)
    }

    ghost predicate Valid()
      reads this, cache
    {
      && ClockRuns() && cleared <= |calls|
      && EntriesMean(cache.store, calls[cleared..], clock(readings))
      && (forall s :: s in servings ==> Justified(s, calls))
    }

    constructor (clock: nat -> real, provider: (nat, string, Option<SecretsConfig>) -> Option<string>,
                 isUri: string -> bool)
      requires forall i: nat, j: nat :: i <= j ==> clock(i) <= clock(j)
      ensures Valid() && fresh(cache) && cache.ttl == 60.0 && calls == [] && servings == []
      ensures this.clock == clock && this.provider == provider && this.isUri == isUri
    {
      cache := new SecretsCache(60.0);
      this.clock, this.provider, this.isUri := clock, provider, isUri;
      readings, requests, calls, cleared, servings := 0, 0, [], 0, [];
    }

    /**
     Served from the cache exactly if there is an answer for this URI and these credentials since the
     cache was last cleared and the latest has not expired; asked for, and kept, otherwise.
     */
    method ResolveUri(uri: string, config: Option<SecretsConfig>) returns (r: Result<string, Fault>)
      requires Valid() && NulFree(KeyParts(uri, config))
      modifies this, cache`store
      ensures Valid() && cleared == old(cleared)
      ensures var now := clock(old(readings) + 1);
        var from := Unexpired(old(calls[cleared..]), uri, config, now);
        if from.Some? then
          && r == Success(from.value.value) && calls == old(calls)
          && servings == old(servings) + [Serving(uri, config, r.value, now, from.value)]
        else
          var answer := provider(old(requests), uri, config);
          && r == (if answer.Some? then Success(answer.value) else Failure(Unresolved(uri)))
          && calls == old(calls) +
            (if answer.Some? then [Call(uri, config, answer.value, clock(readings), cache.ttl)] else [])
          && servings == old(servings)
    {
      var key := CacheKey(uri, config);
      ghost var before, store, recent := clock(readings), cache.store, calls[cleared..];
      readings := readings + 1;
      var now := clock(readings);
      EntriesOutlast(store, store, recent, before, now);
      assert EntryMeans(store, recent, now, uri, config);
      var cached := cache.Get(key, now);
      EntriesOutlast(store, cache.store, recent, before, now);
      if cached.Some? {
        LatestIsCall(recent, uri, config);
        servings := servings + [Serving(uri, config, cached.value, now, Latest(recent, uri, config).value)];
        return Success(cached.value);
      }
      var answer := provider(requests, uri, config);
      requests := requests + 1;
      if answer.None? {
        return Failure(Unresolved(uri));
      }
      Keep(uri, config, answer.value);
      r := Success(answer.value);
    }

    /** `_cache.set`, with the clock read again. */
    method Keep(uri: string, config: Option<SecretsConfig>, value: string)
      requires Valid() && NulFree(KeyParts(uri, config))
      modifies this`readings, this`calls, cache`store
      ensures Valid() && cleared == old(cleared)
      ensures calls == old(calls) + [Call(uri, config, value, clock(readings), cache.ttl)]
    {
      ghost var before := clock(readings);
      readings := readings + 1;
      ghost var call := Call(uri, config, value, clock(readings), cache.ttl);
      ghost var recent := calls[cleared..];
      EntryKept(cache.store, recent, before, call);
      JustifiedStays(servings, calls, call);
      cache.Set(CacheKey(uri, config), value, clock(readings));
      calls := calls + [call];
      assert calls[cleared..] == recent + [call];
    }

    /** The configured time to live as far as it is a number, else the one in force. */
    function TtlOf(config: Option<SecretsConfig>): (ttl: real)
      reads cache
    {
      match config
      case Some(SecretsConfig(_, _, _, _, _, _, Some(seconds))) => seconds
      case _ => cache.ttl
    }

    /** `resolve_secret_refs`: the walk stops at the first URI that cannot be resolved. */
    method ResolveSecretRefs(data: Value, config: Option<SecretsConfig>) returns (r: Result<Value, Fault>)
      requires Valid() && Clean(data, isUri) && NulFree(KeyParts("", config))
      modifies this, cache
      ensures Valid() && old(calls) <= calls && old(servings) <= servings
      ensures r.Success? ==> Resolved(data, r.value, isUri, config, calls)
      ensures cache.ttl == old(TtlOf(config))
      decreases data, 1
    {
      if config.Some? && config.value.cacheTtl.Some? {
        cache.ttl := config.value.cacheTtl.value;
      }
      match data {
        case Text(t) =>
          if !isUri(t) {
            return Success(data);
          }
          ghost var recent := calls[cleared..];
          var value := ResolveUri(t, config);
          if value.Failure? {
            return Failure(value.error);
          }
          LatestIsCall(recent, t, config);
          assert Supplied(calls, t, config, value.value);
          r := Success(Text(value.value));
        case Items(items) =>
          var resolved := ResolveItems(data, config);
          if resolved.Failure? {
            return Failure(resolved.error);
          }
          r := Success(Items(resolved.value));
        case Dict(entries) =>
          var resolved := ResolveEntries(data, config);
          if resolved.Failure? {
            return Failure(resolved.error);
          }
          r := Success(Dict(resolved.value));
        case Other(_) =>
          r := Success(data);
      }
    }

    method ResolveItems(data: Value, config: Option<SecretsConfig>) returns (r: Result<seq<Value>, Fault>)
      requires Valid() && data.Items? && Clean(data, isUri) && NulFree(KeyParts("", config))
      requires cache.ttl == TtlOf(config)
      modifies this, cache
      ensures Valid() && old(calls) <= calls && old(servings) <= servings && cache.ttl == old(cache.ttl)
      ensures r.Success? ==> Resolved(data, Items(r.value), isUri, config, calls)
      decreases data, 0
    {
      var found := [];
      for i := 0 to |data.items|
        invariant Valid() && old(calls) <= calls && old(servings) <= servings && cache.ttl == old(cache.ttl)
        invariant |found| == i
        invariant forall j :: 0 <= j < i ==> Resolved(data.items[j], found[j], isUri, config, calls)
      {
        ghost var before := calls;
        var item := ResolveSecretRefs(data.items[i], config);
        if item.Failure? {
          return Failure(item.error);
        }
        forall j | 0 <= j < i ensures Resolved(data.items[j], found[j], isUri, config, calls) {
          ResolvedStays(data.items[j], found[j], isUri, config, before, calls);
        }
        found := found + [item.value];
      }
      r := Success(found);
    }

    method ResolveEntries(data: Value, config: Option<SecretsConfig>) returns (r: Result<seq<(string, Value)>, Fault>)
      requires Valid() && data.Dict? && Clean(data, isUri) && NulFree(KeyParts("", config))
      requires cache.ttl == TtlOf(config)
      modifies this, cache
      ensures Valid() && old(calls) <= calls && old(servings) <= servings && cache.ttl == old(cache.ttl)
      ensures r.Success? ==> Resolved(data, Dict(r.value), isUri, config, calls)
      decreases data, 0
    {
      var found: seq<(string, Value)> := [];
      for i := 0 to |data.entries|
        invariant Valid() && old(calls) <= calls && old(servings) <= servings && cache.ttl == old(cache.ttl)
        invariant |found| == i
        invariant forall j ::
          0 <= j < i ==>
            found[j].0 == data.entries[j].0 && Resolved(data.entries[j].1, found[j].1, isUri, config, calls)
      {
        ghost var before := calls;
        var (key, value) := data.entries[i];
        assert value == data.entries[i].1;
        var resolved := ResolveSecretRefs(value, config);
        if resolved.Failure? {
          return Failure(resolved.error);
        }
        forall j | 0 <= j < i ensures Resolved(data.entries[j].1, found[j].1, isUri, config, calls) {
          ResolvedStays(data.entries[j].1, found[j].1, isUri, config, before, calls);
        }
        found := found + [(key, resolved.value)];
      }
      r := Success(found);
    }

    /** `clear_cache`. */
    method ClearCache()
      requires Valid()
      modifies cache`store, this`cleared
      ensures Valid() && cache.store == map[] && cleared == |calls|
    {
      cache.Clear();
      cleared := |calls|;
    }
  }
}
