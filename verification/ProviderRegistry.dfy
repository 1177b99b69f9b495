/**
 The lazy provider index of dblift/db/provider_registry.py.

 Descriptors are indexed under every alias they claim and their factories run only on the
 first matching lookup; a failing factory falls back along the per-key `previous` chain.
 The reference is an eager registry that runs every factory at registration, skips failures
 and lets the last success win. Every method is proved against that reference, for a fixed
 outcome per factory.
 */
module ProviderRegistry {
  import opened Basics

  datatype PluginInfo = PluginInfo(
    name: string, dialects: seq<string>, providerClass: string, quirksClass: Option<string>)

  datatype Descriptor = Descriptor(name: string, dialects: seq<string>, factory: string)

  datatype Registration = Plugin(info: PluginInfo) | Deferred(descriptor: Descriptor)

  /** A quirks object: the class it is an instance of and the dialect name it was built with. */
  datatype Quirks = Quirks(className: string, dialectName: string)

  /** What importing a factory reference yields; an absent reference raises or is no plugin. */
  type Factories = map<string, PluginInfo>

  const BASE_QUIRKS := "BaseQuirks"

  // ---------------------------------------------------------------- keys

  function LowerChar(c: char): char {
    if 'A' <= c <= 'Z' then ((c as int) - ('A' as int) + ('a' as int)) as char else c
  }

  function Lower(s: string): string {
    seq(|s|, i requires 0 <= i < |s| => LowerChar(s[i]))
  }

  function LowerAll(names: seq<string>): seq<string> {
    seq(|names|, i requires 0 <= i < |names| => Lower(names[i]))
  }

  /** First occurrences only, in order: `dict.fromkeys`. */
  function Dedup(names: seq<string>): (r: seq<string>)
    ensures forall k :: k in r <==> k in names
    ensures forall i, j :: 0 <= i < j < |r| ==> r[i] != r[j]
  {
    if names == [] then []
    else
      var last := names[|names| - 1];
      var front := Dedup(names[..|names| - 1]);
      assert names == names[..|names| - 1] + [last];
      if last in front then front else front + [last]
  }

  function PluginKeys(p: PluginInfo): seq<string> {
    LowerAll([p.name] + p.dialects)
  }

  function DescriptorKeys(d: Descriptor): seq<string> {
    LowerAll([d.name] + d.dialects)
  }

  predicate Covers(r: Registration, key: string) {
    match r
    case Plugin(p) => key in PluginKeys(p)
    case Deferred(d) => key in DescriptorKeys(d)
  }

  /** What a registration contributes once its factory, if any, has run. */
  function Outcome(factories: Factories, r: Registration): Option<PluginInfo> {
    match r
    case Plugin(p) => Some(p)
    case Deferred(d) => Get(factories, d.factory)
  }

  function KeysOf(r: Registration): seq<string> {
    match r
    case Plugin(p) => PluginKeys(p)
    case Deferred(d) => DescriptorKeys(d)
  }

  // ---------------------------------------------------------------- eager reference

  /** The table of a registry that loads at registration, skips failures and overwrites. */
  function EagerTable(factories: Factories, log: seq<Registration>): map<string, PluginInfo> {
    if log == [] then map[]
    else
      var before := EagerTable(factories, log[..|log| - 1]);
      var r := log[|log| - 1];
      match Outcome(factories, r)
      case None => before
      case Some(p) => before + (map k | k in KeysOf(r) :: p)
  }

  /** The eager answer for `key` after the first `n` registrations. */
  function AnswerAt(factories: Factories, log: seq<Registration>, n: nat, key: string)
    : Option<PluginInfo>
    requires n <= |log|
  {
    if n == 0 then None
    else if Covers(log[n - 1], key) && Outcome(factories, log[n - 1]).Some? then
      Outcome(factories, log[n - 1])
    else AnswerAt(factories, log, n - 1, key)
  }

  function Answer(factories: Factories, log: seq<Registration>, key: string): Option<PluginInfo> {
    Get(EagerTable(factories, log), key)
  }

  /** Registrations after the first `n` do not change the answer at `n`. */
  lemma {:induction false} AnswerAtPrefix(
    factories: Factories, log: seq<Registration>, more: seq<Registration>, n: nat, key: string)
    requires n <= |log|
    ensures AnswerAt(factories, log + more, n, key) == AnswerAt(factories, log, n, key)
  {
    if n > 0 {
      assert (log + more)[n - 1] == log[n - 1];
      AnswerAtPrefix(factories, log, more, n - 1, key);
    }
  }

  lemma {:induction false} EagerTableIsAnswerAt(
    factories: Factories, log: seq<Registration>, key: string)
    ensures Answer(factories, log, key) == AnswerAt(factories, log, |log|, key)
  {
    if log != [] {
      var init, last := log[..|log| - 1], log[|log| - 1];
      assert log == init + [last];
      EagerTableIsAnswerAt(factories, init, key);
      AnswerAtPrefix(factories, init, [last], |init|, key);
    }
  }

  /** Registration `i` succeeded for `key` and no later one among the first `n` did. */
  predicate LastSuccess(
    factories: Factories, log: seq<Registration>, n: nat, key: string, i: nat)
    requires n <= |log|
  {
    i < n && Covers(log[i], key) && Outcome(factories, log[i]).Some? &&
    forall j :: i < j < n && Covers(log[j], key) ==> Outcome(factories, log[j]).None?
  }

  /** The last success wins: what the eager table holds, stated without running it. */
  lemma EagerIsLastSuccess(factories: Factories, log: seq<Registration>, key: string)
    ensures Answer(factories, log, key).None? <==>
      forall i :: 0 <= i < |log| && Covers(log[i], key) ==> Outcome(factories, log[i]).None?
    ensures forall i: nat :: LastSuccess(factories, log, |log|, key, i) ==>
      Answer(factories, log, key) == Outcome(factories, log[i])
    ensures Answer(factories, log, key).Some? ==>
      exists i: nat :: LastSuccess(factories, log, |log|, key, i)
  {
    EagerTableIsAnswerAt(factories, log, key);
    LastSuccessWithin(factories, log, |log|, key);
  }

  lemma {:induction false} LastSuccessWithin(
    factories: Factories, log: seq<Registration>, n: nat, key: string)
    requires n <= |log|
    ensures AnswerAt(factories, log, n, key).None? <==>
      forall i :: 0 <= i < n && Covers(log[i], key) ==> Outcome(factories, log[i]).None?
    ensures forall i: nat :: LastSuccess(factories, log, n, key, i) ==>
      AnswerAt(factories, log, n, key) == Outcome(factories, log[i])
    ensures AnswerAt(factories, log, n, key).Some? ==>
      exists i: nat :: LastSuccess(factories, log, n, key, i)
  {
    if n > 0 {
      LastSuccessWithin(factories, log, n - 1, key);
      var succeeds := Covers(log[n - 1], key) && Outcome(factories, log[n - 1]).Some?;
      forall i: nat ensures LastSuccess(factories, log, n, key, i) <==>
        if succeeds then i == n - 1 else LastSuccess(factories, log, n - 1, key, i)
      {
        LastSuccessNext(factories, log, n, key, i);
      }
      if succeeds {
        assert LastSuccess(factories, log, n, key, n - 1);
      } else if AnswerAt(factories, log, n, key).Some? {
        var i: nat :| LastSuccess(factories, log, n - 1, key, i);
        assert LastSuccess(factories, log, n, key, i);
      }
    }
  }

  lemma LastSuccessNext(factories: Factories, log: seq<Registration>, n: nat, key: string, i: nat)
    requires 0 < n <= |log|
    ensures LastSuccess(factories, log, n, key, i) <==>
      if Covers(log[n - 1], key) && Outcome(factories, log[n - 1]).Some? then i == n - 1
      else LastSuccess(factories, log, n - 1, key, i)
  {
  }

  /** The quirks class an uncached lookup chooses. */
  function QuirksClassOf(answer: Option<PluginInfo>): string {
    if answer.Some? && answer.value.quirksClass.Some? then answer.value.quirksClass.value
    else BASE_QUIRKS
  }

  lemma LowerIdempotent(s: string)
    ensures Lower(Lower(s)) == Lower(s)
  {
  }

  // ---------------------------------------------------------------- what a reply must be

  /** The same letter in upper and lower case. */
  predicate CasePair(a: char, b: char) {
    'A' <= a <= 'Z' && b as int == a as int + 32
  }

  predicate SameLetter(a: char, b: char) {
    a == b || CasePair(a, b) || CasePair(b, a)
  }

  ghost predicate SameWord(a: string, b: string) {
    |a| == |b| && forall i :: 0 <= i < |a| ==> SameLetter(a[i], b[i])
  }

  /** The registration goes by that name in some letter case, as its name or as a dialect. */
  ghost predicate GoesBy(r: Registration, dbType: string) {
    match r
    case Plugin(p) => SameWord(p.name, dbType) || exists d :: d in p.dialects && SameWord(d, dbType)
    case Deferred(d) => SameWord(d.name, dbType) || exists n :: n in d.dialects && SameWord(n, dbType)
  }

  /** The registration is a plugin, or its factory gives one. */
  predicate Loads(factories: Factories, r: Registration) {
    r.Plugin? || r.descriptor.factory in factories
  }

  function Loaded(factories: Factories, r: Registration): PluginInfo
    requires Loads(factories, r)
  {
    if r.Plugin? then r.info else factories[r.descriptor.factory]
  }

  /** Registration `i` goes by the name and loads, and no later one does. */
  ghost predicate Wins(factories: Factories, log: seq<Registration>, dbType: string, i: nat) {
    && i < |log| && GoesBy(log[i], dbType) && Loads(factories, log[i])
    && forall j :: i < j < |log| && GoesBy(log[j], dbType) ==> !Loads(factories, log[j])
  }

  ghost predicate NoneWins(factories: Factories, log: seq<Registration>, dbType: string) {
    forall i :: 0 <= i < |log| && GoesBy(log[i], dbType) ==> !Loads(factories, log[i])
  }

  /** A lookup gives the plugin of the winning registration, and nothing if there is none. */
  ghost predicate RightPlugin(
    factories: Factories, log: seq<Registration>, dbType: string, answer: Option<PluginInfo>) {
    && (forall i: nat :: Wins(factories, log, dbType, i) ==> answer == Some(Loaded(factories, log[i])))
    && (NoneWins(factories, log, dbType) ==> answer == None)
  }

  /** The quirks have the class the winning plugin declares, and the base class if it declares none. */
  ghost predicate RightQuirks(factories: Factories, log: seq<Registration>, dbType: string, q: Quirks) {
    && (forall i: nat, c :: Wins(factories, log, dbType, i) && Loaded(factories, log[i]).quirksClass == Some(c) ==>
          q.className == c)
    && (forall i: nat :: Wins(factories, log, dbType, i) && Loaded(factories, log[i]).quirksClass == None ==>
          q.className == "BaseQuirks")
    && (NoneWins(factories, log, dbType) ==> q.className == "BaseQuirks")
    && SameWord(q.dialectName, dbType) && forall c :: c in q.dialectName ==> !('A' <= c <= 'Z')
  }

  lemma LowerLetter(a: char, b: char)
    ensures LowerChar(a) == LowerChar(b) <==> SameLetter(a, b)
    ensures !('A' <= LowerChar(a) <= 'Z')
  {
  }

  lemma LowerWord(a: string, b: string)
    ensures Lower(a) == Lower(b) <==> SameWord(a, b)
  {
    if |a| == |b| {
      forall i | 0 <= i < |a| ensures Lower(a)[i] == Lower(b)[i] <==> SameLetter(a[i], b[i]) {
        LowerLetter(a[i], b[i]);
      }
      assert (forall i :: 0 <= i < |a| ==> Lower(a)[i] == Lower(b)[i]) ==> Lower(a) == Lower(b);
    }
  }

  lemma LowerIsLower(s: string)
    ensures SameWord(Lower(s), s) && forall c :: c in Lower(s) ==> !('A' <= c <= 'Z')
  {
    LowerIdempotent(s);
    LowerWord(Lower(s), s);
    forall i | 0 <= i < |s| ensures !('A' <= Lower(s)[i] <= 'Z') {
      LowerLetter(s[i], s[i]);
    }
  }

  lemma LowerAllHolds(names: seq<string>, name: string)
    ensures Lower(name) in LowerAll(names) <==> exists n :: n in names && SameWord(n, name)
  {
    if Lower(name) in LowerAll(names) {
      var i :| 0 <= i < |names| && LowerAll(names)[i] == Lower(name);
      LowerWord(names[i], name);
      assert names[i] in names;
    }
    if n :| n in names && SameWord(n, name) {
      LowerWord(n, name);
      var i :| 0 <= i < |names| && names[i] == n;
      assert LowerAll(names)[i] == Lower(name);
    }
  }

  lemma CoversMeans(r: Registration, name: string)
    ensures Covers(r, Lower(name)) <==> GoesBy(r, name)
  {
    match r {
      case Plugin(p) =>
        LowerAllHolds([p.name] + p.dialects, name);
      case Deferred(d) =>
        LowerAllHolds([d.name] + d.dialects, name);
    }
  }

  lemma OutcomeMeans(factories: Factories, r: Registration)
    ensures Outcome(factories, r) == if Loads(factories, r) then Some(Loaded(factories, r)) else None
  {
  }

  lemma WinsMeans(factories: Factories, log: seq<Registration>, name: string, i: nat)
    ensures Wins(factories, log, name, i) <==> LastSuccess(factories, log, |log|, Lower(name), i)
  {
    forall r ensures Covers(r, Lower(name)) <==> GoesBy(r, name) {
      CoversMeans(r, name);
    }
  }

  lemma AnswerIsRight(factories: Factories, log: seq<Registration>, name: string)
    ensures RightPlugin(factories, log, name, Answer(factories, log, Lower(name)))
  {
    EagerIsLastSuccess(factories, log, Lower(name));
    forall i: nat | Wins(factories, log, name, i)
      ensures Answer(factories, log, Lower(name)) == Some(Loaded(factories, log[i]))
    {
      WinsMeans(factories, log, name, i);
    }
    if NoneWins(factories, log, name) {
      forall i | 0 <= i < |log| && Covers(log[i], Lower(name)) ensures Outcome(factories, log[i]).None? {
        CoversMeans(log[i], name);
      }
    }
  }

  lemma SomeoneWins(factories: Factories, log: seq<Registration>, name: string)
    ensures NoneWins(factories, log, name) || exists i: nat :: Wins(factories, log, name, i)
  {
    EagerIsLastSuccess(factories, log, Lower(name));
    if !NoneWins(factories, log, name) {
      var j :| 0 <= j < |log| && GoesBy(log[j], name) && Loads(factories, log[j]);
      CoversMeans(log[j], name);
      var i: nat :| LastSuccess(factories, log, |log|, Lower(name), i);
      WinsMeans(factories, log, name, i);
    }
  }

  /** What the quirks of the eager answer are, over the registrations alone. */
  lemma QuirksAreRight(factories: Factories, log: seq<Registration>, name: string)
    ensures RightQuirks(
      factories, log, name, Quirks(QuirksClassOf(Answer(factories, log, Lower(name))), Lower(name)))
  {
    AnswerIsRight(factories, log, name);
    LowerIsLower(name);
  }

  /** `now` is `was` with every key of `keys` set to `v`, or popped when `v` is `None`. */
  ghost predicate Assigned<V>(was: map<string, V>, now: map<string, V>, keys: seq<string>, v: Option<V>) {
    forall k: string :: Get(now, k) == if k in keys then v else Get(was, k)
  }

  // ---------------------------------------------------------------- the lazy registry

  class LazyPlugin {
    const descriptor: Descriptor
    var loaded: Option<PluginInfo>
    var previous: map<string, LazyPlugin>
    /** Position of the registration in the registry's log. */
    ghost const at: nat

    constructor (descriptor: Descriptor, ghost at: nat)
      ensures this.descriptor == descriptor && this.at == at
      ensures loaded == None && previous == map[]
    {
      this.descriptor := descriptor;
      this.at := at;
      loaded := None;
      previous := map[];
    }
  }

  class Registry {
    const factories: Factories
    var plugins: map<string, PluginInfo>
    var pending: map<string, LazyPlugin>
    var quirksCache: map<string, Quirks>

    /** Every registration made, in order. */
    ghost var log: seq<Registration>
    /** Every entry ever indexed. */
    ghost var entries: set<LazyPlugin>
    /** Every factory run, in order. */
    ghost var attempts: seq<LazyPlugin>
    /** Per key, the number of registrations already settled into `plugins`. */
    ghost var since: map<string, nat>

    ghost function Settled(k: string): nat
      reads this
    {
      if k in since then since[k] else 0
    }

    /** How far down its chain a lookup of `k` still has to go at most. */
    ghost function Rank(k: string): nat
      reads this
    {
      if k in pending then pending[k].at + 1 else 0
    }

    ghost function AnswerNow(k: string): Option<PluginInfo>
      reads this
    {
      AnswerAt(factories, log, |log|, k)
    }

    /** The chain of `e` under `k` falls back to the older entry `p`. */
    ghost predicate FallsBackTo(e: LazyPlugin, k: string, p: LazyPlugin)
      requires e.at < |log|
      reads this
    {
      && p in entries && p.at < e.at && k in DescriptorKeys(p.descriptor)
      && (Settled(k) <= e.at ==>
        && Settled(k) <= p.at
        && AnswerAt(factories, log, e.at, k) == AnswerAt(factories, log, p.at + 1, k))
    }

    /** What the link of entry `e` under `k` means while `k` is not settled past it. */
    ghost predicate LinkValid(e: LazyPlugin, k: string)
      requires e.at < |log|
      reads this, e
    {
      && (k in e.previous ==> FallsBackTo(e, k, e.previous[k]))
      && (k !in e.previous && Settled(k) <= e.at ==>
        AnswerAt(factories, log, e.at, k) == Get(plugins, k))
    }

    ghost predicate EntryValid(e: LazyPlugin)
      reads this, e
    {
      && e.at < |log| && log[e.at] == Deferred(e.descriptor)
      && (forall k :: k in e.previous ==> k in DescriptorKeys(e.descriptor))
      && (forall k :: k in DescriptorKeys(e.descriptor) ==> LinkValid(e, k))
    }

    /** Entry `e` is where a lookup of `k` starts: nothing newer than `e` succeeded for `k`. */
    ghost predicate Heads(e: LazyPlugin, k: string)
      reads this
    {
      && e in entries && e.at < |log| && k in DescriptorKeys(e.descriptor)
      && Settled(k) <= e.at
      && AnswerNow(k) == AnswerAt(factories, log, e.at + 1, k)
    }

    ghost predicate KeyValid(k: string)
      reads this
    {
      && Settled(k) <= |log|
      && (k in pending ==> Heads(pending[k], k))
      && (k !in pending ==> Get(plugins, k) == AnswerNow(k))
    }

    ghost predicate QuirksValid()
      reads this
    {
      forall k :: k in quirksCache ==> quirksCache[k] == Quirks(QuirksClassOf(AnswerNow(k)), k)
    }

    /** A factory that succeeds runs at most once, and what it gave is kept. */
    ghost predicate LoadsValid()
      reads this, entries
    {
      && (forall e :: e in attempts ==> e in entries)
      && (forall e :: e in entries ==>
            e.loaded == if e in attempts then Get(factories, e.descriptor.factory) else None)
      && (forall i, j :: 0 <= i < j < |attempts| && attempts[i] == attempts[j] ==>
            attempts[i].descriptor.factory !in factories)
    }

    ghost predicate Valid()
      reads this, entries
    {
      && (forall e :: e in entries ==> EntryValid(e))
      && (forall k: string :: KeyValid(k))
      && QuirksValid()
      && LoadsValid()
    }

    constructor (factories: Factories)
      ensures Valid() && this.factories == factories
      ensures log == [] && attempts == [] && pending == map[] && plugins == map[]
      ensures entries == {}
    {
      this.factories := factories;
      plugins, pending, quirksCache := map[], map[], map[];
      log, entries, attempts, since := [], {}, [], map[];
    }

    /** Exactly one registration was logged. */
    twostate predicate OneMore()
      reads this
    {
      |log| > 0 && log == old(log) + [Last()]
    }

    ghost function Last(): Registration
      requires |log| > 0
      reads this
    {
      log[|log| - 1]
    }

    /** One more registration `r` leaves a key it does not cover, or fails for, as it was. */
    twostate lemma KeyKept(k: string)
      requires old(KeyValid(k)) && OneMore()
      requires Get(pending, k) == old(Get(pending, k)) && Get(plugins, k) == old(Get(plugins, k))
      requires Settled(k) == old(Settled(k)) && old(entries) <= entries
      requires !Covers(Last(), k)
      ensures KeyValid(k) && AnswerNow(k) == old(AnswerNow(k))
    {
      AnswerAtPrefix(factories, old(log), [Last()], |old(log)|, k);
      if k in pending {
        AnswerAtPrefix(factories, old(log), [Last()], pending[k].at + 1, k);
      }
    }

    /** An entry survives one more registration that touches no node and settles whole keys. */
    twostate lemma EntryKept(e: LazyPlugin)
      requires old(EntryValid(e)) && OneMore()
      requires old(entries) <= entries && e.previous == old(e.previous)
      requires forall k: string ::
        || Settled(k) == |log|
        || (Settled(k) == old(Settled(k)) && Get(plugins, k) == old(Get(plugins, k)))
      ensures EntryValid(e)
    {
      forall k | k in DescriptorKeys(e.descriptor) ensures LinkValid(e, k) {
        assert old(LinkValid(e, k));
        AnswerAtPrefix(factories, old(log), [Last()], e.at, k);
        if k in e.previous {
          AnswerAtPrefix(factories, old(log), [Last()], e.previous[k].at + 1, k);
        }
      }
    }

    /** So do all of them when no key is settled anew. */
    twostate lemma EntriesKept()
      requires old(Valid()) && OneMore() && old(entries) <= entries
      requires plugins == old(plugins) && since == old(since)
      requires forall e :: e in old(entries) ==> e.previous == old(e.previous)
      requires forall e :: e in old(entries) ==> e.loaded == old(e.loaded)
      ensures forall e :: e in old(entries) ==> EntryValid(e)
    {
      forall e | e in old(entries) ensures EntryValid(e) {
        EntryKept(e);
      }
    }

    twostate lemma AnswerNowKept(k: string)
      requires OneMore() && k !in KeysOf(Last())
      ensures AnswerNow(k) == old(AnswerNow(k))
    {
      AnswerAtPrefix(factories, old(log), [Last()], |old(log)|, k);
    }

    /** The cache stays right when the covered keys are dropped from it. */
    twostate lemma QuirksKept()
      requires old(QuirksValid()) && OneMore()
      requires Assigned(old(quirksCache), quirksCache, KeysOf(Last()), None)
      ensures QuirksValid()
    {
      forall k | k in quirksCache
        ensures quirksCache[k] == Quirks(QuirksClassOf(AnswerNow(k)), k)
      {
        assert Get(quirksCache, k).Some?;
        AnswerNowKept(k);
      }
    }

    /** Caching quirks leaves the chains as they are. */
    twostate lemma OnlyCacheChanged()
      requires old(Valid()) && log == old(log) && entries == old(entries) && since == old(since)
      requires pending == old(pending) && plugins == old(plugins)
      requires forall e :: e in entries ==> e.previous == old(e.previous) && e.loaded == old(e.loaded)
      ensures forall k: string :: KeyValid(k)
      ensures forall e :: e in entries ==> EntryValid(e)
    {
      forall k: string ensures KeyValid(k) {
        assert old(KeyValid(k));
      }
      forall e | e in entries ensures EntryValid(e) {
        assert old(EntryValid(e));
      }
    }

    /** A fresh entry indexed under its own keys satisfies the chain invariant. */
    twostate lemma EntryAdded(new e: LazyPlugin)
      requires old(Valid()) && log == old(log) + [Deferred(e.descriptor)] && e.at == |old(log)|
      requires old(entries) <= entries && plugins == old(plugins) && since == old(since)
      requires forall k ::
        Get(e.previous, k) == if k in DescriptorKeys(e.descriptor) then Get(old(pending), k) else None
      ensures EntryValid(e)
    {
      forall k | k in e.previous ensures k in DescriptorKeys(e.descriptor) {
        assert Get(e.previous, k).Some?;
      }
      forall k | k in DescriptorKeys(e.descriptor) ensures LinkValid(e, k) {
        assert old(KeyValid(k));
        assert Get(e.previous, k) == Get(old(pending), k);
        AnswerAtPrefix(factories, old(log), [log[e.at]], |old(log)|, k);
        if k in old(pending) {
          AnswerAtPrefix(factories, old(log), [log[e.at]], old(pending)[k].at + 1, k);
        }
      }
    }

    /** Indexed under its own keys, a new entry is where their lookups start. */
    twostate lemma KeysIndexed(new e: LazyPlugin)
      requires old(Valid()) && log == old(log) + [Deferred(e.descriptor)] && e.at == |old(log)|
      requires e in entries && old(entries) <= entries && plugins == old(plugins) && since == old(since)
      requires Assigned(old(pending), pending, DescriptorKeys(e.descriptor), Some(e))
      ensures forall k: string :: KeyValid(k)
    {
      forall k: string ensures KeyValid(k) {
        assert old(KeyValid(k));
        assert Get(pending, k) == if k in DescriptorKeys(e.descriptor) then Some(e) else Get(old(pending), k);
        if k !in DescriptorKeys(e.descriptor) {
          KeyKept(k);
        }
      }
    }

    /** A plugin taken over under its keys is their answer from now on. */
    twostate lemma KeysTakenOver()
      requires old(Valid()) && OneMore() && Last().Plugin? && entries == old(entries)
      requires Assigned(old(pending), pending, KeysOf(Last()), None)
      requires Assigned(old(plugins), plugins, KeysOf(Last()), Some(Last().info))
      requires forall k: string :: Settled(k) == if k in KeysOf(Last()) then |log| else old(Settled(k))
      ensures forall k: string :: KeyValid(k)
    {
      forall k: string ensures KeyValid(k) {
        assert old(KeyValid(k));
        assert Get(pending, k) == if k in KeysOf(Last()) then None else Get(old(pending), k);
        assert Get(plugins, k) == if k in KeysOf(Last()) then Some(Last().info) else Get(old(plugins), k);
        if k !in KeysOf(Last()) {
          KeyKept(k);
        }
      }
    }

    /** The loop of `_register_descriptor` over the de-duplicated lower-case aliases. */
    method Index(entry: LazyPlugin, keys: seq<string>)
      requires entry.previous == map[]
      requires forall i, j :: 0 <= i < j < |keys| ==> keys[i] != keys[j]
      modifies this`pending, this`quirksCache, entry`previous
      ensures Assigned(old(pending), pending, keys, Some(entry))
      ensures Assigned(old(quirksCache), quirksCache, keys, None)
      ensures forall k ::
        Get(entry.previous, k) == if k in keys then Get(old(pending), k) else None
    {
      for i := 0 to |keys|
        invariant Assigned(old(pending), pending, keys[..i], Some(entry))
        invariant Assigned(old(quirksCache), quirksCache, keys[..i], None)
        invariant forall k ::
          Get(entry.previous, k) == if k in keys[..i] then Get(old(pending), k) else None
      {
        var key := keys[i];
        assert key !in keys[..i];
        assert Get(pending, key) == Get(old(pending), key);
        if key in pending {
          entry.previous := entry.previous[key := pending[key]];
        }
        pending := pending[key := entry];
        quirksCache := quirksCache - {key};
        assert keys[..i + 1] == keys[..i] + [key];
      }
      assert keys[..|keys|] == keys;
    }

    method IndexAliases(entry: LazyPlugin)
      requires entry.previous == map[]
      modifies this`pending, this`quirksCache, entry`previous
      ensures Assigned(old(pending), pending, DescriptorKeys(entry.descriptor), Some(entry))
      ensures Assigned(old(quirksCache), quirksCache, DescriptorKeys(entry.descriptor), None)
      ensures forall k ::
        Get(entry.previous, k) == if k in DescriptorKeys(entry.descriptor) then Get(old(pending), k) else None
    {
      Index(entry, Dedup(DescriptorKeys(entry.descriptor)));
    }

    /** `_register_descriptor`: index under every alias, remember what each alias held. */
    method RegisterDescriptor(descriptor: Descriptor) returns (ghost entry: LazyPlugin)
      requires Valid()
      modifies this`pending, this`quirksCache, this`log, this`entries
      ensures Valid()
      ensures log == old(log) + [Deferred(descriptor)]
      ensures fresh(entry) && entries == old(entries) + {entry} && entry.descriptor == descriptor
      ensures Assigned(old(pending), pending, DescriptorKeys(descriptor), Some(entry))
      ensures Assigned(old(quirksCache), quirksCache, DescriptorKeys(descriptor), None)
    {
      var added := new LazyPlugin(descriptor, |log|);
      entry := added;
      IndexAliases(added);
      log := log + [Deferred(descriptor)];
      entries := entries + {entry};
      KeysIndexed(entry);
      EntryAdded(entry);
      EntriesKept();
      QuirksKept();
    }

    /** The loop of `register_plugin` over the lower-case aliases. */
    method TakeOver(keys: seq<string>, info: PluginInfo)
      modifies this`pending, this`plugins, this`quirksCache
      ensures Assigned(old(pending), pending, keys, None)
      ensures Assigned(old(plugins), plugins, keys, Some(info))
      ensures Assigned(old(quirksCache), quirksCache, keys, None)
    {
      for i := 0 to |keys|
        invariant Assigned(old(pending), pending, keys[..i], None)
        invariant Assigned(old(plugins), plugins, keys[..i], Some(info))
        invariant Assigned(old(quirksCache), quirksCache, keys[..i], None)
      {
        assert keys[..i + 1] == keys[..i] + [keys[i]];
        pending := pending - {keys[i]};
        plugins := plugins[keys[i] := info];
        quirksCache := quirksCache - {keys[i]};
      }
      assert keys[..|keys|] == keys;
    }

    /** `register_plugin`: a loaded plugin takes over every alias at once. */
    method RegisterPlugin(info: PluginInfo)
      requires Valid()
      modifies this`pending, this`plugins, this`quirksCache, this`log, this`since
      ensures Valid()
      ensures log == old(log) + [Plugin(info)]
      ensures Assigned(old(pending), pending, PluginKeys(info), None)
      ensures Assigned(old(plugins), plugins, PluginKeys(info), Some(info))
      ensures Assigned(old(quirksCache), quirksCache, PluginKeys(info), None)
    {
      var keys := PluginKeys(info);
      TakeOver(keys, info);
      log := log + [Plugin(info)];
      since := since + map k | k in keys :: |log|;
      KeysTakenOver();
      assert forall k: string :: k !in keys ==> Get(plugins, k) == Get(old(plugins), k);
      forall e | e in entries ensures EntryValid(e) {
        EntryKept(e);
      }
      QuirksKept();
    }

    /** The failure branch of `_resolve_plugin`: every alias of `e` falls back one step. */
    method FallBack(e: LazyPlugin)
      modifies this`pending
      ensures forall a ::
        Get(pending, a) == if Get(old(pending), a) == Some(e) then Get(e.previous, a) else Get(old(pending), a)
    {
      var todo := pending.Keys;
      while todo != {}
        invariant todo <= old(pending).Keys
        invariant forall a ::
          Get(pending, a) == if a !in todo && Get(old(pending), a) == Some(e) then Get(e.previous, a)
          else Get(old(pending), a)
        decreases |todo|
      {
        var alias :| alias in todo;
        assert Get(pending, alias) == Get(old(pending), alias);
        if pending[alias] == e {
          if alias in e.previous {
            pending := pending[alias := e.previous[alias]];
          } else {
            pending := pending - {alias};
          }
        }
        todo := todo - {alias};
      }
    }

    /** The success branch of `_resolve_plugin`: every alias still holding `e` is settled. */
    method Promote(e: LazyPlugin)
      requires e.loaded.Some?
      modifies this`pending, this`plugins
      ensures forall a ::
        Get(pending, a) == if Get(old(pending), a) == Some(e) then None else Get(old(pending), a)
      ensures forall a ::
        Get(plugins, a) == if Get(old(pending), a) == Some(e) then e.loaded else Get(old(plugins), a)
    {
      var todo := pending.Keys;
      while todo != {}
        invariant todo <= old(pending).Keys
        invariant forall a ::
          Get(pending, a) == if a !in todo && Get(old(pending), a) == Some(e) then None else Get(old(pending), a)
        invariant forall a ::
          Get(plugins, a) == if a !in todo && Get(old(pending), a) == Some(e) then e.loaded else Get(old(plugins), a)
        decreases |todo|
      {
        var alias :| alias in todo;
        assert Get(pending, alias) == Get(old(pending), alias);
        if pending[alias] == e {
          plugins := plugins[alias := e.loaded.value];
          pending := pending - {alias};
        }
        todo := todo - {alias};
      }
    }

    /** Run the factory of an entry that holds no plugin yet. */
    method LoadFactory(e: LazyPlugin)
      requires Valid() && e in entries && e.loaded.None?
      modifies e`loaded, this`attempts
      ensures Valid()
      ensures e.loaded == Get(factories, e.descriptor.factory)
      ensures attempts == old(attempts) + [e]
    {
      e.loaded := Get(factories, e.descriptor.factory);
      attempts := attempts + [e];
      forall x | x in entries ensures EntryValid(x) {
        assert old(EntryValid(x));
        forall k | k in DescriptorKeys(x.descriptor) ensures LinkValid(x, k) {
          assert old(LinkValid(x, k));
        }
      }
      forall k: string ensures KeyValid(k) {
        assert old(KeyValid(k));
      }
    }

    /** Falling back past a failed entry changes no key's answer. */
    method DropFailed(e: LazyPlugin)
      requires Valid() && e in entries && e.descriptor.factory !in factories
      modifies this`pending
      ensures Valid()
      ensures pending.Keys <= old(pending.Keys)
      ensures forall a :: a in old(pending) && old(pending)[a] == e ==> Rank(a) < old(Rank(a))
    {
      FallBack(e);
      forall x | x in entries ensures EntryValid(x) {
        assert old(EntryValid(x));
        forall k | k in DescriptorKeys(x.descriptor) ensures LinkValid(x, k) {
          assert old(LinkValid(x, k));
        }
      }
      forall k: string ensures KeyValid(k) {
        assert old(KeyValid(k));
        assert Get(pending, k) ==
          if Get(old(pending), k) == Some(e) then Get(e.previous, k) else Get(old(pending), k);
        if Get(old(pending), k) == Some(e) {
          assert LinkValid(e, k);
        }
      }
      forall a | a in pending ensures a in old(pending) {
        assert Get(pending, a).Some?;
      }
      forall a | a in old(pending) && old(pending)[a] == e ensures Rank(a) < old(Rank(a)) {
        assert Get(pending, a) == Get(e.previous, a);
        assert old(KeyValid(a)) && old(LinkValid(e, a));
      }
    }

    /** Settling a loaded entry changes no key's answer. */
    method SettleLoaded(e: LazyPlugin)
      requires Valid() && e in entries && e.loaded.Some?
      modifies this`pending, this`plugins, this`since
      ensures Valid()
      ensures pending.Keys <= old(pending.Keys)
      ensures forall a :: a in old(pending) && old(pending)[a] == e ==> a !in pending
    {
      Promote(e);
      since := since + map k | k in old(pending) && old(pending)[k] == e :: |log|;
      forall k: string ensures KeyValid(k) {
        assert old(KeyValid(k));
        assert Get(pending, k) == if Get(old(pending), k) == Some(e) then None else Get(old(pending), k);
        assert Get(plugins, k) == if Get(old(pending), k) == Some(e) then e.loaded else Get(old(plugins), k);
      }
      forall a | a in pending ensures a in old(pending) {
        assert Get(pending, a).Some?;
      }
      forall a | a in old(pending) && old(pending)[a] == e ensures a !in pending {
        assert Get(pending, a).None?;
      }
      forall x | x in entries ensures EntryValid(x) {
        assert old(EntryValid(x));
        forall k | k in DescriptorKeys(x.descriptor) ensures LinkValid(x, k) {
          assert old(LinkValid(x, k));
          assert Get(plugins, k) == if Get(old(pending), k) == Some(e) then e.loaded else Get(old(plugins), k);
        }
      }
    }

    /** One turn of the loop in `_resolve_plugin` on a pending key; `settled` ends the loop. */
    method ResolveStep(key: string) returns (settled: bool)
      requires Valid() && key in pending
      modifies this`pending, this`plugins, this`since, this`attempts, entries`loaded
      ensures Valid()
      ensures settled ==> key !in pending
      ensures Rank(key) < old(Rank(key))
      ensures pending.Keys <= old(pending.Keys)
      ensures attempts == old(attempts) ||
        (attempts == old(attempts) + [old(pending)[key]] && key in DescriptorKeys(old(pending)[key].descriptor))
    {
      var entry := pending[key];
      assert KeyValid(key);
      if entry.loaded.None? {
        LoadFactory(entry);
      }
      if entry.loaded.None? {
        DropFailed(entry);
        settled := false;
      } else {
        SettleLoaded(entry);
        settled := true;
      }
    }

    lemma SettledAnswer(key: string)
      requires Valid() && key !in pending
      ensures Get(plugins, key) == Answer(factories, log, key)
    {
      assert KeyValid(key);
      EagerTableIsAnswerAt(factories, log, key);
    }

    /**
     `_resolve_plugin`: the answer is the eager one, the key leaves the pending index, only
     factories claiming the key are run, and no other key's answer can change because the
     registrations do not. An absent `db_type` is looked up as the empty string.
     */
    method Resolve(dbType: string) returns (answer: Option<PluginInfo>)
      requires Valid()
      modifies this`pending, this`plugins, this`since, this`attempts, entries`loaded
      ensures Valid()
      ensures answer == Answer(factories, log, Lower(dbType)) && RightPlugin(factories, log, dbType, answer)
      ensures Lower(dbType) !in pending && answer == Get(plugins, Lower(dbType))
      ensures pending.Keys <= old(pending.Keys)
      ensures old(attempts) <= attempts
      ensures forall i :: |old(attempts)| <= i < |attempts| ==>
        Lower(dbType) in DescriptorKeys(attempts[i].descriptor)
    {
      var key := Lower(dbType);
      while true
        invariant Valid() && log == old(log) && entries == old(entries)
        invariant pending.Keys <= old(pending.Keys)
        invariant old(attempts) <= attempts
        invariant forall i :: |old(attempts)| <= i < |attempts| ==>
          key in DescriptorKeys(attempts[i].descriptor)
        decreases Rank(key)
      {
        if key !in pending {
          break;
        }
        var settled := ResolveStep(key);
        if settled {
          break;
        }
      }
      SettledAnswer(key);
      AnswerIsRight(factories, log, dbType);
      return Get(plugins, key);
    }

    /** `get_quirks`: cached or not, the class an uncached lookup chooses, named after the key. */
    method GetQuirks(dbType: string) returns (q: Quirks)
      requires Valid()
      modifies this`pending, this`plugins, this`since, this`attempts, this`quirksCache, entries`loaded
      ensures Valid()
      ensures q == Quirks(QuirksClassOf(Answer(factories, log, Lower(dbType))), Lower(dbType))
      ensures RightQuirks(factories, log, dbType, q)
      ensures quirksCache == old(quirksCache)[Lower(dbType) := q]
    {
      var normalized := Lower(dbType);
      EagerTableIsAnswerAt(factories, log, normalized);
      QuirksAreRight(factories, log, dbType);
      if normalized in quirksCache {
        assert quirksCache == quirksCache[normalized := quirksCache[normalized]];
        return quirksCache[normalized];
      }
      LowerIdempotent(dbType);
      var info := Resolve(normalized);
      q := Quirks(QuirksClassOf(info), normalized);
      label resolved:
      quirksCache := quirksCache[normalized := q];
      OnlyCacheChanged@resolved();
    }

    /**
     `list_plugins`: empties the pending index, so the table becomes the eager one, and gives
     one plugin per name found in it.
     */
    method ListPlugins() returns (found: seq<PluginInfo>)
      requires Valid()
      modifies this`pending, this`plugins, this`since, this`attempts, entries`loaded
      ensures Valid()
      ensures pending == map[]
      ensures plugins == EagerTable(factories, log)
      ensures OnePerName(found, plugins.Values)
    {
      var keys := pending.Keys;
      while keys != {}
        invariant Valid() && pending.Keys <= keys
        invariant log == old(log) && entries == old(entries)
        decreases |keys|
      {
        var key :| key in keys;
        ResolveKey(key);
        keys := keys - {key};
      }
      assert plugins == EagerTable(factories, log) by {
        forall k: string ensures Get(plugins, k) == Get(EagerTable(factories, log), k) {
          assert KeyValid(k);
          EagerTableIsAnswerAt(factories, log, k);
        }
        SameLookups(plugins, EagerTable(factories, log));
      }
      found := UniqueByName(plugins.Values);
    }

    /** `_resolve_plugin` on a key of the index; it may be looked up under a lower-case form. */
    method ResolveKey(key: string)
      requires Valid()
      modifies this`pending, this`plugins, this`since, this`attempts, entries`loaded
      ensures Valid() && key !in pending && pending.Keys <= old(pending.Keys)
    {
      if key in pending {
        assert KeyValid(key);
        DescriptorKeysAreLower(pending[key].descriptor, key);
      }
      var _ := Resolve(key);
    }
  }

  /** Every indexed key is already in lower case, so looking it up again finds it. */
  lemma DescriptorKeysAreLower(d: Descriptor, key: string)
    requires key in DescriptorKeys(d)
    ensures Lower(key) == key
  {
    var names := [d.name] + d.dialects;
    var i :| 0 <= i < |names| && key == Lower(names[i]);
    LowerIdempotent(names[i]);
  }

  lemma SameLookups<V>(m: map<string, V>, n: map<string, V>)
    requires forall k: string :: Get(m, k) == Get(n, k)
    ensures m == n
  {
    assert forall k: string :: k in m <==> Get(m, k).Some?;
    assert forall k: string :: k in n <==> Get(n, k).Some?;
  }

  function Names(values: set<PluginInfo>): set<string> {
    set p | p in values :: p.name
  }

  /** No name twice, nothing from outside `values`, and every name of `values`. */
  ghost predicate OnePerName(found: seq<PluginInfo>, values: set<PluginInfo>) {
    && (forall i, j :: 0 <= i < j < |found| ==> found[i].name != found[j].name)
    && (set p | p in found) <= values
    && NamesIn(found) == Names(values)
  }

  function NamesIn(found: seq<PluginInfo>): set<string> {
    set p | p in found :: p.name
  }

  lemma TakeOne(found: seq<PluginInfo>, taken: set<PluginInfo>, p: PluginInfo)
    requires OnePerName(found, taken)
    ensures OnePerName(if p.name in NamesIn(found) then found else found + [p], taken + {p})
    ensures NamesIn(found + [p]) == NamesIn(found) + {p.name}
  {
    forall n | n in NamesIn(found) + {p.name} ensures n in NamesIn(found + [p]) {
      var q :| q in found + [p] && q.name == n;
    }
    assert Names(taken + {p}) == Names(taken) + {p.name} by {
      forall n | n in Names(taken) + {p.name} ensures n in Names(taken + {p}) {
        var q :| q in taken + {p} && q.name == n;
      }
    }
    if p.name !in NamesIn(found) {
      forall i | 0 <= i < |found| ensures found[i].name != p.name {
        assert found[i] in found;
      }
    }
  }

  method UniqueByName(values: set<PluginInfo>) returns (found: seq<PluginInfo>)
    ensures OnePerName(found, values)
  {
    var seen: set<string> := {};
    var left := values;
    found := [];
    while left != {}
      invariant left <= values
      invariant OnePerName(found, values - left)
      invariant seen == NamesIn(found)
      decreases |left|
    {
      var p :| p in left;
      TakeOne(found, values - left, p);
      assert values - (left - {p}) == (values - left) + {p};
      left := left - {p};
      if p.name !in seen {
        seen := seen + {p.name};
        found := found + [p];
      }
    }
    assert values - left == values;
  }

  // ---------------------------------------------------------------- whole runs

  datatype Operation =
    | Register(registration: Registration)
    | Lookup(dbType: string)
    | AskQuirks(dbType: string)
    | List

  datatype Reply = Silent | Found(plugin: Option<PluginInfo>) | Given(quirks: Quirks) | Listed(names: set<string>)

  /** What an eager registry replies, given what was registered before. */
  function EagerReply(factories: Factories, log: seq<Registration>, op: Operation): Reply {
    match op
    case Register(_) => Silent
    case Lookup(k) => Found(Answer(factories, log, Lower(k)))
    case AskQuirks(k) => Given(Quirks(QuirksClassOf(Answer(factories, log, Lower(k))), Lower(k)))
    case List => Listed(Names(EagerTable(factories, log).Values))
  }

  /** The plugins some name leads to, each under its own name. */
  ghost predicate RightNames(factories: Factories, log: seq<Registration>, names: set<string>) {
    forall n :: n in names <==>
      exists dbType, i: nat :: Wins(factories, log, dbType, i) && Loaded(factories, log[i]).name == n
  }

  ghost predicate RightReply(factories: Factories, log: seq<Registration>, op: Operation, reply: Reply) {
    match op
    case Register(_) => reply == Silent
    case Lookup(k) => reply.Found? && RightPlugin(factories, log, k, reply.plugin)
    case AskQuirks(k) => reply.Given? && RightQuirks(factories, log, k, reply.quirks)
    case List => reply.Listed? && RightNames(factories, log, reply.names)
  }

  lemma NamesAreRight(factories: Factories, log: seq<Registration>)
    ensures RightNames(factories, log, Names(EagerTable(factories, log).Values))
  {
    var table := EagerTable(factories, log);
    forall n | n in Names(table.Values)
      ensures exists name, i: nat :: Wins(factories, log, name, i) && Loaded(factories, log[i]).name == n
    {
      var key :| key in table && table[key].name == n;
      TableKeysAreLower(factories, log, key);
      assert Answer(factories, log, Lower(key)) == Some(table[key]);
      AnswerIsRight(factories, log, key);
      SomeoneWins(factories, log, key);
      var i: nat :| Wins(factories, log, key, i);
    }
    forall name, i: nat | Wins(factories, log, name, i)
      ensures Loaded(factories, log[i]).name in Names(table.Values)
    {
      AnswerIsRight(factories, log, name);
      assert table[Lower(name)] == Loaded(factories, log[i]);
      assert table[Lower(name)] in table.Values;
    }
  }

  lemma {:induction false} TableKeysAreLower(factories: Factories, log: seq<Registration>, key: string)
    requires key in EagerTable(factories, log)
    ensures Lower(key) == key
  {
    var r := log[|log| - 1];
    if key in KeysOf(r) {
      KeyIsLower(r, key);
    } else {
      TableKeysAreLower(factories, log[..|log| - 1], key);
    }
  }

  lemma KeyIsLower(r: Registration, key: string)
    requires key in KeysOf(r)
    ensures Lower(key) == key
  {
    var names := match r case Plugin(p) => [p.name] + p.dialects case Deferred(d) => [d.name] + d.dialects;
    var i :| 0 <= i < |names| && key == Lower(names[i]);
    LowerIdempotent(names[i]);
  }

  /** So the eager reference is what the registrations say. */
  lemma EagerReplyIsRight(factories: Factories, log: seq<Registration>, op: Operation)
    ensures RightReply(factories, log, op, EagerReply(factories, log, op))
  {
    match op {
      case Register(_) =>
      case Lookup(k) => AnswerIsRight(factories, log, k);
      case AskQuirks(k) => QuirksAreRight(factories, log, k);
      case List => NamesAreRight(factories, log);
    }
  }

  function RegistrationsOf(ops: seq<Operation>): seq<Registration> {
    if ops == [] then []
    else
      var last := ops[|ops| - 1];
      RegistrationsOf(ops[..|ops| - 1]) + if last.Register? then [last.registration] else []
  }

  /** The replies of an eager registry to a whole run. */
  function EagerReplies(factories: Factories, ops: seq<Operation>): seq<Reply> {
    if ops == [] then []
    else
      var before := ops[..|ops| - 1];
      EagerReplies(factories, before) +
      [EagerReply(factories, RegistrationsOf(before), ops[|ops| - 1])]
  }

  lemma {:induction false} RepliesCount(factories: Factories, ops: seq<Operation>)
    ensures |EagerReplies(factories, ops)| == |ops|
  {
    if ops != [] {
      RepliesCount(factories, ops[..|ops| - 1]);
    }
  }

  lemma {:induction false} ReplyAt(factories: Factories, ops: seq<Operation>, i: nat)
    requires i < |ops| == |EagerReplies(factories, ops)|
    ensures EagerReplies(factories, ops)[i] == EagerReply(factories, RegistrationsOf(ops[..i]), ops[i])
  {
    var before := ops[..|ops| - 1];
    RepliesCount(factories, before);
    if i < |before| {
      ReplyAt(factories, before, i);
      assert before[..i] == ops[..i];
    }
  }

  lemma RepliesAreRight(factories: Factories, ops: seq<Operation>)
    ensures |EagerReplies(factories, ops)| == |ops|
    ensures forall i :: 0 <= i < |ops| ==>
      RightReply(factories, RegistrationsOf(ops[..i]), ops[i], EagerReplies(factories, ops)[i])
  {
    RepliesCount(factories, ops);
    forall i | 0 <= i < |ops|
      ensures RightReply(factories, RegistrationsOf(ops[..i]), ops[i], EagerReplies(factories, ops)[i])
    {
      ReplyAt(factories, ops, i);
      EagerReplyIsRight(factories, RegistrationsOf(ops[..i]), ops[i]);
    }
  }

  /**
   Every interleaving of registrations and lookups: the lazy registry replies as the eager one,
   and so each reply is what the registrations before it call for.
   */
  method LazyRun(factories: Factories, ops: seq<Operation>) returns (replies: seq<Reply>)
    ensures replies == EagerReplies(factories, ops) && |replies| == |ops|
    ensures forall i :: 0 <= i < |ops| ==> RightReply(factories, RegistrationsOf(ops[..i]), ops[i], replies[i])
  {
    var registry := new Registry(factories);
    replies := [];
    for i := 0 to |ops|
      invariant registry.Valid() && registry.factories == factories
      invariant fresh(registry) && fresh(registry.entries)
      invariant registry.log == RegistrationsOf(ops[..i])
      invariant replies == EagerReplies(factories, ops[..i])
    {
      assert ops[..i + 1][..i] == ops[..i];
      var reply := Perform(registry, ops[i]);
      replies := replies + [reply];
    }
    assert ops[..|ops|] == ops;
    RepliesAreRight(factories, ops);
  }

  method Perform(registry: Registry, op: Operation) returns (reply: Reply)
    requires registry.Valid()
    modifies registry, registry.entries`loaded
    ensures registry.Valid() && fresh(registry.entries - old(registry.entries))
    ensures registry.log == old(registry.log) + if op.Register? then [op.registration] else []
    ensures reply == EagerReply(registry.factories, old(registry.log), op)
  {
    reply := Silent;
    match op {
      case Register(Plugin(info)) =>
        registry.RegisterPlugin(info);
      case Register(Deferred(descriptor)) =>
        ghost var _ := registry.RegisterDescriptor(descriptor);
      case Lookup(k) =>
        var answer := registry.Resolve(k);
        reply := Found(answer);
      case AskQuirks(k) =>
        var q := registry.GetQuirks(k);
        reply := Given(q);
      case List =>
        var found := registry.ListPlugins();
        reply := Listed(NamesIn(found));
    }
  }
}
