/**
 The configuration merge of dblift/config/dblift_config.py and the precedence that follows
 from merging root, environment block, environment variables and command line in this order.
 */
module ConfigMerge {
  import opened Basics

  /** A value as YAML gives it. */
  datatype Value =
    | Null
    | Str(text: string)
    | Num(n: int)
    | List(items: seq<Value>)
    | Dict(entries: map<string, Value>)

  /** A mapping of config keys. */
  type Config = v: Value | v.Dict? witness Dict(map[])

  /** `v in (None, "")`: such a value never overrides anything. */
  predicate Empty(v: Value) {
    v == Null || v == Str("")
  }

  predicate Truthy(v: Value) {
    match v
    case Null => false
    case Str(text) => text != ""
    case Num(n) => n != 0
    case List(items) => items != []
    case Dict(entries) => entries != map[]
  }

  // ---------------------------------------------------------------- the merge

  function At(c: Config, k: string): (v: Option<Value>)
    ensures v.Some? ==> k in c.entries && v.value < c
  {
    if k in c.entries then Some(c.entries[k]) else None
  }

  /** What a non-empty override `y` leaves under a key that held `x`. */
  function MergeValue(x: Option<Value>, y: Value): Value
    decreases y, 2
  {
    if y.Dict? && x.Some? && x.value.Dict? then Merge(x.value, y) else y
  }

  /** `deep_merge_dicts`: empty overrides are skipped, mappings merge, anything else replaces. */
  function Merge(base: Config, override: Config): Config
    decreases override, 1
  {
    Dict(map k | k in base.entries.Keys + override.entries.Keys &&
        (k in base.entries || !Empty(override.entries[k])) ::
      if k in override.entries && !Empty(override.entries[k]) then MergeValue(At(base, k), override.entries[k])
      else base.entries[k])
  }

  /** What the merge leaves under one key, given what both sides hold there. */
  function MergeAt(x: Option<Value>, y: Option<Value>): Option<Value> {
    if y.None? || Empty(y.value) then x else Some(MergeValue(x, y.value))
  }

  lemma MergedAt(base: Config, override: Config, k: string)
    ensures At(Merge(base, override), k) == MergeAt(At(base, k), At(override, k))
  {
  }

  /** The same by the kind of value the override holds: null and the empty text alone count for nothing. */
  lemma MergedByKind(base: Config, override: Config, k: string)
    ensures var r := At(Merge(base, override), k);
      if k !in override.entries then r == At(base, k)
      else
        match override.entries[k]
        case Null => r == At(base, k)
        case Str(text) => if text == "" then r == At(base, k) else r == Some(Str(text))
        case Num(n) => r == Some(Num(n))
        case List(items) => r == Some(List(items))
        case Dict(entries) =>
          r == if k in base.entries && base.entries[k].Dict? then Some(Merge(base.entries[k], Dict(entries)))
               else Some(Dict(entries))
  {
    MergedAt(base, override, k);
  }

  /** `result` is the merge as far as the keys outside `todo` go, and the base under those. */
  ghost predicate MergedBut(result: Config, base: Config, override: Config, todo: set<string>) {
    forall k ::
      At(result, k) ==
        if k in override.entries && k !in todo then MergeAt(At(base, k), At(override, k)) else At(base, k)
  }

  lemma MergedButNone(result: Config, base: Config, override: Config)
    requires MergedBut(result, base, override, {})
    ensures result == Merge(base, override)
  {
    forall k ensures At(result, k) == At(Merge(base, override), k) {
      MergedAt(base, override, k);
    }
    SameEntries(result, Merge(base, override));
  }

  lemma MergeOneMore(result: Config, base: Config, override: Config, todo: set<string>, k: string, after: Config)
    requires MergedBut(result, base, override, todo) && k in todo && k in override.entries
    requires after == match MergeAt(At(result, k), At(override, k))
      case Some(v) => Dict(result.entries[k := v])
      case None => result
    ensures MergedBut(after, base, override, todo - {k})
  {
    assert At(result, k) == At(base, k);
  }

  /** `deep_merge_dicts`, with the loop of the source over a copy of the base. */
  method DeepMergeDicts(base: Config, override: Config) returns (result: Config)
    ensures result == Merge(base, override)
    decreases override
  {
    result := base;
    var todo := override.entries.Keys;
    while todo != {}
      invariant todo <= override.entries.Keys
      invariant MergedBut(result, base, override, todo)
      decreases |todo|
    {
      var k :| k in todo;
      var v := override.entries[k];
      ghost var before := result;
      if v.Dict? && k in result.entries && result.entries[k].Dict? {
        var merged := DeepMergeDicts(result.entries[k], v);
        result := Dict(result.entries[k := merged]);
      } else if !Empty(v) {
        result := Dict(result.entries[k := v]);
      }
      MergeOneMore(before, base, override, todo, k, result);
      todo := todo - {k};
    }
    MergedButNone(result, base, override);
  }

  /** Two mappings with the same value, or none, under every key are the same. */
  lemma SameEntries(c: Config, d: Config)
    requires forall k :: At(c, k) == At(d, k)
    ensures c == d
  {
    assert forall k :: k in c.entries <==> At(c, k).Some?;
    assert forall k :: k in d.entries <==> At(d, k).Some?;
    assert c.entries == d.entries;
  }

  // ---------------------------------------------------------------- algebra

  /** Merging a configuration over itself changes nothing. */
  lemma {:induction false} MergeIdempotent(c: Config)
    ensures Merge(c, c) == c
    decreases c
  {
    forall k ensures At(Merge(c, c), k) == At(c, k) {
      MergedAt(c, c, k);
      var v := At(c, k);
      if v.Some? && v.value.Dict? {
        MergeIdempotent(v.value);
      }
    }
    SameEntries(Merge(c, c), c);
  }

  /** Everything `x` says is said again, or overridden, by `z`, which has no empty value of its own. */
  predicate Absorbed(x: Config, z: Config)
    decreases x
  {
    && (forall k :: k in x.entries ==>
        && k in z.entries
        && (Empty(z.entries[k]) ==> x.entries[k] == z.entries[k])
        && (x.entries[k].Dict? && z.entries[k].Dict? ==> Absorbed(x.entries[k], z.entries[k])))
    && (forall k :: k in z.entries && k !in x.entries ==> !Empty(z.entries[k]))
  }

  /** An override hides its base altogether exactly when it absorbs it. */
  lemma {:induction false} AbsorbedMeans(x: Config, z: Config)
    ensures Merge(x, z) == z <==> Absorbed(x, z)
    decreases x
  {
    forall k | k in x.entries && k in z.entries && x.entries[k].Dict? && z.entries[k].Dict?
      ensures Merge(x.entries[k], z.entries[k]) == z.entries[k] <==> Absorbed(x.entries[k], z.entries[k])
    {
      AbsorbedMeans(x.entries[k], z.entries[k]);
    }
    forall k ensures At(Merge(x, z), k) == MergeAt(At(x, k), At(z, k)) {
      MergedAt(x, z, k);
    }
    if Absorbed(x, z) {
      forall k ensures At(Merge(x, z), k) == At(z, k) {
      }
      SameEntries(Merge(x, z), z);
    }
    if Merge(x, z) == z {
      forall k | k in x.entries
        ensures k in z.entries && (Empty(z.entries[k]) ==> x.entries[k] == z.entries[k])
        ensures x.entries[k].Dict? && z.entries[k].Dict? ==> Absorbed(x.entries[k], z.entries[k])
      {
        assert At(Merge(x, z), k) == At(z, k);
      }
      forall k | k in z.entries && k !in x.entries ensures !Empty(z.entries[k]) {
        assert At(Merge(x, z), k) == At(z, k);
      }
    }
  }

  /** Under `k`, no mapping is hidden by a non-empty value that a mapping then replaces, unless
   the last mapping absorbs the first anyway; and the same for the mappings below `k`. */
  predicate HidesNothingAt(a: Config, b: Config, c: Config, k: string)
    decreases a, 0
  {
    k in a.entries && k in b.entries && k in c.entries && a.entries[k].Dict? && c.entries[k].Dict? ==>
      (if b.entries[k].Dict? then NoHiddenMapping(a.entries[k], b.entries[k], c.entries[k])
       else Empty(b.entries[k]) || Absorbed(a.entries[k], c.entries[k]))
  }

  predicate NoHiddenMapping(a: Config, b: Config, c: Config)
    decreases a, 1
  {
    forall k :: k in a.entries ==> HidesNothingAt(a, b, c, k)
  }

  predicate SameAt(a: Config, b: Config, c: Config, k: string) {
    MergeAt(MergeAt(At(a, k), At(b, k)), At(c, k)) == MergeAt(At(a, k), MergeAt(At(b, k), At(c, k)))
  }

  /** Merging is associative exactly outside that pattern. */
  lemma {:induction false} MergeAssociative(a: Config, b: Config, c: Config)
    ensures Merge(Merge(a, b), c) == Merge(a, Merge(b, c)) <==> NoHiddenMapping(a, b, c)
    decreases a, 1
  {
    var left, right := Merge(Merge(a, b), c), Merge(a, Merge(b, c));
    forall k
      ensures At(left, k) == MergeAt(MergeAt(At(a, k), At(b, k)), At(c, k))
      ensures At(right, k) == MergeAt(At(a, k), MergeAt(At(b, k), At(c, k)))
    {
      MergedAt(a, b, k);
      MergedAt(Merge(a, b), c, k);
      MergedAt(b, c, k);
      MergedAt(a, Merge(b, c), k);
    }
    forall k
      ensures SameAt(a, b, c, k) <==> HidesNothingAt(a, b, c, k)
    {
      AssociativeAt(a, b, c, k);
    }
    if left == right {
      forall k ensures HidesNothingAt(a, b, c, k) {
        assert At(left, k) == At(right, k);
      }
    }
    if NoHiddenMapping(a, b, c) {
      forall k ensures At(left, k) == At(right, k) {
        assert HidesNothingAt(a, b, c, k);
      }
      SameEntries(left, right);
    }
  }

  /** A mapping hidden by a number before another mapping: what it said is lost or kept by the order of merging. */
  lemma HiddenMapping()
    ensures var a := Dict(map["k" := Dict(map["x" := Num(1)])]);
      var b := Dict(map["k" := Num(5)]);
      var c := Dict(map["k" := Dict(map["y" := Num(2)])]);
      Merge(Merge(a, b), c) != Merge(a, Merge(b, c))
  {
    var a := Dict(map["k" := Dict(map["x" := Num(1)])]);
    var b := Dict(map["k" := Num(5)]);
    var c := Dict(map["k" := Dict(map["y" := Num(2)])]);
    MergeAssociative(a, b, c);
    assert "x" in a.entries["k"].entries && "x" !in c.entries["k"].entries;
    assert !Absorbed(a.entries["k"], c.entries["k"]);
    assert !HidesNothingAt(a, b, c, "k");
  }

  lemma {:induction false} AssociativeAt(a: Config, b: Config, c: Config, k: string)
    ensures SameAt(a, b, c, k) <==> HidesNothingAt(a, b, c, k)
    decreases a, 0
  {
    if k in a.entries && k in b.entries && k in c.entries && a.entries[k].Dict? && c.entries[k].Dict? {
      var x, y, z := a.entries[k], b.entries[k], c.entries[k];
      if y.Dict? {
        MergeAssociative(x, y, z);
      } else if !Empty(y) {
        AbsorbedMeans(x, z);
      }
    }
  }

  // ---------------------------------------------------------------- precedence

  /** The non-empty value at a path; mappings on the way are entered, anything else ends it. */
  function Leaf(c: Config, path: seq<string>): Option<Value>
    requires path != []
    decreases |path|
  {
    var v := At(c, path[0]);
    if v.None? || Empty(v.value) then None
    else if |path| == 1 then v
    else if v.value.Dict? then Leaf(v.value, path[1..])
    else None
  }

  /** What a leaf is: under the last key anything but null and the empty text, under the others a mapping. */
  lemma LeafMeans(c: Config, path: seq<string>)
    requires path != []
    ensures var k := path[0];
      if k !in c.entries then Leaf(c, path) == None
      else if |path| == 1 then
        Leaf(c, path) == if c.entries[k] in [Null, Str("")] then None else Some(c.entries[k])
      else Leaf(c, path) == if c.entries[k].Dict? then Leaf(c.entries[k], path[1..]) else None
  {
  }

  /** The source does not contradict that `path` leads through mappings to a value. */
  predicate Fits(c: Config, path: seq<string>)
    requires path != []
    decreases |path|
  {
    var v := At(c, path[0]);
    if v.None? || Empty(v.value) then true
    else if |path| == 1 then !v.value.Dict?
    else v.value.Dict? && Fits(v.value, path[1..])
  }

  function OrElse<T>(first: Option<T>, second: Option<T>): Option<T> {
    if first.Some? then first else second
  }

  /** One merge: the override's leaf if it has one, the base's otherwise. */
  lemma {:induction false} MergeLeaf(a: Config, b: Config, path: seq<string>)
    requires path != [] && Fits(a, path) && Fits(b, path)
    ensures Fits(Merge(a, b), path)
    ensures Leaf(Merge(a, b), path) == OrElse(Leaf(b, path), Leaf(a, path))
    decreases |path|
  {
    MergedAt(a, b, path[0]);
    var x, y := At(a, path[0]), At(b, path[0]);
    if |path| > 1 && x.Some? && y.Some? && x.value.Dict? && y.value.Dict? {
      MergeLeaf(x.value, y.value, path[1..]);
    }
  }

  /** The sources merged one over another, lowest precedence first. */
  function MergeAll(sources: seq<Config>): Config {
    if sources == [] then Dict(map[])
    else Merge(MergeAll(sources[..|sources| - 1]), sources[|sources| - 1])
  }

  /** The leaf of the highest source that has one. */
  function HighestLeaf(sources: seq<Config>, path: seq<string>): Option<Value>
    requires path != []
  {
    if sources == [] then None
    else OrElse(Leaf(sources[|sources| - 1], path), HighestLeaf(sources[..|sources| - 1], path))
  }

  lemma {:induction false} MergeAllLeaf(sources: seq<Config>, path: seq<string>)
    requires path != [] && forall s :: s in sources ==> Fits(s, path)
    ensures Fits(MergeAll(sources), path)
    ensures Leaf(MergeAll(sources), path) == HighestLeaf(sources, path)
  {
    if sources != [] {
      var front := sources[..|sources| - 1];
      MergeAllLeaf(front, path);
      MergeLeaf(MergeAll(front), sources[|sources| - 1], path);
    }
  }

  // ---------------------------------------------------------------- environments

  const SELECTOR_KEYS := {"environments", "resolve"}

  datatype ConfigError = EnvironmentsNotMapping | BlockNotMapping

  /** `config_data.get("environments") or {}`, then the block of the environment. */
  function BlockOf(c: Config, environment: string): Result<Option<Value>, ConfigError> {
    match At(c, "environments")
    case None => Success(None)
    case Some(v) =>
      if !Truthy(v) then Success(None)
      else if v.Dict? then Success(At(v, environment))
      else Failure(EnvironmentsNotMapping)
  }

  /** No block comes of a section that is missing, null or empty, and an error of any other but a mapping. */
  lemma BlockOfMeans(c: Config, environment: string)
    ensures var r := BlockOf(c, environment);
      if "environments" !in c.entries then r == Success(None)
      else
        match c.entries["environments"]
        case Null => r == Success(None)
        case Str(text) => r == if text == "" then Success(None) else Failure(EnvironmentsNotMapping)
        case Num(n) => r == if n == 0 then Success(None) else Failure(EnvironmentsNotMapping)
        case List(items) => r == if items == [] then Success(None) else Failure(EnvironmentsNotMapping)
        case Dict(entries) => r == Success(if environment in entries then Some(entries[environment]) else None)
  {
  }

  function WithoutSelectors(c: Config): Config {
    Dict(c.entries - SELECTOR_KEYS)
  }

  lemma WithoutSelectorsAt(c: Config, k: string)
    ensures At(WithoutSelectors(c), k) == if k == "environments" || k == "resolve" then None else At(c, k)
  {
  }

  /** `apply_environment`. */
  function ApplyEnvironment(c: Config, environment: Option<string>): Result<Config, ConfigError> {
    var effective := WithoutSelectors(c);
    if environment.None? then Success(effective)
    else
      match BlockOf(c, environment.value)
      case Failure(error) => Failure(error)
      case Success(None) => Success(effective)
      case Success(Some(block)) =>
        if block == Null then Success(effective)
        else if !block.Dict? then Failure(BlockNotMapping)
        else Success(Merge(effective, block))
  }

  /**
   The selector keys are gone from the result, except exactly when the selected block itself
   holds a non-empty value under one: the documentation promises they are always stripped.
   */
  lemma SelectorsAreStripped(c: Config, environment: Option<string>, key: string)
    requires key in SELECTOR_KEYS && ApplyEnvironment(c, environment).Success?
    ensures key in ApplyEnvironment(c, environment).value.entries <==>
      environment.Some? && BlockOf(c, environment.value).value.Some? &&
      var block := BlockOf(c, environment.value).value.value;
      block.Dict? && key in block.entries && !Empty(block.entries[key])
  {
    if environment.Some? && BlockOf(c, environment.value).value.Some? {
      var block := BlockOf(c, environment.value).value.value;
      if block.Dict? {
        MergedAt(WithoutSelectors(c), block, key);
      }
    }
  }

  /** A block that brings a selector key back. */
  lemma SelectorComesBack()
    ensures var block := Dict(map["resolve" := Num(1)]);
      var c := Dict(map["environments" := Dict(map["prod" := block])]);
      ApplyEnvironment(c, Some("prod")) == Success(block)
  {
    var block := Dict(map["resolve" := Num(1)]);
    var c := Dict(map["environments" := Dict(map["prod" := block])]);
    forall k ensures At(Merge(WithoutSelectors(c), block), k) == At(block, k) {
      MergedAt(WithoutSelectors(c), block, k);
    }
    SameEntries(Merge(WithoutSelectors(c), block), block);
  }

  // ---------------------------------------------------------------- selecting an environment

  /**
   The `resolve` section with its defaults filled in: the selector variable, the variable that
   holds the branch or nothing, and the branch map as texts in the order of the section.
   */
  datatype Selector = Selector(variable: string, branchVariable: string, branchMap: seq<(string, string)>)

  datatype SelectError = UnknownEnvironment(name: string)

  /** Row `i` is the first whose pattern the branch fits. */
  predicate FirstFit(rows: seq<(string, string)>, branch: string, fits: (string, string) -> bool, i: nat) {
    i < |rows| && fits(branch, rows[i].0) && forall k :: 0 <= k < i ==> !fits(branch, rows[k].0)
  }

  function Branch(selector: Selector, env: map<string, string>): string {
    if selector.branchVariable != "" && selector.branchVariable in env then env[selector.branchVariable] else ""
  }

  function Variable(selector: Selector, env: map<string, string>): string {
    if selector.variable in env then env[selector.variable] else ""
  }

  /** The name a selection comes to, by the documented precedence; empty for none. */
  ghost predicate Selects(
    explicit: string, selector: Selector, env: map<string, string>, fits: (string, string) -> bool, name: string)
  {
    if explicit != "" then name == explicit
    else if Given(env, selector.variable) then name == env[selector.variable]
    else if selector.branchVariable != "" && Given(env, selector.branchVariable) &&
      exists i: nat :: FirstFit(selector.branchMap, env[selector.branchVariable], fits, i) then
      exists i: nat :: FirstFit(selector.branchMap, env[selector.branchVariable], fits, i) &&
        name == selector.branchMap[i].1
    else name == ""
  }

  /** The environment variable is set, and not to the empty text. */
  predicate Given(env: map<string, string>, variable: string) {
    variable in env && env[variable] != ""
  }

  /** The name is a key of the `environments` section. */
  predicate Declared(c: Config, name: string) {
    "environments" in c.entries && c.entries["environments"].Dict? && name in c.entries["environments"].entries
  }

  /** `select_environment`; a missing `--env` is the empty text. */
  method SelectEnvironment(c: Config, explicit: string, selector: Selector, env: map<string, string>,
                           fits: (string, string) -> bool)
    returns (r: Result<Option<string>, SelectError>)
    ensures exists name ::
      && Selects(explicit, selector, env, fits, name)
      && r == if name == "" then Success(None)
              else if Declared(c, name) then Success(Some(name)) else Failure(UnknownEnvironment(name))
  {
    var name := if explicit != "" then explicit else Variable(selector, env);
    if name == "" {
      var branch := Branch(selector, env);
      if branch != "" {
        for i := 0 to |selector.branchMap|
          invariant name == ""
          invariant forall k :: 0 <= k < i ==> !fits(branch, selector.branchMap[k].0)
        {
          if fits(branch, selector.branchMap[i].0) {
            name := selector.branchMap[i].1;
            assert FirstFit(selector.branchMap, branch, fits, i);
            break;
          }
        }
      }
    }
    assert Selects(explicit, selector, env, fits, name);
    if name == "" {
      return Success(None);
    }
    var environments := At(c, "environments");
    if environments.None? || !environments.value.Dict? || name !in environments.value.entries {
      return Failure(UnknownEnvironment(name));
    }
    r := Success(Some(name));
  }

  lemma FirstFitUnique(rows: seq<(string, string)>, branch: string, fits: (string, string) -> bool, i: nat, j: nat)
    requires FirstFit(rows, branch, fits, i) && FirstFit(rows, branch, fits, j)
    ensures i == j
  {
  }

  /** The precedence leaves nothing open: one selection, one name. */
  lemma SelectionUnique(explicit: string, selector: Selector, env: map<string, string>,
                        fits: (string, string) -> bool, name: string, other: string)
    requires Selects(explicit, selector, env, fits, name) && Selects(explicit, selector, env, fits, other)
    ensures name == other
  {
    var branch := Branch(selector, env);
    if explicit == "" && Variable(selector, env) == "" && branch != "" {
      if exists i: nat :: FirstFit(selector.branchMap, branch, fits, i) {
        var i: nat :| FirstFit(selector.branchMap, branch, fits, i) && name == selector.branchMap[i].1;
        var j: nat :| FirstFit(selector.branchMap, branch, fits, j) && other == selector.branchMap[j].1;
        FirstFitUnique(selector.branchMap, branch, fits, i, j);
      }
    }
  }

  /** A declared environment can only fail to apply when its own block is neither a mapping nor null. */
  lemma DeclaredApplies(c: Config, name: string)
    requires Declared(c, name)
    ensures var block := At(c, "environments").value.entries[name];
      && (ApplyEnvironment(c, Some(name)).Success? <==> block.Dict? || block == Null)
      && (block.Dict? ==> ApplyEnvironment(c, Some(name)) == Success(Merge(WithoutSelectors(c), block)))
  {
    assert At(c, "environments").value.entries != map[];
  }

  // ---------------------------------------------------------------- the load order

  /** Everything merged at once, in the documented order. */
  function Loaded(file: Config, environment: Option<string>, variables: Config, arguments: Config):
    Result<Config, ConfigError>
  {
    var applied := ApplyEnvironment(Merge(Dict(map[]), file), environment);
    if applied.Failure? then Failure(applied.error)
    else Success(Merge(Merge(applied.value, variables), arguments))
  }

  /** The merges of `load_config`, one after the other, empty sources skipped. */
  method LoadOrder(file: Config, environment: Option<string>, variables: Config, arguments: Config)
    returns (r: Result<Config, ConfigError>)
    ensures r == Loaded(file, environment, variables, arguments)
  {
    var data: Config := DeepMergeDicts(Dict(map[]), file);
    var applied := ApplyEnvironment(data, environment);
    if applied.Failure? {
      return Failure(applied.error);
    }
    data := applied.value;
    MergeNothing(data);
    if variables.entries != map[] {
      data := DeepMergeDicts(data, variables);
    }
    MergeNothing(data);
    if arguments.entries != map[] {
      data := DeepMergeDicts(data, arguments);
    }
    return Success(data);
  }

  lemma MergeNothing(c: Config)
    ensures Merge(c, Dict(map[])) == c
  {
    forall k ensures At(Merge(c, Dict(map[])), k) == At(c, k) {
      MergedAt(c, Dict(map[]), k);
    }
    SameEntries(Merge(c, Dict(map[])), c);
  }

  /** What a source contributes: the root without selectors, or the selected block, or nothing. */
  function BlockSource(file: Config, environment: Option<string>): Config {
    if environment.None? then Dict(map[])
    else
      match BlockOf(file, environment.value)
      case Success(Some(block)) => if block.Dict? then block else Dict(map[])
      case _ => Dict(map[])
  }

  lemma ApplyIsMerge(file: Config, environment: Option<string>)
    requires ApplyEnvironment(file, environment).Success?
    ensures ApplyEnvironment(file, environment).value == Merge(WithoutSelectors(file), BlockSource(file, environment))
  {
    MergeNothing(WithoutSelectors(file));
  }

  /** The root and the block are those of the file: reading it over nothing drops only empty values. */
  lemma FileAsRoot(file: Config, environment: Option<string>, path: seq<string>)
    requires path != [] && path[0] !in SELECTOR_KEYS
    ensures var data := Merge(Dict(map[]), file);
      && Leaf(WithoutSelectors(data), path) == Leaf(file, path)
      && (Fits(WithoutSelectors(data), path) <==> Fits(file, path))
      && BlockSource(data, environment) == BlockSource(file, environment)
  {
    var data := Merge(Dict(map[]), file);
    MergedAt(Dict(map[]), file, path[0]);
    MergedAt(Dict(map[]), file, "environments");
    assert At(WithoutSelectors(data), path[0]) == At(data, path[0]);
    assert At(data, path[0]) == MergeAt(None, At(file, path[0]));
    assert At(data, "environments") == MergeAt(None, At(file, "environments"));
  }

  /**
   The documented precedence: at a path no source contradicts in shape, the effective value is
   the non-empty one of the command line, else of the environment variables, else of the
   selected block, else of the root sections.
   */
  lemma EffectiveLeaf(
    file: Config, environment: Option<string>, variables: Config, arguments: Config, path: seq<string>)
    requires path != [] && path[0] !in SELECTOR_KEYS
    requires Loaded(file, environment, variables, arguments).Success?
    requires Fits(file, path) && Fits(BlockSource(file, environment), path)
    requires Fits(variables, path) && Fits(arguments, path)
    ensures Leaf(Loaded(file, environment, variables, arguments).value, path) ==
      OrElse(Leaf(arguments, path), OrElse(Leaf(variables, path),
        OrElse(Leaf(BlockSource(file, environment), path), Leaf(file, path))))
  {
    var data := Merge(Dict(map[]), file);
    var root, block := WithoutSelectors(data), BlockSource(data, environment);
    FileAsRoot(file, environment, path);
    ApplyIsMerge(data, environment);
    MergeLeaf(root, block, path);
    MergeLeaf(Merge(root, block), variables, path);
    MergeLeaf(Merge(Merge(root, block), variables), arguments, path);
  }
}
