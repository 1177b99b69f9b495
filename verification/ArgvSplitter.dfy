/**
 The argv splitter of dblift/cli/_config_helpers.py and the argv rebuilt from its results.

 Every token is labelled command, global or subcommand; the three results are the tokens of
 each label in their order. Splitting a rebuilt "globals, one command, subcommand arguments"
 gives the same parts back exactly when the last global flag has its value and no command word
 stands loose among the subcommand arguments.
 */
module ArgvSplitter {
  /** The words the splitter knows. */
  datatype Words = Words(
    commands: set<string>, globals: set<string>, globalBooleans: set<string>, subBooleans: set<string>)

  /** Commands with subcommands of their own: no further command is taken after one. */
  const STOP_COMMANDS: set<string> := {"db", "license", "data"}

  datatype Label = Command | Global | Sub

  predicate Dash(arg: string) {
    |arg| > 0 && arg[0] == '-'
  }

  predicate DoubleDash(arg: string) {
    |arg| > 1 && arg[0] == '-' && arg[1] == '-'
  }

  /** The part before the first `=`, or all of it. */
  function ArgName(arg: string): string {
    if arg == "" || arg[0] == '=' then "" else [arg[0]] + ArgName(arg[1..])
  }

  predicate IsCommand(words: Words, arg: string) {
    !Dash(arg) && arg in words.commands
  }

  predicate IsGlobal(words: Words, arg: string) {
    ArgName(arg) in words.globals
  }

  /** A global flag that wants the next token as its value. */
  predicate WantsValue(words: Words, arg: string) {
    IsGlobal(words, arg) && ArgName(arg) !in words.globalBooleans && '=' !in arg
  }

  /** Global flags are written with a dash. */
  predicate Dashed(words: Words) {
    forall g :: g in words.globals ==> Dash(g)
  }

  /** The first token of `args` is a flag that takes the token after it. */
  predicate TakesNext(args: seq<string>) {
    |args| > 1 && !Dash(args[1])
  }

  /** `expecting_value_for` after a subcommand token at the head of `args`. */
  predicate Expects(words: Words, args: seq<string>)
    requires args != []
  {
    DoubleDash(args[0]) && ArgName(args[0]) !in words.subBooleans && '=' !in args[0] && TakesNext(args)
  }

  // ---------------------------------------------------------------- labels

  function Labels(words: Words, argv: seq<string>, expecting: bool, stop: bool): (labels: seq<Label>)
    ensures |labels| == |argv|
    decreases |argv|
  {
    if argv == [] then []
    else if expecting then
      [Sub] + Labels(words, argv[1..], false, stop)
    else if !stop && IsCommand(words, argv[0]) then
      [Command] + Labels(words, argv[1..], false, argv[0] in STOP_COMMANDS)
    else if IsGlobal(words, argv[0]) then
      if WantsValue(words, argv[0]) && TakesNext(argv) then
        [Global, Global] + Labels(words, argv[2..], false, stop)
      else [Global] + Labels(words, argv[1..], false, stop)
    else [Sub] + Labels(words, argv[1..], Expects(words, argv), stop)
  }

  /** The tokens carrying `kind`, in order. */
  function Pick(argv: seq<string>, labels: seq<Label>, kind: Label): seq<string>
    requires |argv| == |labels|
  {
    if argv == [] then []
    else (if labels[0] == kind then [argv[0]] else []) + Pick(argv[1..], labels[1..], kind)
  }

  datatype Parts = Parts(commands: seq<string>, globals: seq<string>, subs: seq<string>)

  function PickAll(argv: seq<string>, labels: seq<Label>): Parts
    requires |argv| == |labels|
  {
    Parts(Pick(argv, labels, Command), Pick(argv, labels, Global), Pick(argv, labels, Sub))
  }

  function Split(words: Words, argv: seq<string>): Parts {
    PickAll(argv, Labels(words, argv, false, false))
  }

  /** Put the three lists back together by the labels. */
  function Weave(labels: seq<Label>, p: Parts): seq<string> {
    if labels == [] then []
    else
      match labels[0]
      case Command =>
        if p.commands == [] then []
        else [p.commands[0]] + Weave(labels[1..], p.(commands := p.commands[1..]))
      case Global =>
        if p.globals == [] then []
        else [p.globals[0]] + Weave(labels[1..], p.(globals := p.globals[1..]))
      case Sub =>
        if p.subs == [] then []
        else [p.subs[0]] + Weave(labels[1..], p.(subs := p.subs[1..]))
  }

  lemma {:induction false} PickedWeaveBack(argv: seq<string>, labels: seq<Label>)
    requires |argv| == |labels|
    ensures Weave(labels, PickAll(argv, labels)) == argv
  {
    if argv != [] {
      PickedWeaveBack(argv[1..], labels[1..]);
      var p, q := PickAll(argv, labels), PickAll(argv[1..], labels[1..]);
      PickStep(argv, labels);
      match labels[0] {
        case Command => assert p.(commands := p.commands[1..]) == q;
        case Global => assert p.(globals := p.globals[1..]) == q;
        case Sub => assert p.(subs := p.subs[1..]) == q;
      }
    }
  }

  /** Nothing is dropped, doubled or reordered: the three lists weave back into the argv. */
  lemma SplitLosesNothing(words: Words, argv: seq<string>)
    ensures Weave(Labels(words, argv, false, false), Split(words, argv)) == argv
    ensures var p := Split(words, argv);
      |p.commands| + |p.globals| + |p.subs| == |argv|
  {
    PickedWeaveBack(argv, Labels(words, argv, false, false));
    PickedAll(argv, Labels(words, argv, false, false));
  }

  lemma {:induction false} PickedAll(argv: seq<string>, labels: seq<Label>)
    requires |argv| == |labels|
    ensures var p := PickAll(argv, labels);
      |p.commands| + |p.globals| + |p.subs| == |argv|
  {
    if argv != [] {
      PickedAll(argv[1..], labels[1..]);
    }
  }

  // ---------------------------------------------------------------- what each token is

  /** The token is the global option `flag`, alone or with a value after an equals sign. */
  ghost predicate NamesGlobal(words: Words, arg: string) {
    exists flag :: flag in words.globals && '=' !in flag && (arg == flag || flag + "=" <= arg)
  }

  /** A flag labelled so takes the token after it as its value. */
  predicate TakesValue(words: Words, flag: string, kind: Label, next: string) {
    && '=' !in flag && !("-" <= next)
    && match kind
       case Command => false
       case Global => flag !in words.globalBooleans
       case Sub => "--" <= flag && flag !in words.subBooleans
  }

  /** Token `k` is the value of the token before it, which is no value itself. */
  predicate IsValue(words: Words, argv: seq<string>, labels: seq<Label>, k: nat)
    requires k < |argv| == |labels|
  {
    k > 0 && !IsValue(words, argv, labels, k - 1) && TakesValue(words, argv[k - 1], labels[k - 1], argv[k])
  }

  /** A command that ends the search for commands stands before token `k`. */
  predicate StopsBefore(argv: seq<string>, labels: seq<Label>, k: nat)
    requires k <= |argv| == |labels|
  {
    exists j :: 0 <= j < k && labels[j] == Command && argv[j] in ["db", "license", "data"]
  }

  /** What token `k` must be labelled, by the tokens before it. */
  ghost predicate RightLabel(words: Words, argv: seq<string>, labels: seq<Label>, k: nat)
    requires k < |argv| == |labels|
  {
    if IsValue(words, argv, labels, k) then labels[k] == labels[k - 1]
    else if !StopsBefore(argv, labels, k) && argv[k] in words.commands && !("-" <= argv[k]) then labels[k] == Command
    else if NamesGlobal(words, argv[k]) then labels[k] == Global
    else labels[k] == Sub
  }

  lemma {:induction false} ArgNameSplits(arg: string)
    ensures '=' !in ArgName(arg)
    ensures if '=' in arg then ArgName(arg) + "=" <= arg else ArgName(arg) == arg
  {
    if arg != "" && arg[0] != '=' {
      ArgNameSplits(arg[1..]);
      assert arg == [arg[0]] + arg[1..];
      if '=' in arg {
        assert [arg[0]] + (ArgName(arg[1..]) + "=") == ArgName(arg) + "=";
      }
    }
  }

  lemma {:induction false} ArgNameOfFlag(flag: string, rest: string)
    requires '=' !in flag
    ensures ArgName(flag) == flag && ArgName(flag + "=" + rest) == flag
  {
    if flag != "" {
      ArgNameOfFlag(flag[1..], rest);
      assert (flag + "=" + rest)[1..] == flag[1..] + "=" + rest;
    }
  }

  lemma GlobalIsNamed(words: Words, arg: string)
    ensures IsGlobal(words, arg) <==> NamesGlobal(words, arg)
  {
    ArgNameSplits(arg);
    if NamesGlobal(words, arg) {
      var flag :| flag in words.globals && '=' !in flag && (arg == flag || flag + "=" <= arg);
      var rest := if arg == flag then "" else arg[|flag| + 1..];
      ArgNameOfFlag(flag, rest);
      assert arg == flag || arg == flag + "=" + rest;
    }
  }

  /** The first token of `args`, if it is no value, takes the next one. */
  lemma ValueFollows(words: Words, args: seq<string>)
    requires |args| > 1
    ensures Expects(words, args) <==> TakesValue(words, args[0], Sub, args[1])
    ensures IsGlobal(words, args[0]) ==>
      (WantsValue(words, args[0]) && TakesNext(args) <==> TakesValue(words, args[0], Global, args[1]))
  {
    ArgNameSplits(args[0]);
  }

  /** The loop's flags at token `i` are what the tokens before it say. */
  predicate Stands(words: Words, argv: seq<string>, labels: seq<Label>, i: nat, expecting: bool, stop: bool)
    requires i <= |argv| == |labels|
  {
    && labels[i..] == Labels(words, argv[i..], expecting, stop)
    && (stop <==> StopsBefore(argv, labels, i))
    && (expecting ==> i > 0 && labels[i - 1] == Sub)
    && (i < |argv| ==> (expecting <==> IsValue(words, argv, labels, i)))
  }

  lemma SubStands(words: Words, argv: seq<string>, labels: seq<Label>, i: nat, expecting: bool, stop: bool)
    requires i < |argv| == |labels| && Stands(words, argv, labels, i, expecting, stop)
    requires expecting || ((stop || !IsCommand(words, argv[i])) && !IsGlobal(words, argv[i]))
    ensures RightLabel(words, argv, labels, i)
    ensures Stands(words, argv, labels, i + 1, !expecting && Expects(words, argv[i..]), stop)
  {
    GlobalIsNamed(words, argv[i]);
    assert argv[i..][1..] == argv[i + 1..] && labels[i..][1..] == labels[i + 1..] && labels[i] == labels[i..][0];
    if i + 1 < |argv| {
      ValueFollows(words, argv[i..]);
    }
  }

  lemma CommandStands(words: Words, argv: seq<string>, labels: seq<Label>, i: nat)
    requires i < |argv| == |labels| && Stands(words, argv, labels, i, false, false) && IsCommand(words, argv[i])
    ensures RightLabel(words, argv, labels, i)
    ensures Stands(words, argv, labels, i + 1, false, argv[i] in STOP_COMMANDS)
  {
    assert argv[i..][1..] == argv[i + 1..] && labels[i..][1..] == labels[i + 1..] && labels[i] == labels[i..][0];
  }

  lemma GlobalStands(words: Words, argv: seq<string>, labels: seq<Label>, i: nat, stop: bool) returns (n: nat)
    requires i < |argv| == |labels| && Stands(words, argv, labels, i, false, stop)
    requires (stop || !IsCommand(words, argv[i])) && IsGlobal(words, argv[i])
    ensures i < n <= |argv| && n <= i + 2 && Stands(words, argv, labels, n, false, stop)
    ensures forall k: nat :: i <= k < n ==> RightLabel(words, argv, labels, k)
  {
    GlobalIsNamed(words, argv[i]);
    assert argv[i..][1..] == argv[i + 1..] && labels[i..][1..] == labels[i + 1..] && labels[i] == labels[i..][0];
    n := i + 1;
    if i + 1 < |argv| {
      ValueFollows(words, argv[i..]);
      if WantsValue(words, argv[i]) && TakesNext(argv[i..]) {
        n := i + 2;
        assert argv[i..][2..] == argv[i + 2..] && labels[i..][2..] == labels[i + 2..];
        assert labels[i + 1] == labels[i..][1];
      }
    }
  }

  lemma {:induction false} RightFrom(
    words: Words, argv: seq<string>, labels: seq<Label>, i: nat, expecting: bool, stop: bool)
    requires i <= |argv| == |labels| && Stands(words, argv, labels, i, expecting, stop)
    ensures forall k: nat :: i <= k < |argv| ==> RightLabel(words, argv, labels, k)
    decreases |argv| - i
  {
    if i < |argv| {
      if !expecting && !stop && IsCommand(words, argv[i]) {
        CommandStands(words, argv, labels, i);
        RightFrom(words, argv, labels, i + 1, false, argv[i] in STOP_COMMANDS);
      } else if !expecting && IsGlobal(words, argv[i]) {
        var n := GlobalStands(words, argv, labels, i, stop);
        RightFrom(words, argv, labels, n, false, stop);
      } else {
        SubStands(words, argv, labels, i, expecting, stop);
        RightFrom(words, argv, labels, i + 1, !expecting && Expects(words, argv[i..]), stop);
      }
    }
  }

  lemma {:induction false} SameBefore(words: Words, argv: seq<string>, a: seq<Label>, b: seq<Label>, k: nat)
    requires k < |argv| == |a| == |b| && a[..k] == b[..k]
    ensures IsValue(words, argv, a, k) == IsValue(words, argv, b, k)
    ensures StopsBefore(argv, a, k) == StopsBefore(argv, b, k)
  {
    assert forall j :: 0 <= j < k ==> a[j] == a[..k][j] == b[..k][j] == b[j];
    if k > 0 {
      assert a[..k][..k - 1] == a[..k - 1] && b[..k][..k - 1] == b[..k - 1];
      SameBefore(words, argv, a, b, k - 1);
    }
  }

  lemma {:induction false} RightIsUnique(words: Words, argv: seq<string>, a: seq<Label>, b: seq<Label>, n: nat)
    requires n <= |argv| == |a| == |b|
    requires forall k: nat :: k < |argv| ==> RightLabel(words, argv, a, k) && RightLabel(words, argv, b, k)
    ensures a[..n] == b[..n]
  {
    if n > 0 {
      RightIsUnique(words, argv, a, b, n - 1);
      SameBefore(words, argv, a, b, n - 1);
      assert RightLabel(words, argv, a, n - 1) && RightLabel(words, argv, b, n - 1);
      assert n > 1 ==> a[n - 2] == a[..n - 1][n - 2] == b[..n - 1][n - 2] == b[n - 2];
      assert a[..n] == a[..n - 1] + [a[n - 1]] && b[..n] == b[..n - 1] + [b[n - 1]];
    }
  }

  /** The labels are the only ones that say of every token what it must be. */
  lemma LabelsAreRight(words: Words, argv: seq<string>, labels: seq<Label>)
    ensures labels == Labels(words, argv, false, false) <==>
      |labels| == |argv| && forall k: nat :: k < |argv| ==> RightLabel(words, argv, labels, k)
  {
    var found := Labels(words, argv, false, false);
    assert argv[0..] == argv && found[0..] == found;
    RightFrom(words, argv, found, 0, false, false);
    if |labels| == |argv| && forall k: nat :: k < |argv| ==> RightLabel(words, argv, labels, k) {
      RightIsUnique(words, argv, labels, found, |argv|);
      assert labels[..|argv|] == labels && found[..|argv|] == found;
    }
  }

  // ---------------------------------------------------------------- the loop

  function Joined(p: Parts, q: Parts): Parts {
    Parts(p.commands + q.commands, p.globals + q.globals, p.subs + q.subs)
  }

  function One(kind: Label, arg: string): Parts {
    match kind
    case Command => Parts([arg], [], [])
    case Global => Parts([], [arg], [])
    case Sub => Parts([], [], [arg])
  }

  lemma PickStep(argv: seq<string>, labels: seq<Label>)
    requires |argv| == |labels| && argv != []
    ensures PickAll(argv, labels) == Joined(One(labels[0], argv[0]), PickAll(argv[1..], labels[1..]))
    ensures var p, rest := PickAll(argv, labels), PickAll(argv[1..], labels[1..]);
      && (labels[0] != Command ==> p.commands == rest.commands)
      && (labels[0] != Global ==> p.globals == rest.globals)
      && (labels[0] != Sub ==> p.subs == rest.subs)
  {
  }

  lemma JoinedAssociative(p: Parts, q: Parts, r: Parts)
    ensures Joined(Joined(p, q), r) == Joined(p, Joined(q, r))
  {
  }

  /** What the results will be when the loop stands at `args` with `done` collected. */
  function Rest(words: Words, done: Parts, args: seq<string>, expecting: bool, stop: bool): Parts {
    Joined(done, PickAll(args, Labels(words, args, expecting, stop)))
  }

  /** One turn of the loop moves one token, or a global flag with its value. */
  lemma Turn(words: Words, done: Parts, args: seq<string>, expecting: bool, stop: bool)
    requires args != []
    ensures Rest(words, done, args, expecting, stop) ==
      if expecting then
        Rest(words, Joined(done, One(Sub, args[0])), args[1..], false, stop)
      else if !stop && IsCommand(words, args[0]) then
        Rest(words, Joined(done, One(Command, args[0])), args[1..], false, args[0] in STOP_COMMANDS)
      else if IsGlobal(words, args[0]) then
        if WantsValue(words, args[0]) && TakesNext(args) then
          Rest(words, Joined(Joined(done, One(Global, args[0])), One(Global, args[1])), args[2..], false, stop)
        else Rest(words, Joined(done, One(Global, args[0])), args[1..], false, stop)
      else Rest(words, Joined(done, One(Sub, args[0])), args[1..], Expects(words, args), stop)
  {
    var labels := Labels(words, args, expecting, stop);
    TakeOne(done, args, labels);
    if !expecting && (stop || !IsCommand(words, args[0])) && WantsValue(words, args[0]) && TakesNext(args) {
      TakeOne(Joined(done, One(Global, args[0])), args[1..], labels[1..]);
      assert args[1..][1..] == args[2..] && labels[1..][1..] == labels[2..];
    }
  }

  /** Taking one more token over into the results. */
  lemma TakeOne(done: Parts, argv: seq<string>, labels: seq<Label>)
    requires |argv| == |labels| && argv != []
    ensures Joined(done, PickAll(argv, labels)) ==
      Joined(Joined(done, One(labels[0], argv[0])), PickAll(argv[1..], labels[1..]))
  {
    PickStep(argv, labels);
    JoinedAssociative(done, One(labels[0], argv[0]), PickAll(argv[1..], labels[1..]));
  }

  // The same turn by turn, as the loop at token `i` sees it with the results `p` so far.

  lemma TurnToSub(words: Words, p: Parts, argv: seq<string>, i: nat, expecting: bool, stop: bool)
    requires i < |argv|
    requires expecting || ((stop || !IsCommand(words, argv[i])) && !IsGlobal(words, argv[i]))
    ensures Rest(words, p, argv[i..], expecting, stop) ==
      Rest(words, p.(subs := p.subs + [argv[i]]), argv[i + 1..], !expecting && Expects(words, argv[i..]), stop)
  {
    Turn(words, p, argv[i..], expecting, stop);
    assert argv[i..][1..] == argv[i + 1..];
    assert Joined(p, One(Sub, argv[i])) == p.(subs := p.subs + [argv[i]]);
  }

  lemma TurnToCommand(words: Words, p: Parts, argv: seq<string>, i: nat)
    requires i < |argv| && IsCommand(words, argv[i])
    ensures Rest(words, p, argv[i..], false, false) ==
      Rest(words, p.(commands := p.commands + [argv[i]]), argv[i + 1..], false, argv[i] in STOP_COMMANDS)
  {
    Turn(words, p, argv[i..], false, false);
    assert argv[i..][1..] == argv[i + 1..];
    assert Joined(p, One(Command, argv[i])) == p.(commands := p.commands + [argv[i]]);
  }

  lemma TurnToGlobal(words: Words, p: Parts, argv: seq<string>, i: nat, stop: bool)
    requires i < |argv| && (stop || !IsCommand(words, argv[i])) && IsGlobal(words, argv[i])
    ensures Rest(words, p, argv[i..], false, stop) ==
      if WantsValue(words, argv[i]) && TakesNext(argv[i..]) then
        Rest(words, p.(globals := p.globals + [argv[i], argv[i + 1]]), argv[i + 2..], false, stop)
      else Rest(words, p.(globals := p.globals + [argv[i]]), argv[i + 1..], false, stop)
  {
    Turn(words, p, argv[i..], false, stop);
    assert argv[i..][1..] == argv[i + 1..];
    assert Joined(p, One(Global, argv[i])) == p.(globals := p.globals + [argv[i]]);
    if i + 1 < |argv| {
      assert argv[i..][2..] == argv[i + 2..];
      assert p.globals + [argv[i]] + [argv[i + 1]] == p.globals + [argv[i], argv[i + 1]];
      assert Joined(Joined(p, One(Global, argv[i])), One(Global, argv[i + 1]))
          == p.(globals := p.globals + [argv[i], argv[i + 1]]);
    }
  }

  /** `_extract_commands_from_argv`, with the loop of the source. */
  method ExtractCommandsFromArgv(words: Words, argv: seq<string>)
    returns (commands: seq<string>, globals: seq<string>, subs: seq<string>)
    ensures Parts(commands, globals, subs) == Split(words, argv)
    ensures Weave(Labels(words, argv, false, false), Parts(commands, globals, subs)) == argv
  {
    commands, globals, subs := [], [], [];
    var i := 0;
    var expecting := false;
    var stop := false;
    ghost var result := Split(words, argv);
    while i < |argv|
      invariant i <= |argv|
      invariant result == Rest(words, Parts(commands, globals, subs), argv[i..], expecting, stop)
    {
      var arg := argv[i];
      ghost var p := Parts(commands, globals, subs);
      if expecting {
        TurnToSub(words, p, argv, i, true, stop);
        subs := subs + [arg];
        expecting := false;
        i := i + 1;
        continue;
      }
      if !stop && !Dash(arg) && arg in words.commands {
        TurnToCommand(words, p, argv, i);
        commands := commands + [arg];
        i := i + 1;
        if arg in STOP_COMMANDS {
          stop := true;
        }
        continue;
      }
      var argName := ArgName(arg);
      if argName in words.globals {
        TurnToGlobal(words, p, argv, i, stop);
        globals := globals + [arg];
        if argName !in words.globalBooleans && '=' !in arg && i + 1 < |argv| && !Dash(argv[i + 1]) {
          globals := globals + [argv[i + 1]];
          assert globals == p.globals + [arg, argv[i + 1]];
          i := i + 2;
        } else {
          i := i + 1;
        }
      } else {
        TurnToSub(words, p, argv, i, false, stop);
        subs := subs + [arg];
        if DoubleDash(arg) && argName !in words.subBooleans {
          expecting := '=' !in arg && i + 1 < |argv| && !Dash(argv[i + 1]);
        }
        i := i + 1;
      }
    }
    assert argv[i..] == [];
    SplitLosesNothing(words, argv);
  }

  // ---------------------------------------------------------------- splitting a rebuilt argv

  /** What `_build_args_namespace` and the command loop put together for one command. */
  function Rebuilt(globals: seq<string>, command: string, subs: seq<string>): seq<string> {
    globals + [command] + subs
  }

  /** The last global flag wants a value and has none. */
  predicate LacksValue(words: Words, globals: seq<string>) {
    globals != [] && WantsValue(words, globals[|globals| - 1])
  }

  /** A command word stands among the subcommand arguments where no flag takes it as its value. */
  predicate LooseCommand(words: Words, subs: seq<string>, expecting: bool)
    decreases |subs|
  {
    subs != [] &&
    if expecting then LooseCommand(words, subs[1..], false)
    else IsCommand(words, subs[0]) || LooseCommand(words, subs[1..], Expects(words, subs))
  }

  /** All of these are subcommand arguments. */
  function AllSub(n: nat): seq<Label> {
    seq(n, _ => Sub)
  }

  lemma {:induction false} LooseFrom(words: Words, subs: seq<string>, i: nat, expecting: bool)
    requires i <= |subs| && (i < |subs| ==> (expecting <==> IsValue(words, subs, AllSub(|subs|), i)))
    ensures LooseCommand(words, subs[i..], expecting) <==> exists k: nat ::
      i <= k < |subs| && IsCommand(words, subs[k]) && !IsValue(words, subs, AllSub(|subs|), k)
    decreases |subs| - i
  {
    if i < |subs| {
      assert subs[i..][1..] == subs[i + 1..];
      if i + 1 < |subs| {
        ValueFollows(words, subs[i..]);
      }
      LooseFrom(words, subs, i + 1, !expecting && Expects(words, subs[i..]));
    }
  }

  /** A command word stands loose if it stands somewhere and is not the value of the token before it. */
  lemma LooseMeans(words: Words, subs: seq<string>)
    ensures LooseCommand(words, subs, false) <==> exists k: nat ::
      k < |subs| && subs[k] in words.commands && !("-" <= subs[k]) && !IsValue(words, subs, AllSub(|subs|), k)
  {
    assert subs[0..] == subs;
    LooseFrom(words, subs, 0, false);
  }

  /** Global flags, each followed by its value if it wants one and there is one. */
  predicate GlobalShape(words: Words, globals: seq<string>)
    decreases |globals|
  {
    globals == [] ||
    (IsGlobal(words, globals[0]) &&
      if WantsValue(words, globals[0]) && TakesNext(globals) then GlobalShape(words, globals[2..])
      else GlobalShape(words, globals[1..]))
  }

  /** A token whose part before the `=` starts with a dash starts with one. */
  lemma GlobalHasDash(words: Words, arg: string)
    requires Dashed(words) && IsGlobal(words, arg)
    ensures Dash(arg)
  {
  }

  /** The globals found have that shape, and no token left to the subcommand is a global flag. */
  lemma {:induction false} ShapeOfParts(words: Words, argv: seq<string>, expecting: bool, stop: bool)
    requires Dashed(words) && (expecting ==> argv != [] && !Dash(argv[0]))
    ensures var p := PickAll(argv, Labels(words, argv, expecting, stop));
      && GlobalShape(words, p.globals)
      && (forall a :: a in p.subs ==> !IsGlobal(words, a))
      && (forall a :: a in p.commands ==> IsCommand(words, a))
    decreases |argv|
  {
    if argv != [] {
      PickStep(argv, Labels(words, argv, expecting, stop));
      if expecting {
        ShapeOfParts(words, argv[1..], false, stop);
      } else if !stop && IsCommand(words, argv[0]) {
        ShapeOfParts(words, argv[1..], false, argv[0] in STOP_COMMANDS);
      } else if IsGlobal(words, argv[0]) {
        ShapeOfGlobal(words, argv, stop);
      } else {
        ShapeOfParts(words, argv[1..], Expects(words, argv), stop);
      }
    }
  }

  lemma {:induction false} ShapeOfGlobal(words: Words, argv: seq<string>, stop: bool)
    requires Dashed(words) && argv != [] && IsGlobal(words, argv[0]) && (stop || !IsCommand(words, argv[0]))
    ensures var p := PickAll(argv, Labels(words, argv, false, stop));
      && GlobalShape(words, p.globals)
      && (forall a :: a in p.subs ==> !IsGlobal(words, a))
      && (forall a :: a in p.commands ==> IsCommand(words, a))
    decreases |argv|, 0
  {
    var labels := Labels(words, argv, false, stop);
    var p := PickAll(argv, labels);
    PickStep(argv, labels);
    if WantsValue(words, argv[0]) && TakesNext(argv) {
      PickStep(argv[1..], labels[1..]);
      assert argv[1..][1..] == argv[2..] && labels[1..][1..] == labels[2..];
      ShapeOfParts(words, argv[2..], false, stop);
      assert p.globals[2..] == PickAll(argv[2..], labels[2..]).globals;
    } else {
      ShapeOfParts(words, argv[1..], false, stop);
      var rest := PickAll(argv[1..], labels[1..]).globals;
      assert p.globals[1..] == rest;
      if rest != [] {
        GlobalHasDash(words, rest[0]);
      }
    }
  }

  function Globals(args: seq<string>): Parts {
    Parts([], args, [])
  }

  const NONE := Parts([], [], [])

  /** One global flag, with the value that follows it if it wants one, moves to the globals. */
  lemma FirstGlobalAgain(words: Words, done: Parts, globals: seq<string>, tail: seq<string>)
    requires Dashed(words) && globals != [] && GlobalShape(words, globals) && tail != [] && !Dash(tail[0])
    ensures var all := globals + tail;
      Rest(words, Joined(done, NONE), all, false, false) ==
        if WantsValue(words, globals[0]) && TakesNext(all) then
          Rest(words, Joined(done, Globals(all[..2])), all[2..], false, false)
        else Rest(words, Joined(done, Globals(all[..1])), all[1..], false, false)
  {
    var all := globals + tail;
    GlobalHasDash(words, globals[0]);
    assert Joined(done, NONE) == done;
    Turn(words, done, all, false, false);
    assert Globals(all[..1]) == One(Global, all[0]);
    if TakesNext(all) {
      assert Joined(Joined(done, One(Global, all[0])), One(Global, all[1])) == Joined(done, Globals(all[..2]));
    }
  }

  /** Splitting the globals first: all are found again, and the next token too if a value lacks. */
  lemma {:induction false} GlobalsAgain(words: Words, done: Parts, globals: seq<string>, tail: seq<string>)
    requires Dashed(words) && GlobalShape(words, globals) && tail != [] && !Dash(tail[0])
    ensures Rest(words, Joined(done, NONE), globals + tail, false, false) ==
      if LacksValue(words, globals) then
        Rest(words, Joined(done, Globals(globals + [tail[0]])), tail[1..], false, false)
      else Rest(words, Joined(done, Globals(globals)), tail, false, false)
    decreases |globals|
  {
    var all := globals + tail;
    if globals == [] {
      assert all == tail;
    } else {
      FirstGlobalAgain(words, done, globals, tail);
      if |globals| > 1 && WantsValue(words, globals[0]) && TakesNext(globals) {
        NoDashNoGlobal(words, globals[1]);
        GlobalsAgainAfter(words, done, globals, tail, 2);
      } else if |globals| == 1 && WantsValue(words, globals[0]) {
        assert all[..2] == globals + [tail[0]] && all[2..] == tail[1..];
      } else {
        if |globals| > 1 {
          GlobalHasDash(words, globals[1]);
        }
        GlobalsAgainAfter(words, done, globals, tail, 1);
      }
    }
  }

  lemma {:induction false} GlobalsAgainAfter(
    words: Words, done: Parts, globals: seq<string>, tail: seq<string>, n: nat)
    requires Dashed(words) && 0 < n <= |globals| && GlobalShape(words, globals[n..]) && tail != [] && !Dash(tail[0])
    requires n == |globals| ==> !LacksValue(words, globals)
    ensures var all := globals + tail;
      Rest(words, Joined(done, Globals(all[..n])), all[n..], false, false) ==
        if LacksValue(words, globals) then
          Rest(words, Joined(done, Globals(globals + [tail[0]])), tail[1..], false, false)
        else Rest(words, Joined(done, Globals(globals)), tail, false, false)
    decreases |globals|, 0
  {
    var all := globals + tail;
    var front, rest := all[..n], globals[n..];
    var done1 := Joined(done, Globals(front));
    assert all[n..] == rest + tail && globals == front + rest;
    GlobalsAgain(words, done1, rest, tail);
    assert Joined(done1, NONE) == done1;
    GlobalsJoined(done, front, rest);
    GlobalsJoined(done, front, rest + [tail[0]]);
    assert front + (rest + [tail[0]]) == globals + [tail[0]];
    assert LacksValue(words, rest) == LacksValue(words, globals);
  }

  lemma GlobalsJoined(done: Parts, args: seq<string>, more: seq<string>)
    ensures Joined(Joined(done, Globals(args)), Globals(more)) == Joined(done, Globals(args + more))
  {
  }

  lemma NoDashNoGlobal(words: Words, arg: string)
    requires Dashed(words) && !Dash(arg)
    ensures !IsGlobal(words, arg)
  {
    if IsGlobal(words, arg) {
      GlobalHasDash(words, arg);
    }
  }

  /** Splitting the subcommand arguments again: all stay, unless a command word stands loose. */
  lemma {:induction false} SubsAgain(words: Words, subs: seq<string>, expecting: bool, stop: bool)
    requires forall a :: a in subs ==> !IsGlobal(words, a)
    ensures var p := PickAll(subs, Labels(words, subs, expecting, stop));
      if !stop && LooseCommand(words, subs, expecting) then p.commands != [] else p == Parts([], [], subs)
    decreases |subs|
  {
    if subs != [] {
      var labels := Labels(words, subs, expecting, stop);
      PickStep(subs, labels);
      if expecting {
        SubsAgain(words, subs[1..], false, stop);
      } else if stop || !IsCommand(words, subs[0]) {
        SubsAgain(words, subs[1..], Expects(words, subs), stop);
      }
    }
  }

  lemma SplitIsRest(words: Words, argv: seq<string>)
    ensures Split(words, argv) == Rest(words, NONE, argv, false, false)
  {
  }

  lemma NothingDone(p: Parts)
    ensures Joined(NONE, p) == p
  {
  }

  /** What splitting a rebuilt argv gives, in terms of splitting its last part. */
  lemma RebuiltParts(words: Words, globals: seq<string>, command: string, subs: seq<string>)
    requires Dashed(words) && GlobalShape(words, globals) && IsCommand(words, command)
    ensures Split(words, Rebuilt(globals, command, subs)) ==
      if LacksValue(words, globals) then
        Joined(Globals(globals + [command]), PickAll(subs, Labels(words, subs, false, false)))
      else
        Joined(Parts([command], globals, []), PickAll(subs, Labels(words, subs, false, command in STOP_COMMANDS)))
  {
    var tail := [command] + subs;
    assert Rebuilt(globals, command, subs) == globals + tail && tail[1..] == subs;
    SplitIsRest(words, globals + tail);
    GlobalsAgain(words, NONE, globals, tail);
    NothingDone(Globals(globals));
    NothingDone(Globals(globals + [command]));
    if !LacksValue(words, globals) {
      TurnToCommandAfter(words, globals, command, subs);
    }
  }

  lemma TurnToCommandAfter(words: Words, globals: seq<string>, command: string, subs: seq<string>)
    requires IsCommand(words, command)
    ensures Rest(words, Globals(globals), [command] + subs, false, false) ==
      Rest(words, Parts([command], globals, []), subs, false, command in STOP_COMMANDS)
  {
    var tail := [command] + subs;
    assert tail[0..] == tail && tail[1..] == subs;
    TurnToCommand(words, Globals(globals), tail, 0);
    assert Globals(globals).commands + [command] == [command];
  }

  /**
   The round trip, exactly: for a command the splitter found, splitting the rebuilt argv gives
   that command and the same two lists, if and only if the last global flag has its value and
   the command is a stop command or no command word stands loose among the arguments.
   */
  lemma RebuiltSplitsBack(words: Words, argv: seq<string>, command: string)
    requires Dashed(words) && command in Split(words, argv).commands
    ensures var p := Split(words, argv);
      Split(words, Rebuilt(p.globals, command, p.subs)) == Parts([command], p.globals, p.subs) <==>
      !LacksValue(words, p.globals) && (command in STOP_COMMANDS || !LooseCommand(words, p.subs, false))
  {
    var p := Split(words, argv);
    ShapeOfParts(words, argv, false, false);
    if LacksValue(words, p.globals) {
      SwallowsCommand(words, p.globals, command, p.subs);
    } else {
      KeepsCommand(words, p.globals, command, p.subs);
    }
  }

  /** The flag without its value takes the command for it: one token more among the globals. */
  lemma SwallowsCommand(words: Words, globals: seq<string>, command: string, subs: seq<string>)
    requires Dashed(words) && GlobalShape(words, globals) && IsCommand(words, command) && LacksValue(words, globals)
    ensures |Split(words, Rebuilt(globals, command, subs)).globals| > |globals|
  {
    RebuiltParts(words, globals, command, subs);
  }

  lemma KeepsCommand(words: Words, globals: seq<string>, command: string, subs: seq<string>)
    requires Dashed(words) && GlobalShape(words, globals) && IsCommand(words, command) && !LacksValue(words, globals)
    requires forall a :: a in subs ==> !IsGlobal(words, a)
    ensures Split(words, Rebuilt(globals, command, subs)) == Parts([command], globals, subs) <==>
            command in STOP_COMMANDS || !LooseCommand(words, subs, false)
  {
    RebuiltParts(words, globals, command, subs);
    SubsAgain(words, subs, false, command in STOP_COMMANDS);
    var q := PickAll(subs, Labels(words, subs, false, command in STOP_COMMANDS));
    var r := Joined(Parts([command], globals, []), q);
    assert r.commands == [command] + q.commands;
    if command in STOP_COMMANDS || !LooseCommand(words, subs, false) {
      assert r == Parts([command], globals, subs);
    } else {
      assert |r.commands| > 1;
    }
  }

  /** A chain without stop commands, or one stop command alone, leaves no command word loose. */
  lemma {:induction false} NoLooseCommand(words: Words, argv: seq<string>, expecting: bool)
    requires Dashed(words) && (expecting ==> argv != [] && !Dash(argv[0]))
    requires forall c :: c in PickAll(argv, Labels(words, argv, expecting, false)).commands ==> c !in STOP_COMMANDS
    ensures var subs := PickAll(argv, Labels(words, argv, expecting, false)).subs;
      && !LooseCommand(words, subs, expecting)
      && (subs != [] && !Dash(subs[0]) ==> !LooseCommand(words, subs, true))
    decreases |argv|
  {
    if argv != [] {
      var labels := Labels(words, argv, expecting, false);
      PickStep(argv, labels);
      if expecting {
        NoLooseCommand(words, argv[1..], false);
      } else if IsCommand(words, argv[0]) {
        NoLooseCommand(words, argv[1..], false);
      } else if IsGlobal(words, argv[0]) {
        if WantsValue(words, argv[0]) && TakesNext(argv) {
          PickStep(argv[1..], labels[1..]);
          assert argv[1..][1..] == argv[2..] && labels[1..][1..] == labels[2..];
          NoLooseCommand(words, argv[2..], false);
        } else {
          NoLooseCommand(words, argv[1..], false);
        }
      } else {
        NoLooseCommand(words, argv[1..], Expects(words, argv));
      }
    }
  }

  /** The round trip as the callers rely on it. */
  lemma ChainSplitsBack(words: Words, argv: seq<string>, command: string)
    requires Dashed(words)
    requires var p := Split(words, argv);
      && command in p.commands && !LacksValue(words, p.globals)
      && (p.commands == [command] || forall c :: c in p.commands ==> c !in STOP_COMMANDS)
    ensures var p := Split(words, argv);
      Split(words, Rebuilt(p.globals, command, p.subs)) == Parts([command], p.globals, p.subs)
  {
    RebuiltSplitsBack(words, argv, command);
    if command !in STOP_COMMANDS {
      NoLooseCommand(words, argv, false);
    }
  }

  /** Two commands, the second a stop command, and the first once more. */
  lemma SplitStopInsideChain(words: Words, first: string, stop: string)
    requires IsCommand(words, first) && IsCommand(words, stop) && first !in STOP_COMMANDS && stop in STOP_COMMANDS
    requires !IsGlobal(words, first)
    ensures Split(words, [first, stop, first]) == Parts([first, stop], [], [first])
  {
    assert [first, stop, first][1..] == [stop, first] && [stop, first][1..] == [first];
    assert Labels(words, [first], false, true) == [Sub];
    assert Labels(words, [stop, first], false, false) == [Command, Sub];
    assert Labels(words, [first, stop, first], false, false) == [Command, Command, Sub];
    PickStep([first, stop, first], [Command, Command, Sub]);
    PickStep([stop, first], [Command, Sub]);
    PickStep([first], [Sub]);
  }

  lemma StopInChainBreaks(words: Words, first: string, stop: string)
    requires IsCommand(words, first) && IsCommand(words, stop) && first !in STOP_COMMANDS && stop in STOP_COMMANDS
    requires !IsGlobal(words, first) && Dashed(words)
    ensures var p := Split(words, [first, stop, first]);
      && first in p.commands
      && Split(words, Rebuilt(p.globals, first, p.subs)) != Parts([first], p.globals, p.subs)
  {
    SplitStopInsideChain(words, first, stop);
    assert LooseCommand(words, [first], false);
    RebuiltSplitsBack(words, [first, stop, first], first);
  }

  /** A stop command inside a chain: the word after it is an argument once and a command the next time. */
  lemma StopInsideChain()
    ensures var words := Words({"migrate", "db"}, {}, {}, {});
      var p := Split(words, ["migrate", "db", "migrate"]);
      && "migrate" in p.commands
      && Split(words, Rebuilt(p.globals, "migrate", p.subs)) != Parts(["migrate"], p.globals, p.subs)
  {
    assert "migrate"[0] == 'm' && "db"[0] == 'd';
    StopInChainBreaks(Words({"migrate", "db"}, {}, {}, {}), "migrate", "db");
  }

  lemma {:induction false} NameWithoutEquals(arg: string)
    requires '=' !in arg
    ensures ArgName(arg) == arg
  {
    if arg != "" {
      NameWithoutEquals(arg[1..]);
      assert arg == [arg[0]] + arg[1..];
    }
  }

  /** A command, then a global flag without its value. */
  lemma SplitFlagWithoutValue(words: Words, command: string, flag: string)
    requires IsCommand(words, command) && command !in STOP_COMMANDS && IsGlobal(words, flag) && Dash(flag)
    ensures Split(words, [command, flag]) == Parts([command], [flag], [])
  {
    assert [command, flag][1..] == [flag];
    assert Labels(words, [flag], false, false) == [Global];
    assert Labels(words, [command, flag], false, false) == [Command, Global];
    PickStep([command, flag], [Command, Global]);
    PickStep([flag], [Global]);
  }

  lemma FlagTakesCommand(words: Words, command: string, flag: string)
    requires IsCommand(words, command) && command !in STOP_COMMANDS && WantsValue(words, flag) && Dashed(words)
    ensures var p := Split(words, [command, flag]);
      && command in p.commands
      && Split(words, Rebuilt(p.globals, command, p.subs)) != Parts([command], p.globals, p.subs)
  {
    GlobalHasDash(words, flag);
    SplitFlagWithoutValue(words, command, flag);
    assert LacksValue(words, [flag]);
    RebuiltSplitsBack(words, [command, flag], command);
  }

  /** A global flag without its value takes the command for it when the argv is rebuilt. */
  lemma FlagWithoutValue()
    ensures var words := Words({"migrate"}, {"--config"}, {}, {});
      var p := Split(words, ["migrate", "--config"]);
      && "migrate" in p.commands
      && Split(words, Rebuilt(p.globals, "migrate", p.subs)) != Parts(["migrate"], p.globals, p.subs)
  {
    NameWithoutEquals("--config");
    assert "migrate"[0] == 'm' && "--config"[0] == '-';
    FlagTakesCommand(Words({"migrate"}, {"--config"}, {}, {}), "migrate", "--config");
  }
}
