/**
 * How a line ends that no handler gets, and what a handler gets
 * (`client-v2/src/utils/command.ts`).
 */
module CommandOutcomes {
  import opened Options
  import opened CommandSpec
  import opened CommandParser
  import opened CommandTheorems

  // -- Lines that reach no handler -------------------------------------------

  /** A command that takes anything shows its help when that is asked for first, whatever follows, and does not run. */
  lemma HelpIsShown(command: Command, rest: seq<string>)
    requires ArgsOf(command) != [] || |command.options| > 1
    ensures Handle(command, ["--help"] + rest) == Help(command)
    ensures Handle(command, ["-h"] + rest) == Help(command)
  {}

  lemma {:induction false} FirstCommandIsFound(commands: seq<Command>, i: nat)
    requires i < |commands| && forall j | 0 <= j < i :: commands[j].name != commands[i].name
    ensures FindCommand(commands, commands[i].name) == Some(commands[i])
  {
    if i > 0 {
      assert commands[1..][i - 1] == commands[i];
      assert forall j | 0 <= j < i - 1 :: commands[1..][j] == commands[j + 1];
      FirstCommandIsFound(commands[1..], i - 1);
    }
  }

  /** The first subcommand of a name is the one it leads to. */
  lemma SubcommandIsFound(command: Command, subcommands: seq<Command>, i: nat)
    requires command.subcommands == Some(subcommands)
    requires i < |subcommands| && forall j | 0 <= j < i :: subcommands[j].name != subcommands[i].name
    ensures FindSubcommand(command, subcommands[i].name) == Some(subcommands[i])
  {
    FirstCommandIsFound(subcommands, i);
  }

  /** An empty line does nothing, and one that starts with no command's name says so. */
  lemma LineNeedsACommand(commands: seq<Command>, name: string, rest: seq<string>)
    ensures Execute(commands, []) == Nothing && Execute(commands, [""] + rest) == Nothing
    ensures name != "" && (forall i | 0 <= i < |commands| :: commands[i].name != name) ==>
              Execute(commands, [name] + rest) == UnknownCommand(name)
  {
    hide Walk;
    assert ([name] + rest)[0] == name;
    var found := FindCommand(commands, name);
    assert found.Some? ==> exists i :: 0 <= i < |commands| && commands[i] == found.value;
  }

  /** A line by the name of a command goes to the first command of that name, or to its subcommands. */
  lemma CommandIsReached(commands: seq<Command>, i: nat, rest: seq<string>)
    requires i < |commands| && commands[i].name != ""
    requires forall j | 0 <= j < i :: commands[j].name != commands[i].name
    requires commands[i].subcommands.None?
    ensures Execute(commands, [commands[i].name] + rest) ==
            if commands[i].handles then Handle(commands[i], rest) else Usage(commands[i])
  {
    var top := commands[i];
    FirstCommandIsFound(commands, i);
    assert Reached(top, top.name) == top;
    assert NoSubcommandNext(top, rest);
    hide Handle, Execute, FindCommand, Reached, NoSubcommandNext;
    assert [top.name] + [] + rest == [top.name] + rest;
    SubcommandsAreReached(commands, top, [], top, rest);
  }

  // -- Lines that fail -------------------------------------------------------

  /** A token with a dash that names no option fails the line, wherever it stands outside of a value. */
  lemma UnknownOptionFails(command: Command, items: seq<Item>, token: string, rest: seq<string>)
    requires WellFormed(command) && AllRenderable(command.options, items)
    requires "-" <= token && forall i | 0 <= i < |command.options| :: !Names(command.options[i], token)
    requires !StartsWithHelp(RenderAll(command.options, items) + ([token] + rest))
    ensures Handle(command, RenderAll(command.options, items) + ([token] + rest)) == Failed(UnexpectedOption(token))
  {
    var tokens := RenderAll(command.options, items) + ([token] + rest);
    SplitRendered(command, items, [token] + rest);
    assert FindOption(command.options, token) == None;
    assert Split(command, [token] + rest, false) == Err(UnexpectedOption(token));
    assert tokens[0] != "" by {
      if items != [] { FirstTokenIsNotEmpty(command.options, items); }
    }
    hide Split, NamesDistinct, ShortsDistinct, Names, FindOption;
  }

  /** Where the positionals are too many, the line fails for that, whatever else is wrong with it. */
  lemma TooManyFail(command: Command, items: seq<Item>)
    requires WellFormed(command) && AllRenderable(command.options, items) && !IsParent(command)
    requires !StartsWithHelp(RenderAll(command.options, items))
    requires command.args.Some? && |Positionals(items)| > |command.args.value| && !TakesMany(command.args.value)
    ensures Handle(command, RenderAll(command.options, items)) == Failed(TooManyArguments(|Positionals(items)|))
  {
    SplitInvertsRendering(command, items);
    if items != [] { FirstTokenIsNotEmpty(command.options, items); }
    hide Split, NamesDistinct, ShortsDistinct;
  }

  /** `value` is the first of the given ones that is not allowed. */
  ghost predicate IsFirstBad(given: seq<string>, allowed: seq<string>, value: string) {
    exists i :: 0 <= i < |given| && given[i] == value && value !in allowed && forall j | 0 <= j < i ::
        given[j] in allowed
  }

  /** The argument at `k` takes what it is given. */
  predicate Takes(args: seq<Arg>, inputs: seq<string>, k: nat)
    requires k < |args|
  {
    && (k < |inputs| || args[k].optional)
    && (args[k].values.Some? ==> forall value | value in GivenTo(args[k], inputs, k) :: value in args[k].values.value)
  }

  lemma {:induction false} FirstInvalidIsFirst(inputs: seq<string>, values: seq<string>)
    ensures FirstInvalid(inputs, values).Some? ==> IsFirstBad(inputs, values, FirstInvalid(inputs, values).value)
  {
    if inputs != [] && inputs[0] in values {
      FirstInvalidIsFirst(inputs[1..], values);
      var bad := FirstInvalid(inputs[1..], values);
      if bad.Some? {
        var i :| 0 <= i < |inputs[1..]| && inputs[1..][i] == bad.value && forall j | 0 <= j < i ::
            inputs[1..][j] in values;
        assert inputs[i + 1] == bad.value;
        assert forall j | 0 < j < i + 1 :: inputs[j] == inputs[1..][j - 1];
      }
    }
  }

  lemma ArgumentFails(args: seq<Arg>, inputs: seq<string>, k: nat)
    requires NoEmpty(inputs) && k < |args| && !Takes(args, inputs, k)
    ensures ParseArg(args[k], inputs, k).Err?
    ensures var e := ParseArg(args[k], inputs, k).error;
            if |inputs| <= k then e == ArgumentMissing(args[k].name)
            else e.BadArgument? && IsFirstBad(GivenTo(args[k], inputs, k), args[k].values.value, e.value)
  {
    InputsAreGiven(args[k], inputs, k);
    var given := GivenTo(args[k], inputs, k);
    if args[k].values.Some? { FirstInvalidIsFirst(given, args[k].values.value); }
    hide InputsFor, GivenTo, IsFirstBad;
  }

  lemma ArgumentTakes(args: seq<Arg>, inputs: seq<string>, k: nat)
    requires NoEmpty(inputs) && k < |args| && Takes(args, inputs, k)
    ensures ParseArg(args[k], inputs, k).Ok?
  {
    ParseArgIs(args[k], inputs, k);
    hide ParseArg, GivenTo;
  }

  /**
   * Of the arguments that do not take what they are given, the first one in the
   * declaration says why the positionals do not parse: it is missing, or the
   * first value that it does not allow.
   */
  lemma {:induction false} FirstBadArgument(args: seq<Arg>, inputs: seq<string>, k: nat, n: nat)
    requires NoEmpty(inputs) && k < n <= |args|
    requires !Takes(args, inputs, k) && forall j | 0 <= j < k :: Takes(args, inputs, j)
    ensures ParseArgs(args, inputs, n).Err?
    ensures var e := ParseArgs(args, inputs, n).error;
            if |inputs| <= k then e == ArgumentMissing(args[k].name)
            else e.BadArgument? && IsFirstBad(GivenTo(args[k], inputs, k), args[k].values.value, e.value)
  {
    hide ParseArg, GivenTo, IsFirstBad, Takes, NoEmpty;
    AllBeforeTake(args, inputs, k);
    ArgumentFails(args, inputs, k);
    assert ParseArgs(args, inputs, k + 1) == Err(ParseArg(args[k], inputs, k).error);
    hide ParseArgs;
    ParseArgsFails(args, inputs, k + 1, n);
  }

  lemma {:induction false} AllBeforeTake(args: seq<Arg>, inputs: seq<string>, k: nat)
    requires NoEmpty(inputs) && k <= |args| && forall j | 0 <= j < k :: Takes(args, inputs, j)
    ensures ParseArgs(args, inputs, k).Ok?
  {
    if k > 0 {
      AllBeforeTake(args, inputs, k - 1);
      ArgumentTakes(args, inputs, k - 1);
      hide ParseArg, Takes;
    }
  }

  /** A line whose positionals are not too many fails for its first bad argument, whatever its options are. */
  lemma BadArgumentFails(command: Command, items: seq<Item>, k: nat)
    requires WellFormed(command) && AllRenderable(command.options, items) && (IsParent(command) ==> items == [])
    requires !StartsWithHelp(RenderAll(command.options, items))
    requires var args, inputs := ArgsOf(command), Inputs(command, items);
             && (|inputs| <= |args| || TakesMany(args))
             && k < |args| && !Takes(args, inputs, k) && forall j | 0 <= j < k :: Takes(args, inputs, j)
    ensures var outcome := Handle(command, RenderAll(command.options, items));
            var args, inputs := ArgsOf(command), Inputs(command, items);
            && outcome.Failed?
            && (if |inputs| <= k then outcome.error == ArgumentMissing(args[k].name)
                else && outcome.error.BadArgument?
                     && IsFirstBad(GivenTo(args[k], inputs, k), args[k].values.value, outcome.error.value))
  {
    PartsReadBack(command, items);
    InputsAreNotEmpty(command, items);
    FirstBadArgument(ArgsOf(command), Inputs(command, items), k, |ArgsOf(command)|);
    hide PartsOf, WellFormed, Takes, IsFirstBad, GivenTo, ParseArgs, Inputs, ArgsOf;
  }

  /** Of the options that do not parse, the first one in the declaration says why. */
  lemma {:induction false} FirstBadOption(options: seq<Opt>, items: seq<Item>, k: nat, n: nat)
    requires NamesDistinct(options) && ShortsDistinct(options) && AllRenderable(options, items) && k < n <= |options|
    requires Read(options, items, k).Err? && forall j | 0 <= j < k :: Read(options, items, j).Ok?
    ensures ParseOpts(options, OptionTokens(options, items), n) == Err(Read(options, items, k).error)
  {
    hide Read, ParseOpt, NamesDistinct, ShortsDistinct;
    var opts := OptionTokens(options, items);
    AllBeforeRead(options, items, k);
    OptionReads(options, items, k);
    assert ParseOpts(options, opts, k + 1) == Err(Read(options, items, k).error);
    ParseOptsFails(options, opts, k + 1, n);
  }

  lemma {:induction false} AllBeforeRead(options: seq<Opt>, items: seq<Item>, k: nat)
    requires NamesDistinct(options) && ShortsDistinct(options) && AllRenderable(options, items) && k <= |options|
    requires forall j | 0 <= j < k :: Read(options, items, j).Ok?
    ensures ParseOpts(options, OptionTokens(options, items), k).Ok?
  {
    hide Read, ParseOpt, NamesDistinct, ShortsDistinct;
    if k > 0 {
      AllBeforeRead(options, items, k - 1);
      OptionReads(options, items, k - 1);
    }
  }

  /** A line whose positionals fit fails for its first bad option. */
  lemma BadOptionFails(command: Command, items: seq<Item>, k: nat)
    requires WellFormed(command) && AllRenderable(command.options, items) && (IsParent(command) ==> items == [])
    requires !StartsWithHelp(RenderAll(command.options, items)) && Fits(ArgsOf(command), Inputs(command, items))
    requires k < |command.options| && Read(command.options, items, k).Err?
    requires forall j | 0 <= j < k :: Read(command.options, items, j).Ok?
    ensures Handle(command, RenderAll(command.options, items)) == Failed(Read(command.options, items, k).error)
  {
    PartsReadBack(command, items);
    InputsAreNotEmpty(command, items);
    ArgumentsParseWhen(ArgsOf(command), Inputs(command, items));
    FirstBadOption(command.options, items, k, |command.options|);
    hide PartsOf, ParseArgs, ParseOpts, Inputs, ArgsOf, Read, RequiredFirst, MultipleLast, ArgNamesDistinct,
      NamesDistinct,
      ShortsDistinct, ValuesAllowed;
  }

  // -- Empty tokens ----------------------------------------------------------

  /** A line whose next token is empty is read as if nothing followed. */
  lemma EmptyNextTokenEndsLine(command: Command, rest: seq<string>)
    ensures Handle(command, [""] + rest) == Handle(command, [])
  {
    hide Split, ParseArgs, ParseOpts;
    assert ([""] + rest)[0] == "";
  }

  /** An empty token does not count for an argument that takes one. */
  lemma EmptyArgumentIsMissing(arg: Arg, inputs: seq<string>, k: nat)
    requires k < |inputs| && inputs[k] == "" && !arg.multiple
    ensures ParseArg(arg, inputs, k) == if arg.optional then Ok(None) else Err(ArgumentMissing(arg.name))
  {}

  /** For one that takes many it counts, and as the first value that is not allowed it lets all of them through. */
  lemma EmptyValueLetsThrough(arg: Arg, inputs: seq<string>, k: nat)
    requires k < |inputs| && arg.multiple && arg.values.Some?
    requires IsFirstBad(inputs[k..], arg.values.value, "")
    ensures ParseArg(arg, inputs, k) == Ok(Some(Many(inputs[k..])))
  {
    FirstBadIsUnique(inputs[k..], arg.values.value, "");
  }

  lemma FirstBadIsUnique(given: seq<string>, allowed: seq<string>, value: string)
    requires IsFirstBad(given, allowed, value)
    ensures FirstInvalid(given, allowed) == Some(value)
  {
    FirstInvalidIsFirst(given, allowed);
    var i :| 0 <= i < |given| && given[i] == value && value !in allowed && forall j | 0 <= j < i :: given[j] in allowed;
    var found := FirstInvalid(given, allowed);
    assert found.Some?;
    var k :| 0 <= k < |given| && given[k] == found.value && forall j | 0 <= j < k :: given[j] in allowed;
    assert i == k;
  }

  /** An empty token is no value for an option. */
  lemma EmptyOptionValueIsMissing(opt: Opt, opts: seq<string>)
    requires opt.takeValue && Names(opt, First(opts)) && opts != []
    requires |opts| == 1 || opts[1] == ""
    ensures ParseOpt(opt, opts) == Err(OptionValueMissing(opt.name))
  {
    hide Names;
  }

  // -- What a handler gets ---------------------------------------------------

  /** Each argument of a handled line: its value, all values from its place if it takes many, or nothing. */
  lemma HandlerGets(command: Command, items: seq<Item>, k: nat)
    requires WellFormed(command) && AllRenderable(command.options, items) && (IsParent(command) ==> items == [])
    requires !StartsWithHelp(RenderAll(command.options, items)) && k < |ArgsOf(command)|
    requires Handle(command, RenderAll(command.options, items)).Handled?
    ensures var outcome := Handle(command, RenderAll(command.options, items));
            var arg, inputs := ArgsOf(command)[k], Inputs(command, items);
            && (arg.name in outcome.args <==> k < |inputs|)
            && (k < |inputs| ==>
                  outcome.args[arg.name] == if arg.multiple then Many(inputs[k..]) else One(inputs[k]))
  {
    var args, inputs := ArgsOf(command), Inputs(command, items);
    PartsReadBack(command, items);
    InputsAreNotEmpty(command, items);
    ParseArgsIs(args, inputs, |args|);
    ParseArgIs(args[k], inputs, k);
    hide PartsOf, ParseArgs, ParseArg, ParseOpts, Inputs, ArgsOf, GivenTo;
  }
}
