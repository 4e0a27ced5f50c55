/**
 * How `PgCommandManager.execute` (`client-v2/src/utils/command.ts`) reads a
 * line of tokens: the subcommand it names, its arguments and its options.
 */
module CommandParser {
  import opened Options
  import opened CommandSpec

  datatype Command = Command(
    name: string,
    args: Option<seq<Arg>>,
    options: seq<Opt>,
    subcommands: Option<seq<Command>>,
    handles: bool)

  datatype ArgValue = One(value: string) | Many(values: seq<string>)
  datatype OptValue = Set | Valued(value: string)

  datatype ParseError =
    | UnexpectedOption(token: string)
    | NoSuchSubcommand(token: string)
    | TooManyArguments(count: nat)
    | ArgumentMissing(name: string)
    | BadArgument(value: string)
    | OptionValueMissing(name: string)
    | BadOptionValue(value: string)

  datatype Result<+T> = Ok(value: T) | Err(error: ParseError)

  datatype Outcome =
    | Nothing
    | UnknownCommand(name: string)
    | Usage(command: Command)
    | Help(command: Command)
    | Failed(error: ParseError)
    | Handled(command: Command, args: map<string, ArgValue>, options: map<string, OptValue>)

  // -- Splitting tokens into arguments and options ---------------------------

  datatype Parts = Parts(args: seq<string>, opts: seq<string>)

  /** The position of the first option that a token names */
  function FindOption(options: seq<Opt>, token: string): (r: Option<nat>)
    ensures r.Some? ==> r.value < |options| && Names(options[r.value], token)
    ensures r.Some? ==> forall i | 0 <= i < r.value :: !Names(options[i], token)
    ensures r.None? ==> forall i | 0 <= i < |options| :: !Names(options[i], token)
  {
    if options == [] then None
    else if Names(options[0], token) then Some(0)
    else
      var r := FindOption(options[1..], token);
      if r.None? then None else Some(r.value + 1)
  }

  function AddArg(token: string, r: Result<Parts>): Result<Parts> {
    if r.Ok? then Ok(Parts([token] + r.value.args, r.value.opts)) else r
  }

  function AddOpt(token: string, r: Result<Parts>): Result<Parts> {
    if r.Ok? then Ok(Parts(r.value.args, [token] + r.value.opts)) else r
  }

  function Split(command: Command, tokens: seq<string>, takeValue: bool): Result<Parts> {
    if tokens == [] then Ok(Parts([], []))
    else if takeValue then AddOpt(tokens[0], Split(command, tokens[1..], false))
    else if "-" <= tokens[0] then
      var option := FindOption(command.options, tokens[0]);
      if option.None? then Err(UnexpectedOption(tokens[0]))
      else AddOpt(tokens[0], Split(command, tokens[1..], command.options[option.value].takeValue))
    else if command.args.Some? then AddArg(tokens[0], Split(command, tokens[1..], false))
    else Split(command, tokens[1..], false)
  }

  /** `r` with `parts` in front of it */
  function Prepend(parts: Parts, r: Result<Parts>): Result<Parts> {
    if r.Ok? then Ok(Parts(parts.args + r.value.args, parts.opts + r.value.opts)) else r
  }

  method SplitTokens(command: Command, tokens: seq<string>) returns (r: Result<Parts>)
    ensures r == Split(command, tokens, false)
  {
    var args: seq<string>, opts: seq<string>, takeValue := [], [], false;
    PrependNothing(Split(command, tokens, false));
    assert tokens[0..] == tokens;
    for i := 0 to |tokens|
      invariant Split(command, tokens, false) == Prepend(Parts(args, opts), Split(command, tokens[i..], takeValue))
    {
      var token := tokens[i];
      ghost var rest := tokens[i..];
      assert rest[0] == token && rest[1..] == tokens[i + 1..];
      if takeValue {
        PrependOpt(Parts(args, opts), token, Split(command, rest[1..], false));
        opts := opts + [token];
        takeValue := false;
      } else if "-" <= token {
        var option := FindOption(command.options, token);
        if option.None? { return Err(UnexpectedOption(token)); }
        takeValue := command.options[option.value].takeValue;
        PrependOpt(Parts(args, opts), token, Split(command, rest[1..], takeValue));
        opts := opts + [token];
      } else if command.args.Some? {
        PrependArg(Parts(args, opts), token, Split(command, rest[1..], false));
        args := args + [token];
      }
    }
    assert args + [] == args && opts + [] == opts;
    return Ok(Parts(args, opts));
  }

  lemma PrependNothing(r: Result<Parts>)
    ensures Prepend(Parts([], []), r) == r
  {
    if r.Ok? { assert [] + r.value.args == r.value.args && [] + r.value.opts == r.value.opts; }
  }

  lemma PrependOpt(parts: Parts, token: string, r: Result<Parts>)
    ensures Prepend(parts, AddOpt(token, r)) == Prepend(Parts(parts.args, parts.opts + [token]), r)
  {
    if r.Ok? { assert parts.opts + ([token] + r.value.opts) == (parts.opts + [token]) + r.value.opts; }
  }

  lemma PrependArg(parts: Parts, token: string, r: Result<Parts>)
    ensures Prepend(parts, AddArg(token, r)) == Prepend(Parts(parts.args + [token], parts.opts), r)
  {
    if r.Ok? { assert parts.args + ([token] + r.value.args) == (parts.args + [token]) + r.value.args; }
  }

  // -- Parsing arguments -----------------------------------------------------

  function FirstInvalid(inputs: seq<string>, values: seq<string>): (r: Option<string>)
    ensures r.None? <==> forall i | 0 <= i < |inputs| :: inputs[i] in values
    ensures r.Some? ==> r.value in inputs
  {
    if inputs == [] then None
    else if inputs[0] !in values then Some(inputs[0])
    else FirstInvalid(inputs[1..], values)
  }

  /** The inputs of the argument at `k`; an empty token counts as none */
  function InputsFor(arg: Arg, inputs: seq<string>, k: nat): seq<string> {
    if arg.multiple then (if k <= |inputs| then inputs[k..] else [])
    else if k < |inputs| && inputs[k] != "" then [inputs[k]] else []
  }

  /** What the argument at `k` parses to, if it was given */
  function ParseArg(arg: Arg, inputs: seq<string>, k: nat): Result<Option<ArgValue>> {
    var own := InputsFor(arg, inputs, k);
    if own == [] then (if arg.optional then Ok(None) else Err(ArgumentMissing(arg.name)))
    else
      var invalid := if arg.values.Some? then FirstInvalid(own, arg.values.value) else None;
      if invalid.Some? && invalid.value != "" then Err(BadArgument(invalid.value))
      else Ok(Some(if arg.multiple then Many(own) else One(own[0])))
  }

  /** The arguments before `n`, parsed in order */
  function ParseArgs(args: seq<Arg>, inputs: seq<string>, n: nat): Result<map<string, ArgValue>>
    requires n <= |args|
  {
    if n == 0 then Ok(map[])
    else
      var before := ParseArgs(args, inputs, n - 1);
      if before.Err? then before
      else
        var arg := ParseArg(args[n - 1], inputs, n - 1);
        if arg.Err? then Err(arg.error)
        else Ok(if arg.value.Some? then before.value[args[n - 1].name := arg.value.value] else before.value)
  }

  lemma {:induction false} ParseArgsFails(args: seq<Arg>, inputs: seq<string>, k: nat, n: nat)
    requires k <= n <= |args| && ParseArgs(args, inputs, k).Err?
    ensures ParseArgs(args, inputs, n) == ParseArgs(args, inputs, k)
  {
    hide ParseArg;
    if k < n { ParseArgsFails(args, inputs, k, n - 1); }
  }

  method ParseArguments(args: seq<Arg>, inputs: seq<string>) returns (r: Result<map<string, ArgValue>>)
    ensures r == ParseArgs(args, inputs, |args|)
  {
    var parsed := map[];
    for k := 0 to |args|
      invariant ParseArgs(args, inputs, k) == Ok(parsed)
    {
      var arg := args[k];
      if ParseArgs(args, inputs, k + 1).Err? { ParseArgsFails(args, inputs, k + 1, |args|); }
      var own := InputsFor(arg, inputs, k);
      if |own| == 0 {
        if !arg.optional { return Err(ArgumentMissing(arg.name)); }
      } else {
        if arg.values.Some? {
          var invalid := FirstInvalid(own, arg.values.value);
          if invalid.Some? && invalid.value != "" { return Err(BadArgument(invalid.value)); }
        }
        parsed := parsed[arg.name := if arg.multiple then Many(own) else One(own[0])];
      }
    }
    return Ok(parsed);
  }

  // -- Parsing options -------------------------------------------------------

  /** The first position of a token that names the option */
  function FindToken(opt: Opt, opts: seq<string>): (r: Option<nat>)
    ensures r.Some? ==> r.value < |opts| && Names(opt, opts[r.value])
    ensures r.Some? ==> forall i | 0 <= i < r.value :: !Names(opt, opts[i])
    ensures r.None? ==> forall i | 0 <= i < |opts| :: !Names(opt, opts[i])
  {
    if opts == [] then None
    else if Names(opt, opts[0]) then Some(0)
    else
      var r := FindToken(opt, opts[1..]);
      if r.None? then None else Some(r.value + 1)
  }

  function ParseOpt(opt: Opt, opts: seq<string>): Result<Option<OptValue>> {
    var at := FindToken(opt, opts);
    if at.None? then Ok(None)
    else if !opt.takeValue then Ok(Some(Set))
    else if at.value + 1 == |opts| || opts[at.value + 1] == "" then Err(OptionValueMissing(opt.name))
    else if opt.values.Some? && opts[at.value + 1] !in opt.values.value then Err(BadOptionValue(opts[at.value + 1]))
    else Ok(Some(Valued(opts[at.value + 1])))
  }

  function ParseOpts(options: seq<Opt>, opts: seq<string>, n: nat): Result<map<string, OptValue>>
    requires n <= |options|
  {
    if n == 0 then Ok(map[])
    else
      var before := ParseOpts(options, opts, n - 1);
      if before.Err? then before
      else
        var opt := ParseOpt(options[n - 1], opts);
        if opt.Err? then Err(opt.error)
        else Ok(if opt.value.Some? then before.value[options[n - 1].name := opt.value.value] else before.value)
  }

  lemma {:induction false} ParseOptsFails(options: seq<Opt>, opts: seq<string>, k: nat, n: nat)
    requires k <= n <= |options| && ParseOpts(options, opts, k).Err?
    ensures ParseOpts(options, opts, n) == ParseOpts(options, opts, k)
  {
    hide ParseOpt;
    if k < n { ParseOptsFails(options, opts, k, n - 1); }
  }

  method ParseOptions(options: seq<Opt>, opts: seq<string>) returns (r: Result<map<string, OptValue>>)
    ensures r == ParseOpts(options, opts, |options|)
  {
    hide Names;
    var parsed := map[];
    for k := 0 to |options|
      invariant ParseOpts(options, opts, k) == Ok(parsed)
    {
      var opt := options[k];
      if ParseOpts(options, opts, k + 1).Err? { ParseOptsFails(options, opts, k + 1, |options|); }
      var at := FindToken(opt, opts);
      if at.None? { continue; }
      if opt.takeValue {
        if at.value + 1 == |opts| || opts[at.value + 1] == "" { return Err(OptionValueMissing(opt.name)); }
        var val := opts[at.value + 1];
        if opt.values.Some? && val !in opt.values.value { return Err(BadOptionValue(val)); }
        parsed := parsed[opt.name := Valued(val)];
      } else {
        parsed := parsed[opt.name := Set];
      }
    }
    return Ok(parsed);
  }

  // -- A whole line ----------------------------------------------------------

  function FindCommand(commands: seq<Command>, name: string): (r: Option<Command>)
    ensures r.Some? ==> r.value in commands && r.value.name == name
    ensures r.None? ==> forall c | c in commands :: c.name != name
  {
    if commands == [] then None
    else if commands[0].name == name then Some(commands[0])
    else FindCommand(commands[1..], name)
  }

  function FindSubcommand(command: Command, name: string): Option<Command> {
    if command.subcommands.Some? then FindCommand(command.subcommands.value, name) else None
  }

  predicate HasArgsOrOptions(command: Command) {
    (command.args.Some? && |command.args.value| > 0) || |command.options| > 1
  }

  predicate AsksForHelp(rest: seq<string>) {
    rest != [] && (rest[0] == "--help" || rest[0] == "-h")
  }

  function ArgsOf(command: Command): seq<Arg> {
    if command.args.Some? then command.args.value else []
  }

  /** More arguments than declared, with no last one to take them */
  predicate TooMany(command: Command, count: nat) {
    var args := ArgsOf(command);
    count > |args| && !(args != [] && args[|args| - 1].multiple)
  }

  /** The tokens behind a command as its arguments and options */
  function PartsOf(command: Command, rest: seq<string>): Result<Parts> {
    if !HasArgsOrOptions(command) || rest == [] || rest[0] == "" then Ok(Parts([], []))
    else
      var parts := Split(command, rest, false);
      if parts.Err? then parts
      else if command.args.None? && command.subcommands.Some? then
        if "-" <= rest[0] then Err(UnexpectedOption(rest[0])) else Err(NoSuchSubcommand(rest[0]))
      else if TooMany(command, |parts.value.args|) then Err(TooManyArguments(|parts.value.args|))
      else parts
  }

  /** A command with a handler, and the tokens behind it */
  function Handle(command: Command, rest: seq<string>): Outcome {
    if HasArgsOrOptions(command) && AsksForHelp(rest) then Help(command)
    else
      var parts := PartsOf(command, rest);
      if parts.Err? then Failed(parts.error)
      else
        var args := ParseArgs(ArgsOf(command), parts.value.args, |ArgsOf(command)|);
        if args.Err? then Failed(args.error)
        else
          var opts := ParseOpts(command.options, parts.value.opts, |command.options|);
          if opts.Err? then Failed(opts.error) else Handled(command, args.value, opts.value)
  }

  /** The command that the token at `i` leads to from `command` */
  function Reached(command: Command, token: string): Command {
    var subcommand := FindSubcommand(command, token);
    if subcommand.Some? then subcommand.value else command
  }

  function Walk(command: Command, tokens: seq<string>, i: nat): Outcome
    requires i < |tokens|
    decreases |tokens| - i
  {
    var reached := Reached(command, tokens[i]);
    if i + 1 < |tokens| && FindSubcommand(reached, tokens[i + 1]).Some? then Walk(reached, tokens, i + 1)
    else if !reached.handles then Usage(reached)
    else Handle(reached, tokens[i + 1..])
  }

  function Execute(commands: seq<Command>, tokens: seq<string>): Outcome {
    if tokens == [] || tokens[0] == "" then Nothing
    else
      var top := FindCommand(commands, tokens[0]);
      if top.None? then UnknownCommand(tokens[0]) else Walk(top.value, tokens, 0)
  }

  method HandleTokens(command: Command, rest: seq<string>) returns (outcome: Outcome)
    ensures outcome == Handle(command, rest)
  {
    var args: seq<string>, opts: seq<string> := [], [];
    if HasArgsOrOptions(command) {
      if AsksForHelp(rest) { return Help(command); }
      if |rest| > 0 && rest[0] != "" {
        var parts := SplitTokens(command, rest);
        if parts.Err? { return Failed(parts.error); }
        args, opts := parts.value.args, parts.value.opts;
        if command.args.None? && command.subcommands.Some? {
          if "-" <= rest[0] { return Failed(UnexpectedOption(rest[0])); }
          return Failed(NoSuchSubcommand(rest[0]));
        }
        if TooMany(command, |args|) { return Failed(TooManyArguments(|args|)); }
      }
    }
    var parsedArgs := ParseArguments(ArgsOf(command), args);
    if parsedArgs.Err? { return Failed(parsedArgs.error); }
    var parsedOpts := ParseOptions(command.options, opts);
    if parsedOpts.Err? { return Failed(parsedOpts.error); }
    return Handled(command, parsedArgs.value, parsedOpts.value);
  }

  method ExecuteTokens(commands: seq<Command>, tokens: seq<string>) returns (outcome: Outcome)
    ensures outcome == Execute(commands, tokens)
  {
    if |tokens| == 0 || tokens[0] == "" { return Nothing; }
    var top := FindCommand(commands, tokens[0]);
    if top.None? { return UnknownCommand(tokens[0]); }
    var command, i := top.value, 0;
    while true
      invariant i < |tokens| && Execute(commands, tokens) == Walk(command, tokens, i)
      decreases |tokens| - i
    {
      command := Reached(command, tokens[i]);
      if i + 1 == |tokens| || FindSubcommand(command, tokens[i + 1]).None? {
        if !command.handles { return Usage(command); }
        outcome := HandleTokens(command, tokens[i + 1..]);
        return;
      }
      i := i + 1;
    }
  }
}
