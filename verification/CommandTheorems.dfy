/** What reading a line of tokens promises, for every command and every line. */
module CommandTheorems {
  import opened Options
  import opened CommandSpec
  import opened CommandParser

  // -- Arguments: which positionals parse, and to what -----------------------

  ghost predicate ArgNamesDistinct(args: seq<Arg>) {
    forall i, j | 0 <= i < j < |args| :: args[i].name != args[j].name
  }

  function RequiredCount(args: seq<Arg>): nat {
    if args == [] then 0 else RequiredCount(args[..|args| - 1]) + (if args[|args| - 1].optional then 0 else 1)
  }

  predicate TakesMany(args: seq<Arg>) {
    args != [] && args[|args| - 1].multiple
  }

  /** The positionals that the argument at `k` takes: the one at its place, or all from there */
  function GivenTo(arg: Arg, inputs: seq<string>, k: nat): seq<string> {
    if k >= |inputs| then [] else if arg.multiple then inputs[k..] else [inputs[k]]
  }

  /** The positionals are among the values that their arguments allow. */
  predicate ValuesAllowed(args: seq<Arg>, inputs: seq<string>) {
    forall k | 0 <= k < |args| && args[k].values.Some? ::
      forall i | 0 <= i < |GivenTo(args[k], inputs, k)| :: GivenTo(args[k], inputs, k)[i] in args[k].values.value
  }

  ghost predicate NoEmpty(inputs: seq<string>) {
    forall i | 0 <= i < |inputs| :: inputs[i] != ""
  }

  /** Required arguments come first, so they are the first `RequiredCount` ones. */
  lemma {:induction false} RequiredAreFirst(args: seq<Arg>)
    requires RequiredFirst(args)
    ensures RequiredCount(args) <= |args|
    ensures forall k | 0 <= k < |args| :: !args[k].optional <==> k < RequiredCount(args)
  {
    if args != [] {
      var n := |args| - 1;
      RequiredAreFirst(args[..n]);
      if !args[n].optional {
        assert forall k | 0 <= k < n :: !args[k].optional;
        assert n == 0 || args[..n][n - 1] == args[n - 1];
        assert RequiredCount(args[..n]) == n;
      }
    }
  }

  lemma ParseArgIs(arg: Arg, inputs: seq<string>, k: nat)
    requires NoEmpty(inputs)
    ensures ParseArg(arg, inputs, k).Ok? <==>
            && (k < |inputs| || arg.optional)
            && (arg.values.Some? ==>
                  forall i | 0 <= i < |GivenTo(arg, inputs, k)| :: GivenTo(arg, inputs, k)[i] in arg.values.value)
    ensures ParseArg(arg, inputs, k).Ok? ==>
            (ParseArg(arg, inputs, k).value ==
             if k < |inputs| then Some(if arg.multiple then Many(inputs[k..]) else One(inputs[k])) else None)
  {
    InputsAreGiven(arg, inputs, k);
    hide InputsFor, GivenTo;
  }

  lemma InputsAreGiven(arg: Arg, inputs: seq<string>, k: nat)
    requires NoEmpty(inputs)
    ensures InputsFor(arg, inputs, k) == GivenTo(arg, inputs, k)
    ensures GivenTo(arg, inputs, k) == [] <==> |inputs| <= k
    ensures k < |inputs| && !arg.multiple ==> GivenTo(arg, inputs, k) == [inputs[k]]
    ensures k < |inputs| && arg.multiple ==> GivenTo(arg, inputs, k) == inputs[k..]
    ensures forall i | 0 <= i < |GivenTo(arg, inputs, k)| :: GivenTo(arg, inputs, k)[i] != ""
  {}

  /** Parsing all arguments is parsing each one. */
  lemma {:induction false} ParseArgsIs(args: seq<Arg>, inputs: seq<string>, n: nat)
    requires n <= |args| && ArgNamesDistinct(args)
    ensures var r := ParseArgs(args, inputs, n);
            && (r.Ok? <==> forall k | 0 <= k < n :: ParseArg(args[k], inputs, k).Ok?)
            && (r.Ok? ==>
                  && (forall name | name in r.value :: exists k | 0 <= k < n :: args[k].name == name)
                  && forall k | 0 <= k < n ::
                       && (args[k].name in r.value <==> ParseArg(args[k], inputs, k).value.Some?)
                       && (args[k].name in r.value
                           ==> r.value[args[k].name] == ParseArg(args[k], inputs, k).value.value))
  {
    hide ParseArg;
    if n > 0 { ParseArgsIs(args, inputs, n - 1); }
  }

  /** The values assigned to an argument, in the order they were given */
  function Assigned(parsed: map<string, ArgValue>, name: string): seq<string> {
    if name !in parsed then []
    else match parsed[name]
      case One(v) => [v]
      case Many(vs) => vs
  }

  function AllAssigned(args: seq<Arg>, parsed: map<string, ArgValue>): seq<string> {
    if args == [] then []
    else
      var n := |args| - 1;
      AllAssigned(args[..n], parsed) + Assigned(parsed, args[n].name)
  }

  lemma {:induction false} SinglesAreAssigned(args: seq<Arg>, parsed: map<string, ArgValue>, inputs: seq<string>)
    requires forall k | 0 <= k < |args| :: Assigned(parsed, args[k].name) == if k < |inputs| then [inputs[k]] else []
    ensures AllAssigned(args, parsed) == inputs[..if |args| < |inputs| then |args| else |inputs|]
  {
    if args != [] {
      var n := |args| - 1;
      SinglesAreAssigned(args[..n], parsed, inputs);
      if n < |inputs| { assert inputs[..n + 1] == inputs[..n] + [inputs[n]]; }
    }
  }

  /** Whether the positionals of a line can be assigned at all */
  predicate Fits(args: seq<Arg>, inputs: seq<string>) {
    RequiredCount(args) <= |inputs| && (|inputs| <= |args| || TakesMany(args)) && ValuesAllowed(args, inputs)
  }

  lemma ArgumentsParseWhen(args: seq<Arg>, inputs: seq<string>)
    requires RequiredFirst(args) && ArgNamesDistinct(args) && NoEmpty(inputs)
    ensures ParseArgs(args, inputs, |args|).Ok? <==> RequiredCount(args) <= |inputs| && ValuesAllowed(args, inputs)
  {
    hide GivenTo, ParseArg, ParseArgs;
    ParseArgsIs(args, inputs, |args|);
    RequiredAreFirst(args);
    forall k | 0 <= k < |args|
      ensures ParseArg(args[k], inputs, k).Ok? <==>
              && (k < |inputs| || args[k].optional)
              && (args[k].values.Some? ==>
                    forall i | 0 <= i < |GivenTo(args[k], inputs, k)| ::
                      GivenTo(args[k], inputs, k)[i] in args[k].values.value)
    {
      ParseArgIs(args[k], inputs, k);
    }
    if |inputs| < RequiredCount(args) { assert !ParseArg(args[|inputs|], inputs, |inputs|).Ok?; }
  }

  lemma ArgumentIsAssigned(args: seq<Arg>, inputs: seq<string>, k: nat)
    requires ArgNamesDistinct(args) && NoEmpty(inputs) && ParseArgs(args, inputs, |args|).Ok? && k < |args|
    ensures Assigned(ParseArgs(args, inputs, |args|).value, args[k].name) ==
            if |inputs| <= k then [] else if args[k].multiple then inputs[k..] else [inputs[k]]
  {
    hide ParseArg, ParseArgs;
    ParseArgsIs(args, inputs, |args|);
    ParseArgIs(args[k], inputs, k);
  }

  lemma LastTakesRest(inputs: seq<string>, n: nat, many: bool)
    requires |inputs| <= n + 1 || many
    ensures inputs ==
            inputs[..if n < |inputs| then n else |inputs|] +
            (if |inputs| <= n then [] else if many then inputs[n..] else [inputs[n]])
  {}

  lemma OnlyLastIsMultiple(args: seq<Arg>, k: nat)
    requires MultipleLast(args) && ArgNamesDistinct(args) && k + 1 < |args|
    ensures !args[k].multiple
  {}

  /** On success, nothing that was given is lost, repeated or moved. */
  lemma ArgumentsAreConserved(args: seq<Arg>, inputs: seq<string>)
    requires RequiredFirst(args) && MultipleLast(args) && ArgNamesDistinct(args) && NoEmpty(inputs)
    requires |inputs| <= |args| || TakesMany(args)
    requires ParseArgs(args, inputs, |args|).Ok?
    ensures AllAssigned(args, ParseArgs(args, inputs, |args|).value) == inputs
  {
    hide ParseArgs, Assigned, MultipleLast, ArgNamesDistinct, NoEmpty, RequiredFirst;
    var parsed := ParseArgs(args, inputs, |args|).value;
    if args != [] {
      var n := |args| - 1;
      forall k | 0 <= k < n
        ensures Assigned(parsed, args[..n][k].name) == if k < |inputs| then [inputs[k]] else []
      {
        ArgumentIsAssigned(args, inputs, k);
        OnlyLastIsMultiple(args, k);
      }
      SinglesAreAssigned(args[..n], parsed, inputs);
      ArgumentIsAssigned(args, inputs, n);
      LastTakesRest(inputs, n, args[n].multiple);
    }
  }

  // -- Options: rendering and reading back -----------------------------------

  /** One thing on a line: a positional, or an option by its position in the spec */
  datatype Item = Positional(value: string) | Given(index: nat, byShort: bool, value: string)

  /** Positionals are not empty and start with no dash. An option's value is not empty; it may even name an option. */
  ghost predicate Renderable(options: seq<Opt>, item: Item) {
    match item
    case Positional(value) => value != "" && !("-" <= value)
    case Given(i, byShort, value) =>
      && i < |options|
      && (byShort ==> options[i].short.Given?)
      && (options[i].takeValue ==> value != "")
  }

  /** How an option is written on a line */
  function Token(opt: Opt, byShort: bool): string {
    if byShort && opt.short.Given? then "-" + opt.short.text else "--" + opt.name
  }

  function Render(options: seq<Opt>, item: Item): seq<string>
    requires item.Given? ==> item.index < |options|
  {
    match item
    case Positional(value) => [value]
    case Given(i, byShort, value) => [Token(options[i], byShort)] + (if options[i].takeValue then [value] else [])
  }

  ghost predicate AllRenderable(options: seq<Opt>, items: seq<Item>) {
    forall k | 0 <= k < |items| :: Renderable(options, items[k])
  }

  ghost function RenderAll(options: seq<Opt>, items: seq<Item>): seq<string>
    requires AllRenderable(options, items)
  {
    if items == [] then [] else Render(options, items[0]) + RenderAll(options, items[1..])
  }

  function Positionals(items: seq<Item>): seq<string> {
    if items == [] then []
    else (if items[0].Positional? then [items[0].value] else []) + Positionals(items[1..])
  }

  ghost function OptionTokens(options: seq<Opt>, items: seq<Item>): seq<string>
    requires AllRenderable(options, items)
  {
    if items == [] then []
    else (if items[0].Given? then Render(options, items[0]) else []) + OptionTokens(options, items[1..])
  }

  /** Rendered tokens name the option they were rendered for, and no other. */
  lemma TokenNamesOne(options: seq<Opt>, i: nat, byShort: bool, j: nat)
    requires NamesDistinct(options) && ShortsDistinct(options)
    requires i < |options| && j < |options| && (byShort ==> options[i].short.Given?)
    ensures Names(options[j], Token(options[i], byShort)) <==> i == j
  {
    var token := Token(options[i], byShort);
    var a, b := options[i], options[j];
    assert LongToken(b)[2..] == b.name && LongToken(b)[1] == '-';
    assert byShort ==> token[1..] == a.short.text;
    assert !byShort ==> token[2..] == a.name && token[1] == '-';
    assert b.short.Given? ==> ShortToken(b)[1..] == b.short.text;
    assert b.short.Absent? ==> ShortToken(b)[1] == 'u' && |ShortToken(b)| == 10;
  }

  lemma TokenIsFound(options: seq<Opt>, i: nat, byShort: bool)
    requires NamesDistinct(options) && ShortsDistinct(options)
    requires i < |options| && (byShort ==> options[i].short.Given?)
    ensures FindOption(options, Token(options[i], byShort)) == Some(i)
    ensures "-" <= Token(options[i], byShort)
  {
    hide Names;
    forall j: nat | j < |options| ensures Names(options[j], Token(options[i], byShort)) <==> i == j {
      TokenNamesOne(options, i, byShort, j);
    }
    var found := FindOption(options, Token(options[i], byShort));
    assert found.Some?;
  }

  lemma SplitValue(command: Command, value: string, rest: seq<string>)
    ensures Split(command, [value] + rest, true) == AddOpt(value, Split(command, rest, false))
  {}

  lemma SplitOption(command: Command, i: nat, token: string, rest: seq<string>)
    requires i < |command.options| && FindOption(command.options, token) == Some(i) && "-" <= token
    ensures Split(command, [token] + rest, false) == AddOpt(token, Split(command, rest, command.options[i].takeValue))
  {}

  lemma AddOptIsPrepend(token: string, r: Result<Parts>)
    ensures AddOpt(token, r) == Prepend(Parts([], [token]), r)
  {
    if r.Ok? { assert [] + r.value.args == r.value.args; }
  }

  lemma SplitGiven(command: Command, item: Item, rest: seq<string>)
    requires NamesDistinct(command.options) && ShortsDistinct(command.options)
    requires item.Given? && Renderable(command.options, item)
    ensures var tokens := Render(command.options, item);
            Split(command, tokens + rest, false) == Prepend(Parts([], tokens), Split(command, rest, false))
  {
    hide FindOption, Token, NamesDistinct, ShortsDistinct, Split, AddOpt, Prepend;
    var opt, token := command.options[item.index], Token(command.options[item.index], item.byShort);
    TokenIsFound(command.options, item.index, item.byShort);
    var tail := Split(command, rest, false);
    if opt.takeValue {
      assert [token] + [item.value] + rest == [token] + ([item.value] + rest);
      SplitOption(command, item.index, token, [item.value] + rest);
      SplitValue(command, item.value, rest);
      AddOptIsPrepend(token, AddOpt(item.value, tail));
      PrependOpt(Parts([], [token]), item.value, tail);
    } else {
      assert [token] + [] == [token];
      SplitOption(command, item.index, token, rest);
      AddOptIsPrepend(token, tail);
    }
  }

  /** The positionals that count: none for a command that declares no arguments */
  function Inputs(command: Command, items: seq<Item>): seq<string> {
    if command.args.Some? then Positionals(items) else []
  }

  /** Splitting a rendered line finds its positionals, if they count, and its options, in order, whatever follows. */
  lemma {:induction false} SplitRendered(command: Command, items: seq<Item>, rest: seq<string>)
    requires NamesDistinct(command.options) && ShortsDistinct(command.options)
    requires AllRenderable(command.options, items)
    ensures Split(command, RenderAll(command.options, items) + rest, false) ==
            Prepend(Parts(Inputs(command, items), OptionTokens(command.options, items)), Split(command, rest, false))
  {
    hide *;
    var options := command.options;
    if items == [] {
      NothingSplits(command, rest);
    } else {
      LineSteps(command, items);
      var rendered := RenderAll(options, items[1..]);
      var tail := Split(command, rest, false);
      SplitRendered(command, items[1..], rest);
      assert Render(options, items[0]) + rendered + rest == Render(options, items[0]) + (rendered + rest);
      ItemSplits(command, items[0], rendered + rest);
      PrependOnceMore(ItemParts(command, items[0]),
        Parts(Inputs(command, items[1..]), OptionTokens(options, items[1..])), tail);
    }
  }

  lemma NothingSplits(command: Command, rest: seq<string>)
    ensures AllRenderable(command.options, [])
    ensures Split(command, RenderAll(command.options, []) + rest, false) ==
            Prepend(Parts(Inputs(command, []), OptionTokens(command.options, [])), Split(command, rest, false))
  {
    assert [] + rest == rest;
    PrependNothing(Split(command, rest, false));
    hide Split;
  }

  /** What one item adds to the positionals that count and to the option tokens */
  ghost function ItemParts(command: Command, item: Item): (parts: Parts)
    requires item.Given? ==> item.index < |command.options|
  {
    Parts(if item.Positional? && command.args.Some? then [item.value] else [],
          if item.Given? then Render(command.options, item) else [])
  }

  lemma ItemSplits(command: Command, item: Item, more: seq<string>)
    requires NamesDistinct(command.options) && ShortsDistinct(command.options) && Renderable(command.options, item)
    ensures Split(command, Render(command.options, item) + more, false) ==
            Prepend(ItemParts(command, item), Split(command, more, false))
  {
    hide NamesDistinct, ShortsDistinct, Split, Prepend, Token;
    if item.Given? {
      SplitGiven(command, item, more);
    } else {
      PositionalSplits(command, item.value, more);
    }
  }

  /** A line is its first item and the rest. */
  lemma LineSteps(command: Command, items: seq<Item>)
    requires items != [] && AllRenderable(command.options, items)
    ensures items[0].Given? ==> items[0].index < |command.options|
    ensures var options, tail, parts := command.options, items[1..], ItemParts(command, items[0]);
            && Renderable(options, items[0]) && AllRenderable(options, tail)
            && RenderAll(options, items) == Render(options, items[0]) + RenderAll(options, tail)
            && OptionTokens(options, items) == parts.opts + OptionTokens(options, tail)
            && Inputs(command, items) == parts.args + Inputs(command, tail)
  {
    assert [] + Inputs(command, items[1..]) == Inputs(command, items[1..]);
    hide Token;
  }

  lemma PositionalSplits(command: Command, value: string, more: seq<string>)
    requires value != "" && !("-" <= value)
    ensures Split(command, [value] + more, false) ==
            Prepend(Parts(if command.args.Some? then [value] else [], []), Split(command, more, false))
  {
    assert ([value] + more)[1..] == more;
    var r := Split(command, more, false);
    hide FindOption;
    if r.Ok? { assert [] + r.value.opts == r.value.opts && [] + r.value.args == r.value.args; }
  }

  lemma PrependOnceMore(a: Parts, b: Parts, r: Result<Parts>)
    ensures Prepend(a, Prepend(b, r)) == Prepend(Parts(a.args + b.args, a.opts + b.opts), r)
  {
    if r.Ok? {
      assert a.args + (b.args + r.value.args) == (a.args + b.args) + r.value.args;
      assert a.opts + (b.opts + r.value.opts) == (a.opts + b.opts) + r.value.opts;
    }
  }

  lemma SplitInvertsRendering(command: Command, items: seq<Item>)
    requires NamesDistinct(command.options) && ShortsDistinct(command.options)
    requires AllRenderable(command.options, items)
    ensures Split(command, RenderAll(command.options, items), false) ==
            Ok(Parts(Inputs(command, items), OptionTokens(command.options, items)))
  {
    SplitRendered(command, items, []);
    assert RenderAll(command.options, items) + [] == RenderAll(command.options, items);
    assert Inputs(command, items) + [] == Inputs(command, items);
    assert OptionTokens(command.options, items) + [] == OptionTokens(command.options, items);
  }

  // -- Options: what is read back --------------------------------------------

  /** The first time an option is given */
  function FirstGiven(items: seq<Item>, i: nat): (r: Option<Item>)
    ensures r.Some? ==> r.value in items && r.value.Given? && r.value.index == i
    ensures r.None? ==> forall k | 0 <= k < |items| :: !(items[k].Given? && items[k].index == i)
  {
    if items == [] then None
    else if items[0].Given? && items[0].index == i then Some(items[0])
    else FirstGiven(items[1..], i)
  }

  function Shift(r: Option<nat>, n: nat): Option<nat> {
    if r.None? then None else Some(r.value + n)
  }

  lemma {:induction false} FindTokenBehind(opt: Opt, before: seq<string>, opts: seq<string>)
    requires forall i | 0 <= i < |before| :: !Names(opt, before[i])
    ensures FindToken(opt, before + opts) == Shift(FindToken(opt, opts), |before|)
  {
    hide Names;
    if before == [] {
      assert before + opts == opts;
    } else {
      FindTokenBehind(opt, before[1..], opts);
      assert (before + opts)[1..] == before[1..] + opts;
    }
  }

  /** Tokens that do not name an option do not change what it parses to. */
  lemma ParseOptBehind(opt: Opt, before: seq<string>, opts: seq<string>)
    requires forall i | 0 <= i < |before| :: !Names(opt, before[i])
    ensures ParseOpt(opt, before + opts) == ParseOpt(opt, opts)
  {
    hide Names, FindToken;
    FindTokenBehind(opt, before, opts);
    var r := FindToken(opt, opts);
    var n := |before|;
    assert r.Some? && r.value + 1 < |opts| ==> (before + opts)[n + r.value + 1] == opts[r.value + 1];
  }

  function ValueGiven(opt: Opt, item: Option<Item>): Result<Option<OptValue>>
    requires item.Some? ==> item.value.Given?
  {
    if item.None? then Ok(None)
    else if !opt.takeValue then Ok(Some(Set))
    else if opt.values.Some? && item.value.value !in opt.values.value then Err(BadOptionValue(item.value.value))
    else Ok(Some(Valued(item.value.value)))
  }

  lemma ParseOptFirst(options: seq<Opt>, item: Item, rest: seq<string>)
    requires NamesDistinct(options) && ShortsDistinct(options) && item.Given? && Renderable(options, item)
    ensures ParseOpt(options[item.index], Render(options, item) + rest) == ValueGiven(options[item.index], Some(item))
  {}

  lemma ParseOptOfNone(opt: Opt)
    ensures ParseOpt(opt, []) == Ok(None)
  {}

  /** The value of an option names another one, before any token rendered for that one. */
  predicate Shadows(options: seq<Opt>, item: Item, i: nat)
    requires i < |options| && (item.Given? ==> item.index < |options|)
  {
    item.Given? && item.index != i && options[item.index].takeValue && Names(options[i], item.value)
  }

  /** The first token that names the option, if any does, is one rendered for it. */
  ghost predicate Unshadowed(options: seq<Opt>, items: seq<Item>, i: nat)
    requires i < |options| && AllRenderable(options, items)
  {
    || items == []
    || (items[0].Given? && items[0].index == i)
    || (!Shadows(options, items[0], i) && Unshadowed(options, items[1..], i))
  }

  /** The option token behind the value that names the option; empty if there is none */
  ghost function AfterShadow(options: seq<Opt>, items: seq<Item>, i: nat): string
    requires i < |options| && AllRenderable(options, items) && !Unshadowed(options, items, i)
  {
    if Shadows(options, items[0], i) then First(OptionTokens(options, items[1..]))
    else AfterShadow(options, items[1..], i)
  }

  function First(tokens: seq<string>): string {
    if tokens == [] then "" else tokens[0]
  }

  /** What an option reads as that `next` follows */
  function ReadNext(opt: Opt, next: string): Result<Option<OptValue>> {
    if !opt.takeValue then Ok(Some(Set))
    else if next == "" then Err(OptionValueMissing(opt.name))
    else if opt.values.Some? && next !in opt.values.value then Err(BadOptionValue(next))
    else Ok(Some(Valued(next)))
  }

  /** What an option reads as, however the line was rendered */
  ghost function Read(options: seq<Opt>, items: seq<Item>, i: nat): Result<Option<OptValue>>
    requires i < |options| && AllRenderable(options, items)
  {
    if Unshadowed(options, items, i) then ValueGiven(options[i], FirstGiven(items, i))
    else ReadNext(options[i], AfterShadow(options, items, i))
  }

  lemma OtherOptionsAreSkipped(options: seq<Opt>, item: Item, i: nat)
    requires NamesDistinct(options) && ShortsDistinct(options) && item.Given? && Renderable(options, item)
    requires i < |options| && item.index != i && !Shadows(options, item, i)
    ensures forall k | 0 <= k < |Render(options, item)| :: !Names(options[i], Render(options, item)[k])
  {
    hide Token, Names;
    TokenNamesOne(options, item.index, item.byShort, i);
  }

  /** A value that names an option is read as that option. */
  lemma ShadowIsRead(options: seq<Opt>, item: Item, rest: seq<string>, i: nat)
    requires NamesDistinct(options) && ShortsDistinct(options) && Renderable(options, item)
    requires i < |options| && Shadows(options, item, i) && (rest != [] ==> rest[0] != "")
    ensures ParseOpt(options[i], Render(options, item) + rest) == ReadNext(options[i], First(rest))
  {
    hide Names, NamesDistinct, ShortsDistinct;
    var token := Token(options[item.index], item.byShort);
    TokenNamesOne(options, item.index, item.byShort, i);
    hide Token;
    var opts := Render(options, item) + rest;
    assert opts == [token, item.value] + rest;
    assert opts[0] == token && opts[1] == item.value;
    var at := FindToken(options[i], opts);
    hide FindToken;
    assert at == Some(1);
    assert rest != [] ==> opts[2] == rest[0];
  }

  lemma {:induction false} FirstOptionToken(options: seq<Opt>, items: seq<Item>)
    requires AllRenderable(options, items)
    ensures var tokens := OptionTokens(options, items);
            tokens != [] ==> tokens[0] != ""
  {
    if items != [] && items[0].Positional? {
      FirstOptionToken(options, items[1..]);
      assert [] + OptionTokens(options, items[1..]) == OptionTokens(options, items[1..]);
    }
  }

  /** An option reads as it was first given, or as what follows the value that names it before. */
  lemma {:induction false} OptionReads(options: seq<Opt>, items: seq<Item>, i: nat)
    requires NamesDistinct(options) && ShortsDistinct(options) && AllRenderable(options, items) && i < |options|
    ensures ParseOpt(options[i], OptionTokens(options, items)) == Read(options, items, i)
  {
    hide NamesDistinct, ShortsDistinct, Names, ValueGiven, Render, ReadNext, ParseOpt, Shadows;
    if items == [] {
      ParseOptOfNone(options[i]);
      NothingGiven(options[i]);
    } else {
      var rest := OptionTokens(options, items[1..]);
      if items[0].Positional? {
        assert [] + rest == rest;
        NoShadow(options, items[0], i);
        OptionReads(options, items[1..], i);
      } else if items[0].index == i {
        ParseOptFirst(options, items[0], rest);
      } else if Shadows(options, items[0], i) {
        FirstOptionToken(options, items[1..]);
        ShadowIsRead(options, items[0], rest, i);
      } else {
        OtherOptionsAreSkipped(options, items[0], i);
        ParseOptBehind(options[i], Render(options, items[0]), rest);
        OptionReads(options, items[1..], i);
      }
    }
  }

  lemma NoShadow(options: seq<Opt>, item: Item, i: nat)
    requires i < |options| && item.Positional?
    ensures !Shadows(options, item, i)
  {}

  /**
   * When an option reads back as it was first given: no value names it before
   * that, or it is given and either takes no value or happens to be given what
   * follows the value that names it.
   */
  ghost predicate ReadsBack(options: seq<Opt>, items: seq<Item>, i: nat)
    requires i < |options| && AllRenderable(options, items)
  {
    || Unshadowed(options, items, i)
    || (var given := FirstGiven(items, i);
        && given.Some?
        && (!options[i].takeValue || given.value.value == AfterShadow(options, items, i)))
  }

  /** Exactly then does an option read back. */
  lemma {:induction false} OptionReadsBack(options: seq<Opt>, items: seq<Item>, i: nat)
    requires NamesDistinct(options) && ShortsDistinct(options) && AllRenderable(options, items) && i < |options|
    ensures ParseOpt(options[i], OptionTokens(options, items)) == ValueGiven(options[i], FirstGiven(items, i)) <==>
            ReadsBack(options, items, i)
  {
    hide NamesDistinct, ShortsDistinct, Names, ParseOpt, Unshadowed, AfterShadow, FirstGiven;
    OptionReads(options, items, i);
    var given := FirstGiven(items, i);
    if given.Some? { assert Renderable(options, given.value); }
  }

  lemma NothingGiven(opt: Opt)
    ensures ValueGiven(opt, None) == Ok(None)
  {}

  /** Parsing all options is parsing each one. */
  lemma {:induction false} ParseOptsIs(options: seq<Opt>, opts: seq<string>, n: nat)
    requires n <= |options| && NamesDistinct(options)
    ensures var r := ParseOpts(options, opts, n);
            && (r.Ok? <==> forall k | 0 <= k < n :: ParseOpt(options[k], opts).Ok?)
            && (r.Ok? ==>
                  && (forall name | name in r.value :: exists k | 0 <= k < n :: options[k].name == name)
                  && forall k | 0 <= k < n ::
                       && (options[k].name in r.value <==> ParseOpt(options[k], opts).value.Some?)
                       && (options[k].name in r.value
                           ==> r.value[options[k].name] == ParseOpt(options[k], opts).value.value))
  {
    hide ParseOpt;
    if n > 0 { ParseOptsIs(options, opts, n - 1); }
  }

  // -- The theorems ----------------------------------------------------------

  ghost predicate WellFormed(command: Command) {
    && RequiredFirst(ArgsOf(command)) && MultipleLast(ArgsOf(command)) && ArgNamesDistinct(ArgsOf(command))
    && NamesDistinct(command.options) && ShortsDistinct(command.options)
    && (ArgsOf(command) != [] || |command.options| > 1)
  }

  /** A line that starts by asking for help */
  predicate StartsWithHelp(tokens: seq<string>) {
    tokens != [] && (tokens[0] == "--help" || tokens[0] == "-h")
  }

  /** A command with subcommands and no arguments, which has no use for tokens of its own */
  predicate IsParent(command: Command) {
    command.args.None? && command.subcommands.Some?
  }

  lemma {:induction false} PositionalsAreNotEmpty(options: seq<Opt>, items: seq<Item>)
    requires AllRenderable(options, items)
    ensures NoEmpty(Positionals(items))
  {
    if items != [] { PositionalsAreNotEmpty(options, items[1..]); }
  }

  lemma FirstTokenIsNotEmpty(options: seq<Opt>, items: seq<Item>)
    requires AllRenderable(options, items) && items != []
    ensures RenderAll(options, items) != [] && RenderAll(options, items)[0] != ""
  {}

  lemma PartsReadBack(command: Command, items: seq<Item>)
    requires WellFormed(command) && AllRenderable(command.options, items) && (IsParent(command) ==> items == [])
    ensures var parts := PartsOf(command, RenderAll(command.options, items));
            var args, inputs := ArgsOf(command), Inputs(command, items);
            && (parts.Ok? <==> |inputs| <= |args| || TakesMany(args))
            && (parts.Ok? ==> parts.value == Parts(inputs, OptionTokens(command.options, items)))
  {
    hide Split, NamesDistinct, ShortsDistinct;
    if items != [] {
      FirstTokenIsNotEmpty(command.options, items);
      SplitInvertsRendering(command, items);
    }
  }

  ghost predicate ValuesGivenAllowed(options: seq<Opt>, items: seq<Item>) {
    forall i | 0 <= i < |options| :: ValueGiven(options[i], FirstGiven(items, i)).Ok?
  }

  ghost predicate OptionsReadBack(options: seq<Opt>, items: seq<Item>, parsed: map<string, OptValue>) {
    && (forall name | name in parsed :: exists i | 0 <= i < |options| :: options[i].name == name)
    && (forall i | 0 <= i < |options| ::
          var given := FirstGiven(items, i);
          && (options[i].name in parsed <==> given.Some?)
          && (given.Some? ==>
                parsed[options[i].name] == if options[i].takeValue then Valued(given.value.value) else Set))
  }

  ghost predicate AllRead(options: seq<Opt>, items: seq<Item>)
    requires AllRenderable(options, items)
  {
    forall i | 0 <= i < |options| :: Read(options, items, i).Ok?
  }

  /** The result holds every option that reads as something, with that, and nothing else. */
  ghost predicate OptionsAreRead(options: seq<Opt>, items: seq<Item>, parsed: map<string, OptValue>)
    requires AllRenderable(options, items) && AllRead(options, items)
  {
    && (forall name | name in parsed :: exists i | 0 <= i < |options| :: options[i].name == name)
    && (forall i | 0 <= i < |options| ::
          var read := Read(options, items, i).value;
          && (options[i].name in parsed <==> read.Some?)
          && (read.Some? ==> parsed[options[i].name] == read.value))
  }

  ghost predicate AllReadBack(options: seq<Opt>, items: seq<Item>)
    requires AllRenderable(options, items)
  {
    forall i | 0 <= i < |options| :: ReadsBack(options, items, i)
  }

  /** For one option that parses: its value in the result is the one given exactly if it reads back. */
  lemma OptionAgrees(options: seq<Opt>, items: seq<Item>, i: nat)
    requires AllRenderable(options, items) && i < |options| && Read(options, items, i).Ok?
    ensures var read, given := Read(options, items, i).value, FirstGiven(items, i);
            ReadsBack(options, items, i) <==>
            && (read.Some? <==> given.Some?)
            && (given.Some? ==>
                  read.value == if options[i].takeValue then Valued(given.value.value) else Set)
  {
    hide Unshadowed, AfterShadow, FirstGiven;
    var given := FirstGiven(items, i);
    if given.Some? { assert Renderable(options, given.value); }
  }

  lemma ReadAsGiven(options: seq<Opt>, items: seq<Item>, i: nat)
    requires AllRenderable(options, items) && i < |options| && ReadsBack(options, items, i)
    ensures Read(options, items, i) == ValueGiven(options[i], FirstGiven(items, i))
  {
    hide Unshadowed, AfterShadow, FirstGiven;
    var given := FirstGiven(items, i);
    if given.Some? { assert Renderable(options, given.value); }
  }

  /** All options of a line: when they parse, and when they read back. */
  lemma OptionsParseBack(options: seq<Opt>, items: seq<Item>)
    requires NamesDistinct(options) && ShortsDistinct(options) && AllRenderable(options, items)
    ensures var r := ParseOpts(options, OptionTokens(options, items), |options|);
            && (r.Ok? <==> AllRead(options, items))
            && (r.Ok? ==> OptionsAreRead(options, items, r.value))
            && (r.Ok? ==> (OptionsReadBack(options, items, r.value) <==> AllReadBack(options, items)))
            && (AllReadBack(options, items) ==> (r.Ok? <==> ValuesGivenAllowed(options, items)))
  {
    hide ParseOpt, ParseOpts, ShortsDistinct, Read, ReadsBack, ValueGiven, FirstGiven;
    var opts := OptionTokens(options, items);
    ParseOptsIs(options, opts, |options|);
    forall i: nat | i < |options|
      ensures ParseOpt(options[i], opts) == Read(options, items, i)
      ensures ReadsBack(options, items, i) ==> Read(options, items, i) == ValueGiven(options[i], FirstGiven(items, i))
    {
      OptionReads(options, items, i);
      if ReadsBack(options, items, i) { ReadAsGiven(options, items, i); }
    }
    var r := ParseOpts(options, opts, |options|);
    if r.Ok? {
      forall i: nat | i < |options|
        ensures var given := FirstGiven(items, i);
                ReadsBack(options, items, i) <==>
                && (options[i].name in r.value <==> given.Some?)
                && (given.Some? ==>
                      r.value[options[i].name] == if options[i].takeValue then Valued(given.value.value) else Set)
      {
        OptionAgrees(options, items, i);
      }
    }
  }

  /** Values that name no option read back, whatever else is on the line. */
  lemma {:induction false} QuietValuesReadBack(options: seq<Opt>, items: seq<Item>, i: nat)
    requires AllRenderable(options, items) && i < |options|
    requires forall k | 0 <= k < |items| :: !Shadows(options, items[k], i)
    ensures Unshadowed(options, items, i) && ReadsBack(options, items, i)
  {
    if items != [] { QuietValuesReadBack(options, items[1..], i); }
  }

  lemma InputsAreNotEmpty(command: Command, items: seq<Item>)
    requires AllRenderable(command.options, items)
    ensures NoEmpty(Inputs(command, items))
  {
    PositionalsAreNotEmpty(command.options, items);
  }

  /**
   * Reading inverts writing: however the options are mixed among the
   * positionals, a line that does not start by asking for help is handled
   * exactly when its positionals fit the arguments and its options parse; the
   * assigned values are then the positionals in order, and every option is what
   * it was first given as exactly if each one reads back. If each does, the
   * options parse exactly if the given values are allowed. A command that
   * declares no arguments drops the positionals.
   */
  lemma LineReadsBack(command: Command, items: seq<Item>)
    requires WellFormed(command) && AllRenderable(command.options, items) && (IsParent(command) ==> items == [])
    requires !StartsWithHelp(RenderAll(command.options, items))
    ensures var outcome, options := Handle(command, RenderAll(command.options, items)), command.options;
            var args, inputs := ArgsOf(command), Inputs(command, items);
            && (outcome.Handled? <==> Fits(args, inputs) && AllRead(options, items))
            && (outcome.Handled? ==>
                  && outcome.command == command
                  && AllAssigned(args, outcome.args) == inputs
                  && OptionsAreRead(options, items, outcome.options)
                  && (OptionsReadBack(options, items, outcome.options) <==> AllReadBack(options, items)))
            && (AllReadBack(options, items) ==>
                  (outcome.Handled? <==> Fits(args, inputs) && ValuesGivenAllowed(options, items)))
  {
    hide PartsOf, ParseArgs, ParseOpts, NamesDistinct, ShortsDistinct, HasArgsOrOptions, NoEmpty, RequiredFirst,
      MultipleLast, ArgNamesDistinct, ValuesAllowed, ValuesGivenAllowed, OptionsReadBack, AllAssigned, Inputs, ArgsOf,
      AllRead, AllReadBack, OptionsAreRead;
    var args, inputs := ArgsOf(command), Inputs(command, items);
    PartsReadBack(command, items);
    InputsAreNotEmpty(command, items);
    ArgumentsParseWhen(args, inputs);
    OptionsParseBack(command.options, items);
    if (|inputs| <= |args| || TakesMany(args)) && ParseArgs(args, inputs, |args|).Ok? {
      ArgumentsAreConserved(args, inputs);
    }
  }

  /** A line on which one option alone is given, and its value names another that takes none */
  ghost predicate NamesFlag(options: seq<Opt>, item: Item, flag: nat) {
    && flag < |options| && !options[flag].takeValue
    && Renderable(options, item) && item.Given? && Shadows(options, item, flag) && options[item.index].values.None?
  }

  lemma NamedFlagIsRead(options: seq<Opt>, item: Item, flag: nat, i: nat)
    requires NamesDistinct(options) && ShortsDistinct(options) && NamesFlag(options, item, flag) && i < |options|
    requires forall k | 0 <= k < |options| && k != flag :: !Names(options[k], item.value)
    ensures AllRenderable(options, [item])
    ensures Read(options, [item], i) ==
            if i == flag then Ok(Some(Set)) else if i == item.index then Ok(Some(Valued(item.value))) else Ok(None)
    ensures !ReadsBack(options, [item], flag)
  {
    hide Names, NamesDistinct, ShortsDistinct;
    assert [item][1..] == [];
    assert AllRenderable(options, [item]);
    assert FirstGiven([], i) == None && Unshadowed(options, [], i);
    assert FirstGiven([], flag) == None;
  }

  /** Such a line is handled with the other option set, although it was not given: `--name -v` sets `verbose`. */
  lemma ValueSetsNamedFlag(command: Command, item: Item, flag: nat)
    requires WellFormed(command) && !IsParent(command) && RequiredCount(ArgsOf(command)) == 0
    requires NamesFlag(command.options, item, flag)
    requires forall k | 0 <= k < |command.options| && k != flag :: !Names(command.options[k], item.value)
    requires !StartsWithHelp(Render(command.options, item))
    ensures var outcome := Handle(command, Render(command.options, item));
            && outcome.Handled?
            && command.options[flag].name in outcome.options && outcome.options[command.options[flag].name] == Set
            && FirstGiven([item], flag) == None
  {
    var items := [item];
    forall i: nat | i < |command.options|
      ensures AllRenderable(command.options, items) && Read(command.options, items, i).Ok?
    {
      NamedFlagIsRead(command.options, item, flag, i);
    }
    NamedFlagIsRead(command.options, item, flag, flag);
    assert items[1..] == [] && Render(command.options, item) + [] == Render(command.options, item);
    assert RenderAll(command.options, items) == Render(command.options, item);
    assert Positionals([]) == [] && Positionals(items) == [];
    assert Inputs(command, items) == [];
    NoInputsFit(ArgsOf(command));
    assert FirstGiven([], flag) == None;
    hide Handle, WellFormed, Fits, OptionsReadBack, Read, ReadsBack, Render;
    LineReadsBack(command, items);
  }

  lemma NoInputsFit(args: seq<Arg>)
    requires RequiredCount(args) == 0
    ensures Fits(args, [])
  {}

  /** A parent refuses any line that does not go on with a subcommand or ask for help, its own options included. */
  lemma ParentRefusesTokens(command: Command, items: seq<Item>)
    requires WellFormed(command) && IsParent(command) && AllRenderable(command.options, items) && items != []
    requires !StartsWithHelp(RenderAll(command.options, items))
    ensures var tokens := RenderAll(command.options, items);
            && tokens != []
            && Handle(command, tokens) ==
               Failed(if items[0].Given? then UnexpectedOption(tokens[0]) else NoSuchSubcommand(tokens[0]))
  {
    hide Split, NamesDistinct, ShortsDistinct, FindOption;
    var tokens := RenderAll(command.options, items);
    FirstTokenIsNotEmpty(command.options, items);
    SplitInvertsRendering(command, items);
    assert tokens[0] == Render(command.options, items[0])[0];
    assert "-" <= tokens[0] <==> items[0].Given?;
  }

  /** A line of positionals alone is handled exactly when they fit. */
  lemma PositionalsParseWhenTheyFit(command: Command, inputs: seq<string>)
    requires WellFormed(command) && command.args.Some?
    requires forall i | 0 <= i < |inputs| :: inputs[i] != "" && !("-" <= inputs[i])
    ensures var outcome := Handle(command, inputs);
            && (outcome.Handled? <==> Fits(command.args.value, inputs))
            && (outcome.Handled?
                ==> AllAssigned(command.args.value, outcome.args) == inputs && outcome.options == map[])
  {
    hide Handle, WellFormed, Fits, AllAssigned;
    var items := seq(|inputs|, i requires 0 <= i < |inputs| => Positional(inputs[i]));
    RenderedPositionals(command.options, inputs, items);
    LineReadsBack(command, items);
    forall i: nat | i < |command.options| ensures FirstGiven(items, i).None? && ReadsBack(command.options, items, i) {
      QuietValuesReadBack(command.options, items, i);
    }
    forall i | 0 <= i < |command.options| ensures ValueGiven(command.options[i], None).Ok? {
      NothingGiven(command.options[i]);
    }
  }

  lemma {:induction false} RenderedPositionals(options: seq<Opt>, inputs: seq<string>, items: seq<Item>)
    requires |items| == |inputs| && forall i | 0 <= i < |inputs| :: items[i] == Positional(inputs[i])
    requires forall i | 0 <= i < |inputs| :: inputs[i] != "" && !("-" <= inputs[i])
    ensures AllRenderable(options, items) && RenderAll(options, items) == inputs && Positionals(items) == inputs
    ensures !StartsWithHelp(inputs)
  {
    if items != [] {
      RenderedPositionals(options, inputs[1..], items[1..]);
      assert inputs == [inputs[0]] + inputs[1..];
      assert "--help"[0] == '-' && "-h"[0] == '-';
      assert AllRenderable(options, items);
    }
  }

  /** A command that declares nothing but help takes no notice of what follows it. */
  lemma BareCommandIgnoresTokens(command: Command, rest: seq<string>)
    requires ArgsOf(command) == [] && |command.options| == 1
    ensures Handle(command, rest) == Handled(command, map[], map[])
  {
    hide Names;
    assert PartsOf(command, rest) == Ok(Parts([], []));
    assert ParseOpt(command.options[0], []) == Ok(None);
    assert ParseOpts(command.options, [], 0) == Ok(map[]);
  }

  /** The names that lead from a command down to another */
  ghost predicate LeadsTo(command: Command, names: seq<string>, leaf: Command)
    decreases |names|
  {
    if names == [] then command == leaf
    else
      var child := FindSubcommand(command, names[0]);
      child.Some? && LeadsTo(child.value, names[1..], leaf)
  }

  /** The tokens behind a command do not go on with one of its subcommands. */
  predicate NoSubcommandNext(command: Command, rest: seq<string>) {
    rest == [] || FindSubcommand(command, rest[0]).None?
  }

  lemma {:induction false} WalkFollows(parent: Command, tokens: seq<string>, i: nat, names: seq<string>, leaf: Command)
    requires i < |tokens| && names <= tokens[i + 1..] && LeadsTo(Reached(parent, tokens[i]), names, leaf)
    requires NoSubcommandNext(leaf, tokens[i + 1 + |names|..])
    ensures Walk(parent, tokens, i) == if leaf.handles then Handle(leaf, tokens[i + 1 + |names|..]) else Usage(leaf)
    decreases |names|
  {
    hide Handle, FindCommand;
    if names != [] {
      assert tokens[i + 1] == tokens[i + 1..][0] == names[0];
      assert names[1..] <= tokens[i + 2..];
      WalkFollows(Reached(parent, tokens[i]), tokens, i + 1, names[1..], leaf);
    }
  }

  /**
   * A line that names a command and its subcommands is handled by the last of
   * them, which may have more, or shows its usage if it has no handler; a
   * subcommand named as the command itself is entered by the command's name.
   */
  lemma SubcommandsAreReached(commands: seq<Command>, top: Command, names: seq<string>, leaf: Command,
                              rest: seq<string>)
    requires top.name != "" && FindCommand(commands, top.name) == Some(top)
    requires LeadsTo(Reached(top, top.name), names, leaf) && NoSubcommandNext(leaf, rest)
    ensures Execute(commands, [top.name] + names + rest) == if leaf.handles then Handle(leaf, rest) else Usage(leaf)
  {
    hide Handle, FindCommand, FindSubcommand, NoSubcommandNext;
    var tokens := [top.name] + names + rest;
    assert tokens[1..] == names + rest;
    assert tokens[1 + |names|..] == rest;
    WalkFollows(top, tokens, 0, names, leaf);
  }
}
