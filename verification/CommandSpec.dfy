/**
 * What a command declares (`client-v2/src/commands/create.ts`): its arguments,
 * its options, and the checks that `createArgs` and `createOptions` make.
 */
module CommandSpec {
  import opened Options

  datatype Arg = Arg(name: string, optional: bool, multiple: bool, values: Option<seq<string>>)

  /** A short as it is declared: left out, `true`, or a string */
  datatype Short = Absent | Automatic | Given(text: string)

  datatype Opt = Opt(name: string, short: Short, takeValue: bool, values: Option<seq<string>>) {
    /** What an `if (!opt.short)` lets through */
    predicate HasShort() { short == Automatic || (short.Given? && short.text != "") }

    /** `createShort(opt)` before its length is checked */
    function ShortText(): string
      requires HasShort()
    {
      if short.Given? then short.text else name[..if name == "" then 0 else 1]
    }
  }

  datatype SpecError = OptionalBeforeRequired | MultipleNotLast | ShortNotOneLetter | DuplicateShort

  datatype Checked<T> = Accepted(value: T) | Rejected(error: SpecError)

  // -- createArgs ------------------------------------------------------------

  ghost predicate RequiredFirst(args: seq<Arg>) {
    forall i, j | 0 <= i < j < |args| :: args[i].optional ==> args[j].optional
  }

  ghost predicate MultipleLast(args: seq<Arg>) {
    forall i | 0 <= i < |args| :: args[i].multiple ==> args[i].name == args[|args| - 1].name
  }

  method CreateArgs(args: seq<Arg>) returns (r: Checked<seq<Arg>>)
    ensures r.Accepted? <==> RequiredFirst(args) && MultipleLast(args)
    ensures r.Accepted? ==> r.value == args
  {
    var isOptional := false;
    for k := 0 to |args|
      invariant isOptional <==> exists i :: 0 <= i < k && args[i].optional
      invariant RequiredFirst(args[..k])
      invariant forall i | 0 <= i < k :: args[i].multiple ==> args[i].name == args[|args| - 1].name
    {
      if isOptional && !args[k].optional { return Rejected(OptionalBeforeRequired); }
      if args[k].multiple && args[k].name != args[|args| - 1].name { return Rejected(MultipleNotLast); }
      if args[k].optional { isOptional := true; }
    }
    assert args[..|args|] == args;
    return Accepted(args);
  }

  // -- createOptions ---------------------------------------------------------

  ghost predicate ShortsFit(opts: seq<Opt>) {
    && (forall i | 0 <= i < |opts| && opts[i].HasShort() :: |opts[i].ShortText()| == 1)
    && (forall i, j | 0 <= i < |opts| && 0 <= j < |opts| && opts[i].HasShort() && opts[j].HasShort() ::
          opts[i].name != opts[j].name ==> opts[i].ShortText() != opts[j].ShortText())
  }

  /** An option whose short is the letter that `true` stands for */
  function Normalised(opt: Opt): Opt {
    if opt.HasShort() then opt.(short := Given(opt.ShortText())) else opt
  }

  method FindDuplicate(opts: seq<Opt>, name: string, short: string) returns (r: Checked<bool>)
    ensures r.Rejected? ==> exists j | 0 <= j < |opts| :: opts[j].HasShort() && |opts[j].ShortText()| != 1
    ensures r.Accepted? && !r.value ==>
              forall j | 0 <= j < |opts| && opts[j].HasShort() && opts[j].name != name :: opts[j].ShortText() != short
    ensures r.Accepted? && r.value ==>
              exists j | 0 <= j < |opts| :: opts[j].HasShort() && opts[j].name != name && opts[j].ShortText() == short
  {
    for j := 0 to |opts|
      invariant forall i | 0 <= i < j && opts[i].HasShort() && opts[i].name != name :: opts[i].ShortText() != short
    {
      if opts[j].name != name && opts[j].HasShort() {
        if |opts[j].ShortText()| != 1 { return Rejected(ShortNotOneLetter); }
        if opts[j].ShortText() == short { return Accepted(true); }
      }
    }
    return Accepted(false);
  }

  method CreateOptions(declared: seq<Opt>) returns (r: Checked<seq<Opt>>)
    ensures r.Accepted? <==> ShortsFit(declared)
    ensures r.Accepted? ==>
              && |r.value| == |declared|
              && forall i | 0 <= i < |declared| :: r.value[i] == Normalised(declared[i])
  {
    var opts := declared;
    for k := 0 to |opts|
      invariant |opts| == |declared|
      invariant forall i | 0 <= i < k :: opts[i] == Normalised(declared[i])
      invariant forall i | k <= i < |opts| :: opts[i] == declared[i]
      invariant forall i | 0 <= i < k && declared[i].HasShort() :: |declared[i].ShortText()| == 1
      invariant forall i, j | 0 <= i < k && 0 <= j < |declared| && declared[i].HasShort() && declared[j].HasShort() ::
                  declared[i].name != declared[j].name ==> declared[i].ShortText() != declared[j].ShortText()
    {
      if opts[k].HasShort() {
        var short := opts[k].ShortText();
        if |short| != 1 { return Rejected(ShortNotOneLetter); }
        NormalisedKeeps(declared, opts, k);
        var duplicate := FindDuplicate(opts, opts[k].name, short);
        if duplicate.Rejected? { return Rejected(duplicate.error); }
        if duplicate.value { return Rejected(DuplicateShort); }
        opts := opts[k := opts[k].(short := Given(short))];
      }
    }
    return Accepted(opts);
  }

  /** Options normalised so far have the shorts they had. */
  lemma NormalisedKeeps(declared: seq<Opt>, opts: seq<Opt>, k: nat)
    requires |opts| == |declared| && k <= |opts|
    requires forall i | 0 <= i < k :: opts[i] == Normalised(declared[i])
    requires forall i | k <= i < |opts| :: opts[i] == declared[i]
    requires forall i | 0 <= i < k && declared[i].HasShort() :: |declared[i].ShortText()| == 1
    ensures forall i | 0 <= i < |opts| ::
        opts[i].name == declared[i].name && opts[i].HasShort() == declared[i].HasShort()
    ensures forall i | 0 <= i < |opts| && opts[i].HasShort() :: opts[i].ShortText() == declared[i].ShortText()
  {}

  // -- addHelpOption ---------------------------------------------------------

  const HELP := Opt("help", Given("h"), false, None)

  function AddHelpOption(opts: seq<Opt>): seq<Opt> {
    opts + [HELP]
  }

  // -- What the parser relies on ---------------------------------------------

  function LongToken(opt: Opt): string {
    "--" + opt.name
  }

  /** `"-" + opt.short`, which prints what is not a string too */
  function ShortToken(opt: Opt): string {
    match opt.short
    case Absent => "-undefined"
    case Automatic => "-true"
    case Given(text) => "-" + text
  }

  predicate Names(opt: Opt, token: string) {
    token == LongToken(opt) || token == ShortToken(opt)
  }

  ghost predicate NamesDistinct(opts: seq<Opt>) {
    && (forall i | 0 <= i < |opts| :: opts[i].name != "")
    && (forall i, j | 0 <= i < j < |opts| :: opts[i].name != opts[j].name)
  }

  ghost predicate ShortsDistinct(opts: seq<Opt>) {
    && (forall i | 0 <= i < |opts| ::
        opts[i].short != Automatic && (opts[i].short.Given? ==> |opts[i].short.text| == 1))
    && (forall i, j | 0 <= i < j < |opts| && opts[i].short.Given? :: opts[i].short != opts[j].short)
  }

  /**
   * What `createOptions` accepts, with the help option added, has names of its
   * own exactly when the declared names differ and none is `help`, and shorts of
   * its own exactly when none is `h` or the empty string, neither of which
   * `createOptions` looks for.
   */
  lemma AcceptedOptionsAreDistinct(declared: seq<Opt>, created: seq<Opt>)
    requires ShortsFit(declared)
    requires |created| == |declared| && forall i | 0 <= i < |declared| :: created[i] == Normalised(declared[i])
    ensures NamesDistinct(AddHelpOption(created)) <==>
            NamesDistinct(declared) && forall i | 0 <= i < |declared| :: declared[i].name != "help"
    ensures NamesDistinct(declared) ==>
              (ShortsDistinct(AddHelpOption(created)) <==>
               forall i | 0 <= i < |declared| ::
                 declared[i].short != Given("") && (declared[i].HasShort() ==> declared[i].ShortText() != "h"))
  {
    var opts, n := AddHelpOption(created), |declared|;
    assert opts[n] == HELP && forall i | 0 <= i < n :: opts[i] == Normalised(declared[i]);
    if NamesDistinct(opts) {
      forall i | 0 <= i < n ensures declared[i].name != "help" { assert opts[i].name != opts[n].name; }
      assert forall i | 0 <= i < n :: opts[i].name == declared[i].name;
    }
    if ShortsDistinct(opts) {
      forall i | 0 <= i < n
        ensures declared[i].short != Given("") && (declared[i].HasShort() ==> declared[i].ShortText() != "h")
      {
        assert opts[i].short.Given? ==> opts[i].short != opts[n].short;
      }
    }
  }

  /** An accepted option whose short is that of help: `host`, with its first letter for a short. */
  lemma HostClashesWithHelp(takeValue: bool)
    ensures var host := Opt("host", Automatic, takeValue, None);
            ShortsFit([host]) && NamesDistinct([host]) && !ShortsDistinct(AddHelpOption([Normalised(host)]))
  {
    var host := Opt("host", Automatic, takeValue, None);
    assert "host"[..1] == "h";
    AcceptedOptionsAreDistinct([host], [Normalised(host)]);
    assert [host][0].ShortText() == "h";
  }
}
