/**
 * The settings as `localStorage` holds them: endpoints stored under the key of
 * the option they are, resolved back to addresses when read, and every value
 * that would break loading dropped against the defaults.
 */
module StoredEndpoint {
  import opened Options

  /** A settings value as parsed JSON holds it, or `undefined`. */
  datatype Value =
    | Undefined
    | Null
    | Boolean(flag: bool)
    | Number(number: real)
    | Text(text: string)
    | List(items: seq<Value>)
    | Record(fields: map<string, Value>)

  type State = map<string, Value>

  // -- The addresses the application provides -------------------------------

  datatype Network = Network(cluster: string, url: string)
  datatype EndpointOption = EndpointOption(key: string, url: string)
  type OptionList = seq<EndpointOption>

  const PublicDevnet := "https://api.devnet.solana.com"
  const PublicMainnet := "https://api.mainnet-beta.solana.com"
  const Playnet := "http://playnet"
  const Localnet := "http://localhost:8899"
  const Testnet := "https://api.testnet.solana.com"
  const Foundation := "https://playground-server-dot-analytics-324114.de.r.appspot.com"
  const LocalServer := "http://localhost:8080"

  /** `a || b` on an environment variable, an unset one being empty. */
  function OrElse(a: string, b: string): string {
    if a == "" then b else a
  }

  function BuildNetworks(devnet: string, mainnet: string): seq<Network> {
    [Network("devnet", OrElse(devnet, PublicDevnet)),
     Network("mainnet-beta", OrElse(mainnet, PublicMainnet))]
  }

  function Keyed(networks: seq<Network>, suffix: string): OptionList {
    seq(|networks|, i requires 0 <= i < |networks| => EndpointOption(networks[i].cluster + suffix, networks[i].url))
  }

  function ConnectionOptions(networks: seq<Network>): OptionList {
    Keyed(networks, "")
    + [EndpointOption("devnet", PublicDevnet), EndpointOption("mainnet-beta", PublicMainnet)]
    + Keyed(networks, "-platform")
    + [EndpointOption("playnet", Playnet), EndpointOption("localnet", Localnet), EndpointOption("testnet", Testnet)]
  }

  function ServerOptions(configured: string): OptionList {
    (if configured == "" then [] else [EndpointOption("configured", configured)])
    + [EndpointOption("foundation", Foundation), EndpointOption("local", LocalServer)]
  }

  function ByUrl(options: OptionList, url: string): Option<EndpointOption> {
    if options == [] then None
    else if options[0].url == url then Some(options[0])
    else ByUrl(options[1..], url)
  }

  function ByKey(options: OptionList, key: string): Option<EndpointOption> {
    if options == [] then None
    else if options[0].key == key then Some(options[0])
    else ByKey(options[1..], key)
  }

  // -- One endpoint ---------------------------------------------------------

  /** What an endpoint is stored as. */
  function Store(options: OptionList, value: Value): Value {
    var known := if value.Text? then ByUrl(options, value.text) else None;
    if known.Some?
    then Record(map["option" := Text(known.value.key)])
    else Record(map["option" := Text("custom"), "url" := value])
  }

  function FieldOf(value: Value, name: string): Value {
    if value.Record? && name in value.fields then value.fields[name] else Undefined
  }

  function AddressOr(isAddress: string -> bool, value: Value, fallback: Value): Value {
    if value.Text? && isAddress(value.text) then value else fallback
  }

  /** What a stored endpoint reads as. */
  function Resolve(options: OptionList, isAddress: string -> bool, fallback: Value, value: Value): Value {
    if value.Text? then
      var ours := ByUrl(options, value.text);
      if ours.None? then AddressOr(isAddress, value, fallback)
      else
        var current := ByKey(options, ours.value.key);
        if current.Some? then Text(current.value.url) else value
    else
      var option := FieldOf(value, "option");
      if option == Text("custom") then AddressOr(isAddress, FieldOf(value, "url"), fallback)
      else
        var known := if option.Text? then ByKey(options, option.text) else None;
        if known.Some? then Text(known.value.url) else fallback
  }

  // -- Whole settings -------------------------------------------------------

  datatype Setting = Setting(group: string, field: string)

  const ConnectionEndpoint := Setting("connection", "endpoint")
  const ServerEndpoint := Setting("server", "endpoint")

  predicate Has(state: State, id: Setting) {
    id.group in state && state[id.group].Record? && id.field in state[id.group].fields
  }

  function At(state: State, id: Setting): Value
    requires Has(state, id)
  {
    state[id.group].fields[id.field]
  }

  function With(state: State, id: Setting, value: Value): State
    requires Has(state, id)
  {
    state[id.group := Record(state[id.group].fields[id.field := value])]
  }

  function MapSetting(state: State, id: Setting, f: Value -> Value): State {
    if Has(state, id) then With(state, id, f(At(state, id))) else state
  }

  function DefaultOf(defaults: State, id: Setting): Value {
    if Has(defaults, id) then At(defaults, id) else Undefined
  }

  datatype Environment = Environment(connection: OptionList, server: OptionList, isAddress: string -> bool)

  function Storing(options: OptionList): Value -> Value {
    value => Store(options, value)
  }

  function Resolving(options: OptionList, isAddress: string -> bool, fallback: Value): Value -> Value {
    value => Resolve(options, isAddress, fallback, value)
  }

  function ToStored(env: Environment, state: State): State {
    MapSetting(
      MapSetting(state, ConnectionEndpoint, Storing(env.connection)),
      ServerEndpoint, Storing(env.server))
  }

  function FromStored(env: Environment, defaults: State, stored: State): State {
    MapSetting(
      MapSetting(stored, ConnectionEndpoint,
        Resolving(env.connection, env.isAddress, DefaultOf(defaults, ConnectionEndpoint))),
      ServerEndpoint,
      Resolving(env.server, env.isAddress, DefaultOf(defaults, ServerEndpoint)))
  }

  // -- Values that would break loading --------------------------------------

  predicate CanReplaceDefault(fallback: Value, value: Value) {
    if value.Null? then fallback.Null?
    else if !value.Record? && !value.List? then true
    else fallback.List? && value.List?
  }

  /** Whether a stored entry is kept at all, whatever happens below it. */
  predicate Stays(defaults: Value, key: string, value: Value)
    requires defaults.Record?
  {
    if key !in defaults.fields then true
    else if defaults.fields[key].Record? then value.Record?
    else CanReplaceDefault(defaults.fields[key], value)
  }

  predicate Descends(defaults: Value, key: string) {
    defaults.Record? && key in defaults.fields && defaults.fields[key].Record?
  }

  function DropBroken(defaults: Value, stored: Value): (kept: Value)
    requires defaults.Record? && stored.Record?
    ensures kept.Record?
    decreases stored
  {
    Record(map key | key in stored.fields && Stays(defaults, key, stored.fields[key]) ::
      if Descends(defaults, key)
      then DropBroken(defaults.fields[key], stored.fields[key])
      else stored.fields[key])
  }

  /** Reading the settings: endpoints resolved first, then the broken values dropped. */
  function Load(env: Environment, defaults: State, stored: State): (loaded: State) {
    DropBroken(Record(defaults), Record(FromStored(env, defaults, stored))).fields
  }

  /**
   * A tree that loads: at every depth an object exactly where the default is
   * one, `null` only over `null`, arrays only over arrays, and anything under a
   * key the defaults do not hold.
   */
  predicate Fits(defaults: Value, value: Value)
    decreases value
  {
    && defaults.Record?
    && value.Record?
    && forall key | key in value.fields && key in defaults.fields ::
        if defaults.fields[key].Record?
        then Fits(defaults.fields[key], value.fields[key])
        else
          && (value.fields[key].Null? ==> defaults.fields[key].Null?)
          && (value.fields[key].List? ==> defaults.fields[key].List?)
          && !value.fields[key].Record?
  }

  /** `part` is `whole` with some entries deleted, at any depth. */
  predicate Within(part: Value, whole: Value)
    decreases part
  {
    || part == whole
    || (&& part.Record?
        && whole.Record?
        && forall key | key in part.fields ::
            key in whole.fields && Within(part.fields[key], whole.fields[key]))
  }
}
