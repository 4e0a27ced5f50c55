/** What storing and reading the settings guarantees (`client-v2/src/settings/stored-endpoint.ts`). */
module StoredEndpointTheorems {
  import opened Options
  import opened StoredEndpoint

  /** An address of the environment, or the public one where it sets none */
  function Chosen(url: string, public: string): string {
    if url == "" then public else url
  }

  // -- One endpoint: write, then read ---------------------------------------

  /** An address written and read back. */
  function ReadBack(options: OptionList, isAddress: string -> bool, fallback: Value, url: string): Value {
    Resolve(options, isAddress, fallback, Store(options, Text(url)))
  }

  predicate Provides(options: OptionList, url: string) {
    exists i :: 0 <= i < |options| && options[i].url == url
  }

  predicate FirstUrlAt(options: OptionList, i: nat, url: string) {
    i < |options| && options[i].url == url && forall j | 0 <= j < i :: options[j].url != url
  }

  predicate FirstKeyAt(options: OptionList, i: nat, key: string) {
    i < |options| && options[i].key == key && forall j | 0 <= j < i :: options[j].key != key
  }

  lemma {:induction false} ByUrlIsFirst(options: OptionList, i: nat, url: string)
    requires FirstUrlAt(options, i, url)
    ensures ByUrl(options, url) == Some(options[i])
  {
    if i > 0 {
      forall j | 0 <= j < i - 1 ensures options[1..][j].url != url { assert options[1..][j] == options[j + 1]; }
      ByUrlIsFirst(options[1..], i - 1, url);
    }
  }

  lemma {:induction false} ByKeyIsFirst(options: OptionList, i: nat, key: string)
    requires FirstKeyAt(options, i, key)
    ensures ByKey(options, key) == Some(options[i])
  {
    if i > 0 {
      forall j | 0 <= j < i - 1 ensures options[1..][j].key != key { assert options[1..][j] == options[j + 1]; }
      ByKeyIsFirst(options[1..], i - 1, key);
    }
  }

  /** `find` by address: nothing exactly when no option has it, and else an option that has it. */
  lemma {:induction false} ByUrlFinds(options: OptionList, url: string)
    ensures ByUrl(options, url).None? <==> !Provides(options, url)
    ensures ByUrl(options, url).Some? ==>
      ByUrl(options, url).value in options && ByUrl(options, url).value.url == url
  {
    if options != [] {
      ByUrlFinds(options[1..], url);
      assert forall i | 0 < i < |options| :: options[i] == options[1..][i - 1];
    }
  }

  lemma {:induction false} ByKeyFinds(options: OptionList, option: EndpointOption)
    requires option in options
    ensures ByKey(options, option.key).Some?
  {
    if options[0].key != option.key {
      ByKeyFinds(options[1..], option);
    }
  }

  predicate NoCustomKey(options: OptionList) {
    forall i | 0 <= i < |options| :: options[i].key != "custom"
  }

  /** Writing an address and reading it agrees with reading the address a legacy profile held as plain text. */
  lemma ReadsLikeLegacy(options: OptionList, isAddress: string -> bool, fallback: Value, url: string)
    requires NoCustomKey(options)
    ensures ReadBack(options, isAddress, fallback, url) == Resolve(options, isAddress, fallback, Text(url))
  {
    ByUrlFinds(options, url);
    var known := ByUrl(options, url);
    if known.Some? { ByKeyFinds(options, known.value); }
  }

  /** An address that is not provided comes back byte for byte if it parses, and as the default otherwise. */
  lemma CustomReadsBack(options: OptionList, isAddress: string -> bool, fallback: Value, url: string)
    requires !Provides(options, url)
    ensures ReadBack(options, isAddress, fallback, url) == if isAddress(url) then Text(url) else fallback
  {
    ByUrlFinds(options, url);
  }

  /** Read under other options than it was written under, a custom address still comes back untouched. */
  lemma CustomSurvivesRotation(before: OptionList, after: OptionList, isAddress: string -> bool, fallback: Value,
                               url: string)
    requires !Provides(before, url) && isAddress(url)
    ensures Resolve(after, isAddress, fallback, Store(before, Text(url))) == Text(url)
  {
    ByUrlFinds(before, url);
  }

  /** The connection options, whatever addresses the two networks are offered on. */
  function Offered(devnet: string, mainnet: string): OptionList {
    ConnectionOptions(BuildNetworks(devnet, mainnet))
  }

  lemma OfferedIs(devnet: string, mainnet: string)
    ensures Offered(devnet, mainnet) ==
      [EndpointOption("devnet", Chosen(devnet, PublicDevnet)),
       EndpointOption("mainnet-beta", Chosen(mainnet, PublicMainnet)),
       EndpointOption("devnet", PublicDevnet),
       EndpointOption("mainnet-beta", PublicMainnet),
       EndpointOption("devnet-platform", Chosen(devnet, PublicDevnet)),
       EndpointOption("mainnet-beta-platform", Chosen(mainnet, PublicMainnet)),
       EndpointOption("playnet", Playnet),
       EndpointOption("localnet", Localnet),
       EndpointOption("testnet", Testnet)]
  {
    assert "devnet" + "" == "devnet" && "mainnet-beta" + "" == "mainnet-beta";
    assert "devnet" + "-platform" == "devnet-platform";
    assert "mainnet-beta" + "-platform" == "mainnet-beta-platform";
  }

  /** The position whose address an entry of the offered list reads back as. */
  function Canonical(i: nat): nat {
    if i == 2 then 0 else if i == 3 then 1 else i
  }

  lemma OfferedKeys(devnet: string, mainnet: string, i: nat)
    requires i < 9
    ensures |Offered(devnet, mainnet)| == 9
    ensures FirstKeyAt(Offered(devnet, mainnet), Canonical(i), Offered(devnet, mainnet)[i].key)
    ensures Offered(devnet, mainnet)[i].key != "custom"
  {
    OfferedIs(devnet, mainnet);
    assert "playnet"[0] != "testnet"[0] && "devnet"[0] != "custom"[0];
  }

  /** A provided address reads as the first address under the first key it is listed under. */
  lemma OfferedReadsAt(devnet: string, mainnet: string, isAddress: string -> bool, fallback: Value, url: string, i: nat)
    requires i < 9 && |Offered(devnet, mainnet)| == 9 && FirstUrlAt(Offered(devnet, mainnet), i, url)
    ensures ReadBack(Offered(devnet, mainnet), isAddress, fallback, url)
      == Text(Offered(devnet, mainnet)[Canonical(i)].url)
  {
    OfferedKeys(devnet, mainnet, i);
    ByUrlIsFirst(Offered(devnet, mainnet), i, url);
    ByKeyIsFirst(Offered(devnet, mainnet), Canonical(i), Offered(devnet, mainnet)[i].key);
  }

  /**
   * What any address reads back as: a public address moves to the offered
   * network it stands for, unless the environment offers that very address;
   * everything else provided, or parseable, stays; the rest is the default.
   */
  function ConnectionReading(devnet: string, mainnet: string, isAddress: string -> bool, fallback: Value,
                             url: string): Value {
    var d, m := Chosen(devnet, PublicDevnet), Chosen(mainnet, PublicMainnet);
    if url == d || url == m then Text(url)
    else if url == PublicDevnet then Text(d)
    else if url == PublicMainnet then Text(m)
    else if url == Playnet || url == Localnet || url == Testnet || isAddress(url) then Text(url)
    else fallback
  }

  lemma {:induction false} FirstUrlExists(options: OptionList, url: string, from: nat) returns (i: nat)
    requires Provides(options, url) && from <= |options|
    requires forall j | 0 <= j < from :: options[j].url != url
    ensures FirstUrlAt(options, i, url)
    decreases |options| - from
  {
    if options[from].url == url {
      i := from;
    } else {
      i := FirstUrlExists(options, url, from + 1);
    }
  }

  lemma PublicAddressesDiffer()
    ensures PublicDevnet != PublicMainnet && PublicDevnet != Playnet && PublicDevnet != Localnet
        && PublicDevnet != Testnet
    ensures PublicMainnet != Playnet && PublicMainnet != Localnet && PublicMainnet != Testnet
  {}

  lemma ConnectionReads(devnet: string, mainnet: string, isAddress: string -> bool, fallback: Value, url: string)
    ensures ReadBack(Offered(devnet, mainnet), isAddress, fallback, url)
      == ConnectionReading(devnet, mainnet, isAddress, fallback, url)
  {
    var options := Offered(devnet, mainnet);
    OfferedIs(devnet, mainnet);
    PublicAddressesDiffer();
    var d, m := options[0].url, options[1].url;
    var i := if url == d then 0 else if url == m then 1
      else if url == PublicDevnet then 2 else if url == PublicMainnet then 3
      else if url == Playnet then 6 else if url == Localnet then 7 else 8;
    hide Offered, ReadBack;
    if options[i].url == url {
      OfferedReadsAt(devnet, mainnet, isAddress, fallback, url, i);
    } else {
      CustomReadsBack(options, isAddress, fallback, url);
    }
  }

  /** Reading back is a projection, for every pair of network addresses and every address at all. */
  lemma ConnectionReadsOnce(devnet: string, mainnet: string, isAddress: string -> bool, url: string)
    ensures
      var options, default := Offered(devnet, mainnet), Chosen(devnet, PublicDevnet);
      var once := ReadBack(options, isAddress, Text(default), url);
      once.Text? && ReadBack(options, isAddress, Text(default), once.text) == once
  {
    var default := Chosen(devnet, PublicDevnet);
    ConnectionReads(devnet, mainnet, isAddress, Text(default), url);
    var once := ConnectionReading(devnet, mainnet, isAddress, Text(default), url);
    ConnectionReads(devnet, mainnet, isAddress, Text(default), once.text);
  }

  /** The addresses that come back unchanged, exactly. */
  lemma ConnectionKeepsExactly(devnet: string, mainnet: string, isAddress: string -> bool, url: string)
    ensures
      var d, m := Chosen(devnet, PublicDevnet), Chosen(mainnet, PublicMainnet);
      ReadBack(Offered(devnet, mainnet), isAddress, Text(d), url) == Text(url) <==>
        || url in {d, m}
        || (url !in {PublicDevnet, PublicMainnet} && (url in {Playnet, Localnet, Testnet} || isAddress(url)))
  {
    ConnectionReads(devnet, mainnet, isAddress, Text(Chosen(devnet, PublicDevnet)), url);
  }

  /**
   * A profile on the offered Devnet follows it wherever the environment moves
   * it, and so does Mainnet when the two differ.
   */
  lemma NetworksFollowTheEnvironment(devnet: string, mainnet: string, devnetNow: string, mainnetNow: string,
                                     isAddress: string -> bool, fallback: Value)
    ensures
      var before, after := Offered(devnet, mainnet), Offered(devnetNow, mainnetNow);
      var d, m := Chosen(devnet, PublicDevnet), Chosen(mainnet, PublicMainnet);
      && Resolve(after, isAddress, fallback, Store(before, Text(d))) == Text(Chosen(devnetNow, PublicDevnet))
      && Resolve(after, isAddress, fallback, Store(before, Text(m)))
          == Text(if m == d then Chosen(devnetNow, PublicDevnet) else Chosen(mainnetNow, PublicMainnet))
  {
    var before, after := Offered(devnet, mainnet), Offered(devnetNow, mainnetNow);
    var d, m := Chosen(devnet, PublicDevnet), Chosen(mainnet, PublicMainnet);
    OfferedIs(devnet, mainnet);
    OfferedIs(devnetNow, mainnetNow);
    ByUrlIsFirst(before, 0, d);
    ByUrlIsFirst(before, if m == d then 0 else 1, m);
    OfferedKeys(devnetNow, mainnetNow, 0);
    OfferedKeys(devnetNow, mainnetNow, 1);
    ByKeyIsFirst(after, 0, "devnet");
    ByKeyIsFirst(after, 1, "mainnet-beta");
  }

  lemma ServerKeys(configured: string, i: nat)
    requires i < |ServerOptions(configured)|
    ensures FirstKeyAt(ServerOptions(configured), i, ServerOptions(configured)[i].key)
    ensures ServerOptions(configured)[i].key != "custom"
  {}

  /** A build server comes back unchanged exactly when it is provided or parses, and is the default otherwise. */
  lemma ServerReads(configured: string, isAddress: string -> bool, fallback: Value, url: string)
    ensures ReadBack(ServerOptions(configured), isAddress, fallback, url)
      == if url in {Foundation, LocalServer} || (url == configured && url != "") || isAddress(url) then Text(url)
          else fallback
  {
    var options := ServerOptions(configured);
    if Provides(options, url) {
      var i := FirstUrlExists(options, url, 0);
      ServerKeys(configured, i);
      ByUrlIsFirst(options, i, url);
      ByKeyIsFirst(options, i, options[i].key);
    } else {
      CustomReadsBack(options, isAddress, fallback, url);
      assert options[|options| - 1].url == LocalServer && options[|options| - 2].url == Foundation;
      assert configured != "" ==> options[0].url == configured;
    }
  }

  lemma ServerReadsOnce(configured: string, isAddress: string -> bool, url: string)
    ensures
      var options, default := ServerOptions(configured), Chosen(configured, Foundation);
      var once := ReadBack(options, isAddress, Text(default), url);
      once.Text? && ReadBack(options, isAddress, Text(default), once.text) == once
  {
    var default := Chosen(configured, Foundation);
    ServerReads(configured, isAddress, Text(default), url);
    ServerReads(configured, isAddress, Text(default),
        ReadBack(ServerOptions(configured), isAddress, Text(default), url).text);
  }

  /** A profile on the configured server follows it, and reads as the default once there is none. */
  lemma ServerFollowsTheEnvironment(configured: string, now: string, isAddress: string -> bool, fallback: Value)
    requires configured != ""
    ensures Resolve(ServerOptions(now), isAddress, fallback, Store(ServerOptions(configured), Text(configured))) ==
            if now == "" then fallback else Text(now)
  {
    var before, after := ServerOptions(configured), ServerOptions(now);
    ByUrlIsFirst(before, 0, configured);
    assert "configured" != "custom" by { assert |"configured"| == 10 && |"custom"| == 6; }
    if now == "" {
      NoneIsConfigured();
    } else {
      ServerKeys(now, 0);
      ByKeyIsFirst(after, 0, "configured");
    }
    hide ByUrl, ByKey;
  }

  lemma NoneIsConfigured()
    ensures ByKey(ServerOptions(""), "configured") == None
  {
    assert "configured"[0] != "foundation"[0] && |"configured"| != |"local"|;
    KeyIsMissing(ServerOptions(""), "configured");
  }

  // -- What is stored, and what anything stored reads as ---------------------

  predicate HasKey(options: OptionList, key: string) {
    exists i :: 0 <= i < |options| && options[i].key == key
  }

  lemma {:induction false} KeyIsMissing(options: OptionList, key: string)
    requires !HasKey(options, key)
    ensures ByKey(options, key) == None
  {
    if options != [] {
      assert options[0].key != key;
      assert !HasKey(options[1..], key) by {
        assert forall i | 0 <= i < |options| - 1 :: options[1..][i] == options[i + 1];
      }
      KeyIsMissing(options[1..], key);
    }
  }

  /** An address the application provides is stored as the key it is first listed under, and not itself. */
  lemma ProvidedIsStoredAsKey(options: OptionList, i: nat, url: string)
    requires FirstUrlAt(options, i, url)
    ensures Store(options, Text(url)) == Record(map["option" := Text(options[i].key)])
  {
    ByUrlIsFirst(options, i, url);
  }

  /** Any other address is stored as it is, as a custom one. */
  lemma CustomIsStored(options: OptionList, url: string)
    requires !Provides(options, url)
    ensures Store(options, Text(url)) == Record(map["option" := Text("custom"), "url" := Text(url)])
  {
    ByUrlFinds(options, url);
  }

  /** A key reads as the address first listed under it, and as the default if none is. */
  lemma KeyReads(options: OptionList, isAddress: string -> bool, fallback: Value, value: Value, key: string)
    requires value.Record? && "option" in value.fields && value.fields["option"] == Text(key) && key != "custom"
    ensures !HasKey(options, key) ==> Resolve(options, isAddress, fallback, value) == fallback
    ensures forall i: nat | FirstKeyAt(options, i, key) ::
              Resolve(options, isAddress, fallback, value) == Text(options[i].url)
  {
    if !HasKey(options, key) { KeyIsMissing(options, key); }
    forall i: nat | FirstKeyAt(options, i, key) ensures ByKey(options, key) == Some(options[i]) {
      ByKeyIsFirst(options, i, key);
    }
  }

  /** A custom endpoint reads as its address if that parses, and as the default otherwise. */
  lemma CustomReads(options: OptionList, isAddress: string -> bool, fallback: Value, value: Value)
    requires value.Record? && "option" in value.fields && value.fields["option"] == Text("custom")
    ensures Resolve(options, isAddress, fallback, value) ==
            if "url" in value.fields && value.fields["url"].Text? && isAddress(value.fields["url"].text)
            then value.fields["url"] else fallback
  {}

  /** Plain text reads as the address its key is first listed with, if provided, and else as itself if it parses. */
  lemma TextReads(options: OptionList, isAddress: string -> bool, fallback: Value, url: string)
    ensures !Provides(options, url) ==>
              Resolve(options, isAddress, fallback, Text(url)) == if isAddress(url) then Text(url) else fallback
    ensures forall i: nat, j: nat | FirstUrlAt(options, i, url) && FirstKeyAt(options, j, options[i].key) ::
              Resolve(options, isAddress, fallback, Text(url)) == Text(options[j].url)
  {
    ByUrlFinds(options, url);
    forall i: nat, j: nat | FirstUrlAt(options, i, url) && FirstKeyAt(options, j, options[i].key)
      ensures ByUrl(options, url) == Some(options[i]) && ByKey(options, options[i].key) == Some(options[j])
    {
      ByUrlIsFirst(options, i, url);
      ByKeyIsFirst(options, j, options[i].key);
    }
  }

  /** Anything else reads as the default. */
  lemma NonsenseReads(options: OptionList, isAddress: string -> bool, fallback: Value, value: Value)
    requires !value.Text?
    requires value.Record? ==> "option" !in value.fields || !value.fields["option"].Text?
    ensures Resolve(options, isAddress, fallback, value) == fallback
  {}

  // -- Dropping what would break loading ------------------------------------

  lemma {:induction false} DroppedFits(defaults: Value, stored: Value)
    requires defaults.Record? && stored.Record?
    ensures Fits(defaults, DropBroken(defaults, stored))
    decreases stored
  {
    var kept := DropBroken(defaults, stored);
    forall key | key in kept.fields && Descends(defaults, key)
      ensures Fits(defaults.fields[key], kept.fields[key])
    {
      DroppedFits(defaults.fields[key], stored.fields[key]);
    }
  }

  lemma {:induction false} DroppedWithin(defaults: Value, stored: Value)
    requires defaults.Record? && stored.Record?
    ensures Within(DropBroken(defaults, stored), stored)
    decreases stored
  {
    var kept := DropBroken(defaults, stored);
    forall key | key in kept.fields
      ensures key in stored.fields && Within(kept.fields[key], stored.fields[key])
    {
      if Descends(defaults, key) { DroppedWithin(defaults.fields[key], stored.fields[key]); }
    }
  }

  /** What already fits loses nothing. */
  lemma {:induction false} FittingIsKept(defaults: Value, stored: Value)
    requires Fits(defaults, stored)
    ensures DropBroken(defaults, stored) == stored
    decreases stored
  {
    var kept := DropBroken(defaults, stored);
    forall key | key in stored.fields
      ensures key in kept.fields && kept.fields[key] == stored.fields[key]
    {
      if Descends(defaults, key) { FittingIsKept(defaults.fields[key], stored.fields[key]); }
    }
    assert kept.fields == stored.fields;
  }

  /** Exactly the trees that fit are left alone, so dropping twice is dropping once. */
  lemma {:induction false} DropIsAProjection(defaults: Value, stored: Value)
    requires defaults.Record? && stored.Record?
    ensures DropBroken(defaults, stored) == stored <==> Fits(defaults, stored)
    ensures DropBroken(defaults, DropBroken(defaults, stored)) == DropBroken(defaults, stored)
  {
    DroppedFits(defaults, stored);
    FittingIsKept(defaults, DropBroken(defaults, stored));
    if Fits(defaults, stored) { FittingIsKept(defaults, stored); }
  }

  /** Nothing is dropped needlessly: every tree that fits and is left of `stored` is left of what is kept. */
  lemma {:induction false} DropKeepsTheMost(defaults: Value, stored: Value, part: Value)
    requires defaults.Record? && stored.Record?
    requires Within(part, stored) && Fits(defaults, part)
    ensures Within(part, DropBroken(defaults, stored))
    decreases stored
  {
    if part == stored {
      FittingIsKept(defaults, stored);
    } else {
      var kept := DropBroken(defaults, stored);
      forall key | key in part.fields
        ensures key in kept.fields && Within(part.fields[key], kept.fields[key])
      {
        if Descends(defaults, key) {
          DropKeepsTheMost(defaults.fields[key], stored.fields[key], part.fields[key]);
        }
      }
    }
  }

  // -- The whole settings ---------------------------------------------------

  lemma WithSets(state: State, id: Setting, value: Value, other: Setting)
    requires Has(state, id) && Has(state, other)
    ensures Has(With(state, id, value), other)
    ensures At(With(state, id, value), other) == if id == other then value else At(state, other)
  {
  }

  lemma WithNotHas(state: State, id: Setting, value: Value, other: Setting)
    requires Has(state, id) && id.group != other.group
    ensures Has(With(state, id, value), other) <==> Has(state, other)
    ensures Has(state, other) ==> At(With(state, id, value), other) == At(state, other)
  {
  }

  lemma WithTwice(state: State, id: Setting, first: Value, second: Value)
    requires Has(state, id)
    ensures Has(With(state, id, first), id)
    ensures With(With(state, id, first), id, second) == With(state, id, second)
  {
    var group := state[id.group].fields;
    assert group[id.field := first][id.field := second] == group[id.field := second];
  }

  lemma WithCommutes(state: State, id: Setting, value: Value, other: Setting, otherValue: Value)
    requires Has(state, id) && Has(state, other) && id.group != other.group
    ensures Has(With(state, other, otherValue), id) && Has(With(state, id, value), other)
    ensures With(With(state, id, value), other, otherValue) == With(With(state, other, otherValue), id, value)
  {
  }

  /** Mapping one setting, another, and both again is mapping each once through both maps. */
  lemma MapsCompose(state: State, id: Setting, other: Setting, f: Value -> Value, g: Value -> Value,
                    f2: Value -> Value, g2: Value -> Value, fs: Value -> Value, gs: Value -> Value)
    requires id.group != other.group
    requires Has(state, id) ==> fs(At(state, id)) == f2(f(At(state, id)))
    requires Has(state, other) ==> gs(At(state, other)) == g2(g(At(state, other)))
    ensures MapSetting(MapSetting(MapSetting(MapSetting(state, id, f), other, g), id, f2), other, g2)
      == MapSetting(MapSetting(state, id, fs), other, gs)
  {
    hide With, Has, At;
    if Has(state, id) {
      var x, x2 := f(At(state, id)), f2(f(At(state, id)));
      WithSets(state, id, x, id);
      WithTwice(state, id, x, x2);
      WithNotHas(state, id, x, other);
      WithNotHas(state, id, x2, other);
      if Has(state, other) {
        var y, y2 := g(At(state, other)), g2(g(At(state, other)));
        WithCommutes(state, id, x, other, y);
        var put := With(state, other, y);
        WithSets(state, other, y, other);
        WithNotHas(state, other, y, id);
        WithTwice(put, id, x, x2);
        WithSets(put, id, x, id);
        WithCommutes(state, id, x2, other, y);
        WithSets(With(state, id, x2), other, y, other);
        WithTwice(With(state, id, x2), other, y, y2);
      }
    } else if Has(state, other) {
      var y, y2 := g(At(state, other)), g2(g(At(state, other)));
      WithNotHas(state, other, y, id);
      WithSets(state, other, y, other);
      WithTwice(state, other, y, y2);
    }
  }

  lemma ResolvedIsText(options: OptionList, isAddress: string -> bool, fallback: Value, value: Value)
    requires fallback.Text?
    ensures Resolve(options, isAddress, fallback, value).Text?
  {
  }

  predicate IsEndpoint(id: Setting) {
    id == ConnectionEndpoint || id == ServerEndpoint
  }

  function OptionsOf(env: Environment, id: Setting): OptionList {
    if id == ConnectionEndpoint then env.connection else env.server
  }

  /** The defaults hold an address for the setting, as the application's do for both endpoints. */
  predicate HasAddress(defaults: State, id: Setting) {
    Has(defaults, id) && At(defaults, id).Text?
  }

  /** Whatever is stored, what is loaded fits the defaults at every depth. */
  lemma LoadedFits(env: Environment, defaults: State, stored: State)
    ensures Fits(Record(defaults), Record(Load(env, defaults, stored)))
  {
    DroppedFits(Record(defaults), Record(FromStored(env, defaults, stored)));
  }

  lemma GroupsDiffer()
    ensures ConnectionEndpoint == Setting("connection", "endpoint") && ServerEndpoint == Setting("server", "endpoint")
    ensures ConnectionEndpoint.group != ServerEndpoint.group
  {}

  /** Mapping a setting replaces its value in its group, and leaves a state without it alone. */
  lemma MapSettingReplaces(state: State, id: Setting, f: Value -> Value)
    ensures var mapped := MapSetting(state, id, f);
            if id.group in state && state[id.group].Record? && id.field in state[id.group].fields
            then && mapped.Keys == state.Keys
                 && (forall group | group in state && group != id.group :: mapped[group] == state[group])
                 && mapped[id.group].Record?
                 && mapped[id.group].fields == state[id.group].fields[id.field := f(state[id.group].fields[id.field])]
            else mapped == state
  {}

  /** The addresses the application provides */
  lemma AddressesAre()
    ensures PublicDevnet == "https://api.devnet.solana.com" && PublicMainnet == "https://api.mainnet-beta.solana.com"
    ensures Playnet == "http://playnet" && Localnet == "http://localhost:8899"
    ensures Testnet == "https://api.testnet.solana.com" && LocalServer == "http://localhost:8080"
    ensures Foundation == "https://playground-server-dot-analytics-324114.de.r.appspot.com"
  {}

  lemma FromStoredAt(env: Environment, defaults: State, stored: State, id: Setting)
    requires IsEndpoint(id) && Has(stored, id)
    ensures
      var read := FromStored(env, defaults, stored);
      Has(read, id)
          && At(read, id) == Resolve(OptionsOf(env, id), env.isAddress, DefaultOf(defaults, id), At(stored, id))
  {}

  /** Writing stores both endpoints, where the state has them. */
  lemma WrittenIsStored(env: Environment, state: State, id: Setting)
    requires IsEndpoint(id) && Has(state, id)
    ensures var stored := ToStored(env, state);
            Has(stored, id) && At(stored, id) == Store(OptionsOf(env, id), At(state, id))
  {
    GroupsDiffer();
    hide Store;
  }

  lemma DropKeepsText(defaults: State, state: State, id: Setting)
    requires HasAddress(defaults, id) && Has(state, id) && At(state, id).Text?
    ensures
      var kept := DropBroken(Record(defaults), Record(state)).fields;
      Has(kept, id) && At(kept, id) == At(state, id)
  {}

  /** Anything at all stored for an endpoint of an object group loads as an address: what it resolves to. */
  lemma EndpointLoads(env: Environment, defaults: State, stored: State, id: Setting)
    requires IsEndpoint(id) && Has(stored, id) && HasAddress(defaults, id)
    ensures
      var loaded := Load(env, defaults, stored);
      && Has(loaded, id)
      && At(loaded, id) == Resolve(OptionsOf(env, id), env.isAddress, At(defaults, id), At(stored, id))
      && At(loaded, id).Text?
  {
    FromStoredAt(env, defaults, stored, id);
    ResolvedIsText(OptionsOf(env, id), env.isAddress, At(defaults, id), At(stored, id));
    DropKeepsText(defaults, FromStored(env, defaults, stored), id);
  }

  /** A stored key whose option is gone, a custom address that does not parse, and nonsense load as the default. */
  lemma BrokenEndpointLoadsDefault(env: Environment, defaults: State, stored: State, id: Setting)
    requires IsEndpoint(id) && Has(stored, id) && HasAddress(defaults, id)
    requires match At(stored, id)
             case Text(url) => !Provides(OptionsOf(env, id), url) && !env.isAddress(url)
             case Record(fields) =>
               || "option" !in fields
               || !fields["option"].Text?
               || (if fields["option"].text == "custom"
                   then "url" !in fields || !fields["url"].Text? || !env.isAddress(fields["url"].text)
                   else !HasKey(OptionsOf(env, id), fields["option"].text))
             case _ => true
    ensures var loaded := Load(env, defaults, stored);
            Has(loaded, id) && At(loaded, id) == At(defaults, id)
  {
    var options, fallback, value := OptionsOf(env, id), At(defaults, id), At(stored, id);
    EndpointLoads(env, defaults, stored, id);
    hide Load, Resolve, OptionsOf;
    if value.Text? {
      TextReads(options, env.isAddress, fallback, value.text);
    } else if !value.Record? || "option" !in value.fields || !value.fields["option"].Text? {
      NonsenseReads(options, env.isAddress, fallback, value);
    } else if value.fields["option"].text == "custom" {
      CustomReads(options, env.isAddress, fallback, value);
    } else {
      KeyReads(options, env.isAddress, fallback, value, value.fields["option"].text);
    }
  }

  /** A stored key of the list loads as the address first listed under it, whatever it was when it was stored. */
  lemma StoredKeyLoads(env: Environment, defaults: State, stored: State, id: Setting, key: string, i: nat)
    requires IsEndpoint(id) && Has(stored, id) && HasAddress(defaults, id) && key != "custom"
    requires At(stored, id).Record? && "option" in At(stored, id).fields && At(stored, id).fields["option"] == Text(key)
    requires FirstKeyAt(OptionsOf(env, id), i, key)
    ensures var loaded := Load(env, defaults, stored);
            Has(loaded, id) && At(loaded, id) == Text(OptionsOf(env, id)[i].url)
  {
    EndpointLoads(env, defaults, stored, id);
    hide Load, Resolve, OptionsOf, FirstKeyAt;
    KeyReads(OptionsOf(env, id), env.isAddress, At(defaults, id), At(stored, id), key);
  }

  /** One endpoint of a state in memory, written and read. */
  function Rereading(env: Environment, defaults: State, id: Setting): Value -> Value {
    value => Resolve(OptionsOf(env, id), env.isAddress, DefaultOf(defaults, id), Store(OptionsOf(env, id), value))
  }

  /** A state in which each endpoint is what it reads back as and nothing else is touched. */
  function Reread(env: Environment, defaults: State, state: State): State {
    MapSetting(
      MapSetting(state, ConnectionEndpoint, Rereading(env, defaults, ConnectionEndpoint)),
      ServerEndpoint, Rereading(env, defaults, ServerEndpoint))
  }

  lemma RereadingIs(env: Environment, defaults: State, id: Setting, options: OptionList, value: Value)
    requires options == OptionsOf(env, id)
    ensures Rereading(env, defaults, id)(value)
      == Resolving(options, env.isAddress, DefaultOf(defaults, id))(Storing(options)(value))
  {
  }

  lemma OptionsAre(env: Environment)
    ensures OptionsOf(env, ConnectionEndpoint) == env.connection && OptionsOf(env, ServerEndpoint) == env.server
  {}

  lemma WrittenResolves(env: Environment, defaults: State, state: State)
    ensures FromStored(env, defaults, ToStored(env, state)) == Reread(env, defaults, state)
  {
    hide MapSetting, Has, At, DefaultOf, Storing, Resolving, Rereading, OptionsOf, ConnectionEndpoint, ServerEndpoint;
    GroupsDiffer();
    OptionsAre(env);
    if Has(state, ConnectionEndpoint) {
      RereadingIs(env, defaults, ConnectionEndpoint, env.connection, At(state, ConnectionEndpoint));
    }
    if Has(state, ServerEndpoint) {
      RereadingIs(env, defaults, ServerEndpoint, env.server, At(state, ServerEndpoint));
    }
    MapsCompose(state, ConnectionEndpoint, ServerEndpoint,
      Storing(env.connection), Storing(env.server),
      Resolving(env.connection, env.isAddress, DefaultOf(defaults, ConnectionEndpoint)),
      Resolving(env.server, env.isAddress, DefaultOf(defaults, ServerEndpoint)),
      Rereading(env, defaults, ConnectionEndpoint), Rereading(env, defaults, ServerEndpoint));
  }

  lemma FitsWithText(defaults: State, state: State, id: Setting, value: Value)
    requires Fits(Record(defaults), Record(state)) && HasAddress(defaults, id) && Has(state, id) && value.Text?
    ensures Fits(Record(defaults), Record(With(state, id, value)))
  {}

  lemma MappedFits(env: Environment, defaults: State, state: State, id: Setting)
    requires Fits(Record(defaults), Record(state)) && HasAddress(defaults, id)
    ensures Fits(Record(defaults), Record(MapSetting(state, id, Rereading(env, defaults, id))))
  {
    hide Fits, Resolve, Store, With;
    if Has(state, id) {
      ResolvedIsText(OptionsOf(env, id), env.isAddress, At(defaults, id), Store(OptionsOf(env, id), At(state, id)));
      FitsWithText(defaults, state, id, Rereading(env, defaults, id)(At(state, id)));
    }
  }

  lemma RereadFits(env: Environment, defaults: State, state: State)
    requires Fits(Record(defaults), Record(state))
    requires HasAddress(defaults, ConnectionEndpoint) && HasAddress(defaults, ServerEndpoint)
    ensures Fits(Record(defaults), Record(Reread(env, defaults, state)))
  {
    hide Fits, Rereading, MapSetting, HasAddress;
    MappedFits(env, defaults, state, ConnectionEndpoint);
    MappedFits(env, defaults, MapSetting(state, ConnectionEndpoint, Rereading(env, defaults, ConnectionEndpoint)),
        ServerEndpoint);
  }

  /** Settings that fit come back from storage whole, but for what their endpoints read back as. */
  lemma WrittenLoads(env: Environment, defaults: State, state: State)
    requires Fits(Record(defaults), Record(state))
    requires HasAddress(defaults, ConnectionEndpoint) && HasAddress(defaults, ServerEndpoint)
    ensures Load(env, defaults, ToStored(env, state)) == Reread(env, defaults, state)
  {
    hide Fits, Reread, ToStored, FromStored, HasAddress, DropBroken;
    WrittenResolves(env, defaults, state);
    RereadFits(env, defaults, state);
    FittingIsKept(Record(defaults), Record(Reread(env, defaults, state)));
  }

  ghost predicate OnlyEndpointsDiffer(a: State, b: State) {
    && a.Keys == b.Keys
    && (forall group | group in a && group != ConnectionEndpoint.group && group != ServerEndpoint.group ::
        a[group] == b[group])
    && (forall id: Setting :: Has(a, id) <==> Has(b, id))
    && (forall id: Setting | Has(a, id) && !IsEndpoint(id) :: At(a, id) == At(b, id))
  }

  lemma MapsOnly(state: State, id: Setting, f: Value -> Value)
    requires IsEndpoint(id)
    ensures OnlyEndpointsDiffer(state, MapSetting(state, id, f))
  {}

  lemma MapsOnlyEndpoints(state: State, f: Value -> Value, g: Value -> Value)
    ensures OnlyEndpointsDiffer(state, MapSetting(MapSetting(state, ConnectionEndpoint, f), ServerEndpoint, g))
  {
    hide MapSetting, Has, At, ConnectionEndpoint, ServerEndpoint;
    MapsOnly(state, ConnectionEndpoint, f);
    MapsOnly(MapSetting(state, ConnectionEndpoint, f), ServerEndpoint, g);
  }

  /** Writing, reading, and a trip through storage leave every other setting alone. */
  lemma OtherSettingsStay(env: Environment, defaults: State, state: State)
    ensures OnlyEndpointsDiffer(state, ToStored(env, state))
    ensures OnlyEndpointsDiffer(state, FromStored(env, defaults, state))
    ensures OnlyEndpointsDiffer(state, Reread(env, defaults, state))
  {
    hide MapSetting, OnlyEndpointsDiffer, Storing, Resolving, Rereading, DefaultOf;
    MapsOnlyEndpoints(state, Storing(env.connection), Storing(env.server));
    MapsOnlyEndpoints(state,
      Resolving(env.connection, env.isAddress, DefaultOf(defaults, ConnectionEndpoint)),
      Resolving(env.server, env.isAddress, DefaultOf(defaults, ServerEndpoint)));
    MapsOnlyEndpoints(state,
      Rereading(env, defaults, ConnectionEndpoint), Rereading(env, defaults, ServerEndpoint));
  }

  /** The application's own options, for any environment variables. */
  function Provided(devnet: string, mainnet: string, configured: string, isAddress: string -> bool): Environment {
    Environment(Offered(devnet, mainnet), ServerOptions(configured), isAddress)
  }

  /** The defaults' endpoints: the offered Devnet and the default build server. */
  predicate DefaultEndpoints(defaults: State, devnet: string, configured: string) {
    && HasAddress(defaults, ConnectionEndpoint)
    && HasAddress(defaults, ServerEndpoint)
    && At(defaults, ConnectionEndpoint) == Text(Chosen(devnet, PublicDevnet))
    && At(defaults, ServerEndpoint) == Text(Chosen(configured, Foundation))
  }

  lemma StoredReadsBack(options: OptionList, isAddress: string -> bool, fallback: Value, value: Value)
    ensures Resolve(options, isAddress, fallback, Store(options, value))
      == if value.Text? then ReadBack(options, isAddress, fallback, value.text) else fallback
  {
    if !value.Text? { CustomReads(options, isAddress, fallback, Store(options, value)); }
    hide Resolve, ByUrl;
  }

  lemma RereadingReadsBack(env: Environment, defaults: State, id: Setting, options: OptionList, fallback: Value,
                           value: Value)
    requires options == OptionsOf(env, id) && fallback == DefaultOf(defaults, id)
    ensures Rereading(env, defaults, id)(value)
      == if value.Text? then ReadBack(options, env.isAddress, fallback, value.text) else fallback
  {
    hide OptionsOf, DefaultOf, Resolve, Store, ReadBack;
    StoredReadsBack(options, env.isAddress, fallback, value);
  }

  lemma ConnectionRereadsOnce(devnet: string, mainnet: string, configured: string, isAddress: string -> bool,
                              defaults: State, value: Value)
    requires DefaultEndpoints(defaults, devnet, configured)
    ensures
      var f := Rereading(Provided(devnet, mainnet, configured, isAddress), defaults, ConnectionEndpoint);
      f(f(value)) == f(value)
  {
    var env, options, default := Provided(devnet, mainnet, configured, isAddress), Offered(devnet, mainnet),
        Chosen(devnet, PublicDevnet);
    OptionsAre(env);
    assert DefaultOf(defaults, ConnectionEndpoint) == Text(default) && OptionsOf(env, ConnectionEndpoint) == options;
    hide Offered, ServerOptions, Rereading, ReadBack, DefaultOf, OptionsOf, ConnectionEndpoint, Chosen,
      DefaultEndpoints, PublicDevnet;
    RereadingReadsBack(env, defaults, ConnectionEndpoint, options, Text(default), value);
    var once := Rereading(env, defaults, ConnectionEndpoint)(value);
    RereadingReadsBack(env, defaults, ConnectionEndpoint, options, Text(default), once);
    ConnectionReadsOnce(devnet, mainnet, isAddress, if value.Text? then value.text else default);
    ConnectionKeepsExactly(devnet, mainnet, isAddress, default);
  }

  lemma ServerRereadsOnce(devnet: string, mainnet: string, configured: string, isAddress: string -> bool,
                          defaults: State, value: Value)
    requires DefaultEndpoints(defaults, devnet, configured)
    ensures
      var f := Rereading(Provided(devnet, mainnet, configured, isAddress), defaults, ServerEndpoint);
      f(f(value)) == f(value)
  {
    var env, options, default := Provided(devnet, mainnet, configured, isAddress), ServerOptions(configured),
        Chosen(configured, Foundation);
    OptionsAre(env);
    assert DefaultOf(defaults, ServerEndpoint) == Text(default) && OptionsOf(env, ServerEndpoint) == options;
    assert default in {Foundation, LocalServer} || (default == configured && default != "");
    hide Offered, ServerOptions, Rereading, ReadBack, DefaultOf, OptionsOf, ServerEndpoint, Chosen, DefaultEndpoints,
      Foundation, LocalServer;
    RereadingReadsBack(env, defaults, ServerEndpoint, options, Text(default), value);
    var once := Rereading(env, defaults, ServerEndpoint)(value);
    RereadingReadsBack(env, defaults, ServerEndpoint, options, Text(default), once);
    ServerReadsOnce(configured, isAddress, if value.Text? then value.text else default);
    ServerReads(configured, isAddress, Text(default), default);
  }

  /** For any environment, settings that fit are, after one trip through storage, what every further trip returns. */
  lemma SettingsSettle(devnet: string, mainnet: string, configured: string, isAddress: string -> bool,
                       defaults: State, state: State)
    requires DefaultEndpoints(defaults, devnet, configured)
    requires Fits(Record(defaults), Record(state))
    ensures
      var env := Provided(devnet, mainnet, configured, isAddress);
      var once := Load(env, defaults, ToStored(env, state));
      Load(env, defaults, ToStored(env, once)) == once
  {
    hide Fits, Load, ToStored, MapSetting, Provided, Rereading, At, Has, ConnectionEndpoint, ServerEndpoint;
    var env := Provided(devnet, mainnet, configured, isAddress);
    var once := Reread(env, defaults, state);
    WrittenLoads(env, defaults, state);
    RereadFits(env, defaults, state);
    WrittenLoads(env, defaults, once);
    GroupsDiffer();
    var f, g := Rereading(env, defaults, ConnectionEndpoint), Rereading(env, defaults, ServerEndpoint);
    if Has(state, ConnectionEndpoint) {
      ConnectionRereadsOnce(devnet, mainnet, configured, isAddress, defaults, At(state, ConnectionEndpoint));
    }
    if Has(state, ServerEndpoint) {
      ServerRereadsOnce(devnet, mainnet, configured, isAddress, defaults, At(state, ServerEndpoint));
    }
    MapsCompose(state, ConnectionEndpoint, ServerEndpoint, f, g, f, g, f, g);
  }

  lemma RereadAt(env: Environment, defaults: State, state: State, id: Setting)
    requires IsEndpoint(id) && Has(state, id)
    ensures Has(Reread(env, defaults, state), id)
    ensures At(Reread(env, defaults, state), id) == Rereading(env, defaults, id)(At(state, id))
  {
    GroupsDiffer();
    hide Rereading;
  }

  lemma WithSame(state: State, id: Setting)
    requires Has(state, id)
    ensures With(state, id, At(state, id)) == state
  {
    assert state[id.group].fields[id.field := At(state, id)] == state[id.group].fields;
  }

  /** Settings that fit come back equal exactly when both endpoints read back as themselves. */
  lemma RoundTripExactly(env: Environment, defaults: State, state: State)
    requires Fits(Record(defaults), Record(state))
    requires HasAddress(defaults, ConnectionEndpoint) && HasAddress(defaults, ServerEndpoint)
    ensures Load(env, defaults, ToStored(env, state)) == state <==>
      forall id | IsEndpoint(id) && Has(state, id) :: Rereading(env, defaults, id)(At(state, id)) == At(state, id)
  {
    hide Fits, Load, ToStored, Rereading, At, Has, With, ConnectionEndpoint, ServerEndpoint;
    WrittenLoads(env, defaults, state);
    forall id | IsEndpoint(id) && Has(state, id)
      ensures Has(Reread(env, defaults, state), id)
      ensures At(Reread(env, defaults, state), id) == Rereading(env, defaults, id)(At(state, id))
      ensures With(state, id, At(state, id)) == state
    {
      RereadAt(env, defaults, state, id);
      WithSame(state, id);
    }
  }
}
