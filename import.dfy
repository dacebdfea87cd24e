/** Reconstruction of a build file from contracts verified on Etherscan
    (src/import.ts). For each address the "get source code" reply and the
    bytecode scraped from the contract's page are inputs: `fetch` gives
    them for an address. */
module Import {
  import opened Wrappers
  import opened Js
  import opened Text
  import opened Errors
  import opened Api
  import opened Contract

  /** The `ABI` Etherscan returns for a contract whose source it does not
      have. */
  const NotVerifiedText: string := "Contract source code not verified"

  /** One element of the "get source code" result (the fields the import
      reads). */
  datatype EtherscanSource = EtherscanSource(
    sourceCode: string,
    abi: string,
    contractName: string,
    compilerVersion: string,
    optimizationUsed: string,
    runs: string,
    constructorArguments: string)

  /** A "get source code" reply. `resultText` is how its `result` field
      reads when put into a template string, as the error message does. */
  datatype SourceCodeReply = SourceCodeReply(status: string, message: string, result: seq<EtherscanSource>, resultText: string)

  /** What `getEtherscanApiData` returns. */
  datatype ApiData = ApiData(
    source: string,
    abi: Value,
    contract: string,
    compiler: string,
    optimized: bool,
    optimizationRuns: JsNumber,
    constructorArgs: string)

  /** The answers for one address: the source-code reply, and the hex digits
      of the verified-bytecode block of its page, if the page has one. */
  datatype Fetched = Fetched(reply: SourceCodeReply, page: Option<string>)

  /** The `address` argument: one address or a list of them. */
  datatype AddressInput = One(address: string) | Many(addresses: seq<string>)

  /** "WARN: Contracts differ in compiler version ...". */
  datatype VersionWarning = VersionWarning(previous: string, current: string)

  datatype ImportRun = ImportRun(build: BuildFile, warnings: seq<VersionWarning>)

  /** `getEtherscanApiData`, given the reply to its request. */
  function GetEtherscanApiData(host: Host, network: string, reply: SourceCodeReply): (r: Result<ApiData, Error>)
    ensures r.Ok? <==>
      && network in KnownNetworks && reply.status == "1" && |reply.result| > 0
      && reply.result[0].abi != NotVerifiedText && host.parseJson(reply.result[0].abi).Ok?
    ensures network !in KnownNetworks ==> r == Err(UnknownApiHost(network))
    ensures network in KnownNetworks && reply.status != "1" ==> r == Err(EtherscanApiError(reply.message, reply.resultText))
    ensures network in KnownNetworks && reply.status == "1" && reply.result == [] ==> r == Err(TypeError)
    ensures network in KnownNetworks && reply.status == "1" && |reply.result| > 0 && reply.result[0].abi == NotVerifiedText ==>
      r == Err(SourceNotVerified)
    ensures
      && network in KnownNetworks && reply.status == "1" && |reply.result| > 0 && reply.result[0].abi != NotVerifiedText
      && host.parseJson(reply.result[0].abi).Err?
      ==> r == Err(JsonParseError(host.parseJson(reply.result[0].abi).error))
    ensures r.Ok? ==>
      var s := reply.result[0];
      && r.value.abi == host.parseJson(s.abi).value
      && r.value.source == s.sourceCode && r.value.contract == s.contractName
      && r.value.compiler == s.compilerVersion && r.value.constructorArgs == s.constructorArguments
      && r.value.optimizationRuns == host.toNumber(s.runs)
  {
    var _ :- EtherscanApiUrl(network);
    if reply.status != "1" then Err(EtherscanApiError(reply.message, reply.resultText))
    else if reply.result == [] then Err(TypeError)
    else
      var s := reply.result[0];
      if s.abi == NotVerifiedText then Err(SourceNotVerified)
      else
        match host.parseJson(s.abi)
        case Err(thrown) => Err(JsonParseError(thrown))
        case Ok(abi) =>
          Ok(ApiData(s.sourceCode, abi, s.contractName, s.compilerVersion,
                     s.optimizationUsed != "0", host.toNumber(s.runs), s.constructorArguments))
  }

  /** The optimizer is on unless Etherscan says "0": any other text, even
      an empty one, turns it on. */
  lemma OptimizedUnlessZero(host: Host, network: string, reply: SourceCodeReply)
    requires GetEtherscanApiData(host, network, reply).Ok?
    ensures GetEtherscanApiData(host, network, reply).value.optimized <==> reply.result[0].optimizationUsed != "0"
  {
  }

  /** `getContractCreationCode`, given the scraped bytecode: the constructor
      arguments must end the bytecode (letters in either case), and are cut
      off it. */
  function ContractCreationCode(network: string, constructorArgs: string, page: Option<string>): (r: Result<string, Error>)
    ensures r.Ok? <==>
      network in KnownNetworks && page.Some? && EndsWith(Lower(page.value), Lower(constructorArgs))
    ensures network !in KnownNetworks ==> r == Err(UnknownHost(network))
    ensures network in KnownNetworks && page.None? ==> r == Err(BytecodeNotFound)
    ensures r.Err? && network in KnownNetworks && page.Some? ==> r == Err(BytecodeMismatch(page.value, constructorArgs))
    ensures r.Ok? ==>
      && r.value <= page.value
      && |r.value| + |constructorArgs| == |page.value|
      && Lower(page.value[|r.value|..]) == Lower(constructorArgs)
  {
    var _ :- EtherscanUrl(network);
    match page
    case None => Err(BytecodeNotFound)
    case Some(bytecode) =>
      if !EndsWith(Lower(bytecode), Lower(constructorArgs)) then Err(BytecodeMismatch(bytecode, constructorArgs))
      else
        var code := bytecode[..|bytecode| - |constructorArgs|];
        assert Lower(bytecode[|code|..]) == Lower(bytecode)[|code|..];
        Ok(code)
  }

  /** Cutting the arguments off a bytecode they were appended to gives the
      code back, whatever the case of their letters on either side. */
  lemma {:induction false} CreationCodeRoundTrip(network: string, code: string, args: string, shown: string)
    requires network in KnownNetworks
    requires |shown| == |args| && Lower(shown) == Lower(args)
    ensures ContractCreationCode(network, args, Some(code + shown)) == Ok(code)
  {
    LowerAppend(code, shown);
    assert Lower(code + shown)[|code|..] == Lower(shown);
    assert (code + shown)[..|code + shown| - |args|] == code;
  }

  /** Without constructor arguments the whole bytecode is the creation
      code. */
  lemma CreationCodeNoArgs(network: string, bytecode: string)
    requires network in KnownNetworks
    ensures ContractCreationCode(network, "", Some(bytecode)) == Ok(bytecode)
  {
    assert bytecode + "" == bytecode;
    CreationCodeRoundTrip(network, bytecode, "", "");
  }

  /** The key of a contract in the build: "contracts/<C>.sol:<C>". */
  function ContractSource(contract: string): (key: string)
    ensures StartsWith(key, "contracts/") && EndsWith(key, ".sol:" + contract)
  {
    var key := "contracts/" + contract + ".sol:" + contract;
    assert key[..10] == "contracts/";
    assert key[|key| - |".sol:" + contract|..] == ".sol:" + contract;
    key
  }

  /** Different contract names give different keys. */
  lemma {:induction false} ContractSourceInjective(a: string, b: string)
    requires ContractSource(a) == ContractSource(b)
    ensures a == b
  {
    var ka, kb := ContractSource(a), ContractSource(b);
    // Both keys are "contracts/" + c + ".sol:" + c, whose length is 15 + 2|c|.
    assert |a| == |b|;
    assert a == ka[10..10 + |a|] && b == kb[10..10 + |b|];
  }

  /** The metadata written for an imported contract, in the order of the
      object literal: an object with exactly the keys of the `Metadata`
      interface, each once. What it holds under them is stated by the
      lemmas below. */
  function ImportedMetadata(host: Host, data: ApiData): (r: Value)
    ensures r.Object?
    ensures Keys(r.fields) == ["version", "language", "compiler", "sources", "settings", "output"]
  {
    var key := ContractSource(data.contract);
    Object([
      ("version", Str("1")),
      ("language", Str("Solidity")),
      ("compiler", Object([("version", Str(data.compiler))])),
      ("sources", Object([
        (key, Object([("content", Str(data.source)), ("keccak256", Str(host.keccak256(data.source)))]))])),
      ("settings", Object([
        ("remappings", Array([])),
        ("optimizer", Object([("enabled", Bool(data.optimized)), ("runs", Num(data.optimizationRuns))])),
        ("metadata", Object([("useLiteralContent", Bool(false))])),
        ("compilationTarget", Object([(key, Str(data.contract))])),
        ("libraries", Object([]))])),
      ("output", Object([("abi", data.abi), ("userdoc", Array([])), ("devdoc", Array([]))]))
    ])
  }

  /** The fixed fields of the template. */
  lemma ImportedMetadataHeader(host: Host, data: ApiData)
    ensures var m := ImportedMetadata(host, data);
      && m.Object?
      && Lookup(m.fields, "version") == Some(Str("1"))
      && Lookup(m.fields, "language") == Some(Str("Solidity"))
      && Lookup(m.fields, "compiler") == Some(Object([("version", Str(data.compiler))]))
  {
    var f := ImportedMetadata(host, data).fields;
    LookupAt(f, 0, "version");
    assert f[0].0[0] != "language"[0];
    LookupAt(f, 1, "language");
    assert f[0].0[0] != "compiler"[0] && f[1].0[0] != "compiler"[0];
    LookupAt(f, 2, "compiler");
  }

  /** The template holds one source, under the contract's key. */
  lemma ImportedMetadataSources(host: Host, data: ApiData)
    ensures var m := ImportedMetadata(host, data);
      && m.Object?
      && Lookup(m.fields, "sources") == Some(Object([
           (ContractSource(data.contract),
            Object([("content", Str(data.source)), ("keccak256", Str(host.keccak256(data.source)))]))]))
  {
    var f := ImportedMetadata(host, data).fields;
    assert forall j :: 0 <= j < 3 ==> f[j].0[0] != "sources"[0];
    LookupAt(f, 3, "sources");
  }

  /** The template's one compilation target is the contract, under its
      key. */
  lemma ImportedMetadataTarget(host: Host, data: ApiData)
    ensures var m := ImportedMetadata(host, data);
      && m.Object?
      && Lookup(m.fields, "settings").Some? && Lookup(m.fields, "settings").value.Object?
      && Lookup(Lookup(m.fields, "settings").value.fields, "compilationTarget")
           == Some(Object([(ContractSource(data.contract), Str(data.contract))]))
  {
    var f := ImportedMetadata(host, data).fields;
    assert forall j :: 0 <= j < 3 ==> f[j].0[0] != "settings"[0];
    assert f[3].0[1] != "settings"[1];
    LookupAt(f, 4, "settings");
    var settings := f[4].1.fields;
    assert forall j :: 0 <= j < 3 ==> |settings[j].0| != |"compilationTarget"|;
    LookupAt(settings, 3, "compilationTarget");
  }

  /** The template's other settings: no remappings, the optimizer as
      Etherscan reports it, literal content off, and no libraries. */
  lemma ImportedMetadataSettings(host: Host, data: ApiData)
    ensures var m := ImportedMetadata(host, data);
      && m.Object?
      && Lookup(m.fields, "settings").Some? && Lookup(m.fields, "settings").value.Object?
      && var settings := Lookup(m.fields, "settings").value.fields;
      && Keys(settings) == ["remappings", "optimizer", "metadata", "compilationTarget", "libraries"]
      && Lookup(settings, "remappings") == Some(Array([]))
      && Lookup(settings, "optimizer") == Some(Object([("enabled", Bool(data.optimized)), ("runs", Num(data.optimizationRuns))]))
      && Lookup(settings, "metadata") == Some(Object([("useLiteralContent", Bool(false))]))
      && Lookup(settings, "libraries") == Some(Object([]))
  {
    var f := ImportedMetadata(host, data).fields;
    assert forall j :: 0 <= j < 3 ==> f[j].0[0] != "settings"[0];
    assert f[3].0[1] != "settings"[1];
    LookupAt(f, 4, "settings");
    var settings := f[4].1.fields;
    SettingsLookups(settings, Object([("enabled", Bool(data.optimized)), ("runs", Num(data.optimizationRuns))]), settings[3].1);
    SettingsLibraries(settings, Object([("enabled", Bool(data.optimized)), ("runs", Num(data.optimizationRuns))]), settings[3].1);
    SettingsKeys(settings, Object([("enabled", Bool(data.optimized)), ("runs", Num(data.optimizationRuns))]), settings[3].1);
  }

  /** The keys of a settings object laid out as the template's. */
  lemma SettingsKeys(settings: Fields, optimizer: Value, target: Value)
    requires settings == [
      ("remappings", Array([])), ("optimizer", optimizer),
      ("metadata", Object([("useLiteralContent", Bool(false))])),
      ("compilationTarget", target), ("libraries", Object([]))]
    ensures Keys(settings) == ["remappings", "optimizer", "metadata", "compilationTarget", "libraries"]
  {
    var keys := Keys(settings);
    assert |keys| == 5 && keys[0] == "remappings" && keys[1] == "optimizer" && keys[2] == "metadata";
    assert keys[3] == "compilationTarget" && keys[4] == "libraries";
  }

  /** Lookups in a settings object laid out as the template's. */
  lemma SettingsLookups(settings: Fields, optimizer: Value, target: Value)
    requires settings == [
      ("remappings", Array([])), ("optimizer", optimizer),
      ("metadata", Object([("useLiteralContent", Bool(false))])),
      ("compilationTarget", target), ("libraries", Object([]))]
    ensures Lookup(settings, "remappings") == Some(Array([]))
    ensures Lookup(settings, "optimizer") == Some(optimizer)
    ensures Lookup(settings, "metadata") == Some(Object([("useLiteralContent", Bool(false))]))
  {
    LookupAt(settings, 0, "remappings");
    assert |settings[0].0| != |"optimizer"|;
    LookupAt(settings, 1, "optimizer");
    assert forall j :: 0 <= j < 2 ==> |settings[j].0| != |"metadata"|;
    LookupAt(settings, 2, "metadata");
  }

  /** The libraries of a settings object laid out as the template's. */
  lemma SettingsLibraries(settings: Fields, optimizer: Value, target: Value)
    requires settings == [
      ("remappings", Array([])), ("optimizer", optimizer),
      ("metadata", Object([("useLiteralContent", Bool(false))])),
      ("compilationTarget", target), ("libraries", Object([]))]
    ensures Lookup(settings, "libraries") == Some(Object([]))
  {
    assert forall j :: 0 <= j < 4 ==> settings[j].0[0] != "libraries"[0];
    LookupAt(settings, 4, "libraries");
  }

  /** The template's output: the parsed ABI, and empty user and developer
      documentation. */
  lemma ImportedMetadataOutput(host: Host, data: ApiData)
    ensures var m := ImportedMetadata(host, data);
      && m.Object?
      && Lookup(m.fields, "output") == Some(Object([("abi", data.abi), ("userdoc", Array([])), ("devdoc", Array([]))]))
      && Lookup(Lookup(m.fields, "output").value.fields, "abi") == Some(data.abi)
  {
    var f := ImportedMetadata(host, data).fields;
    assert forall j :: 0 <= j < 5 ==> f[j].0[0] != "output"[0];
    LookupAt(f, 5, "output");
    LookupAt(f[5].1.fields, 0, "abi");
  }

  /** The entry of the build file for one contract: the parsed ABI, the
      creation code, and metadata that `getMetadata` reads back as it was
      written. */
  function BuildEntry(host: Host, data: ApiData, code: string): (r: ContractJson)
    ensures Lookup(r.props, "abi") == Some(data.abi)
    ensures Lookup(r.props, "bin") == Some(Str(code))
    ensures GetMetadata(r, host) == Ok(ImportedMetadata(host, data))
  {
    var props := [("abi", data.abi), ("bin", Str(code)), ("metadata", ImportedMetadata(host, data))];
    LookupAt(props, 1, "bin");
    LookupAt(props, 2, "metadata");
    ContractJson(props)
  }

  /** What one address adds to the build: its key, its entry and its
      compiler version. */
  datatype Contribution = Contribution(key: string, entry: ContractJson, compiler: string)

  /** The body of the `reduce` up to the metadata literal: the data and
      the creation code are fetched, in this order, and the entry built. */
  function Contribute(host: Host, network: string, fetched: Fetched): (r: Result<Contribution, Error>)
    ensures r.Ok? <==>
      GetEtherscanApiData(host, network, fetched.reply).Ok?
      && ContractCreationCode(network, GetEtherscanApiData(host, network, fetched.reply).value.constructorArgs, fetched.page).Ok?
    ensures r.Ok? ==>
      var data := GetEtherscanApiData(host, network, fetched.reply).value;
      var code := ContractCreationCode(network, data.constructorArgs, fetched.page).value;
      r.value == Contribution(ContractSource(data.contract), BuildEntry(host, data, code), data.compiler)
    ensures GetEtherscanApiData(host, network, fetched.reply).Err? ==>
      r == Err(GetEtherscanApiData(host, network, fetched.reply).error)
    ensures
      && GetEtherscanApiData(host, network, fetched.reply).Ok?
      && ContractCreationCode(network, GetEtherscanApiData(host, network, fetched.reply).value.constructorArgs, fetched.page).Err? ==>
      r == Err(ContractCreationCode(network, GetEtherscanApiData(host, network, fetched.reply).value.constructorArgs, fetched.page).error)
  {
    var data :- GetEtherscanApiData(host, network, fetched.reply);
    var code :- ContractCreationCode(network, data.constructorArgs, fetched.page);
    Ok(Contribution(ContractSource(data.contract), BuildEntry(host, data, code), data.compiler))
  }

  /** `acc.version` as a condition: set and not empty. */
  predicate Truthy(version: Option<string>) {
    version.Some? && version.value != ""
  }

  /** The rest of the `reduce` body: the entry under its key is added or
      replaced and every other entry kept, the version becomes the
      contract's compiler, and a differing earlier version is warned
      about. */
  function ImportStep(acc: BuildFile, c: Contribution): (r: (BuildFile, Option<VersionWarning>))
    ensures r.0.contracts.Keys == acc.contracts.Keys + {c.key}
    ensures r.0.contracts[c.key] == c.entry
    ensures forall k :: k in acc.contracts && k != c.key ==> r.0.contracts[k] == acc.contracts[k]
    ensures r.0.version == Some(c.compiler)
    ensures r.1.Some? <==> Truthy(acc.version) && c.compiler != acc.version.value
    ensures r.1.Some? ==> r.1.value == VersionWarning(acc.version.value, c.compiler)
  {
    var warning := if Truthy(acc.version) && c.compiler != acc.version.value
      then Some(VersionWarning(acc.version.value, c.compiler)) else None;
    (BuildFile(acc.contracts[c.key := c.entry], Some(c.compiler)), warning)
  }

  /** `Array.isArray(address) ? address : [address]`. */
  function AddressList(input: AddressInput): seq<string> {
    match input
    case One(a) => [a]
    case Many(list) => list
  }

  /** The `reduce` over the addresses, from the empty build file, given
      what each address contributes: the steps run one after the other, and
      the first failure ends the import. */
  function Reduce(contribute: string -> Result<Contribution, Error>, addresses: seq<string>): (r: Result<ImportRun, Error>)
    ensures r.Ok? ==> (r.value.build.version.None? <==> addresses == [])
    decreases |addresses|
  {
    if addresses == [] then Ok(ImportRun(BuildFile(map[], None), []))
    else
      var prev :- Reduce(contribute, addresses[..|addresses| - 1]);
      var c :- contribute(addresses[|addresses| - 1]);
      var step := ImportStep(prev.build, c);
      Ok(ImportRun(step.0, prev.warnings + (if step.1.Some? then [step.1.value] else [])))
  }

  /** `importContract`, without the file it writes: it succeeds exactly
      when every address given contributes. */
  function ImportContract(host: Host, network: string, input: AddressInput, fetch: string -> Fetched): (r: Result<ImportRun, Error>)
    ensures r.Ok? <==> forall a :: a in AddressList(input) ==> Contribute(host, network, fetch(a)).Ok?
  {
    ReduceOkIff(a => Contribute(host, network, fetch(a)), AddressList(input));
    Reduce(a => Contribute(host, network, fetch(a)), AddressList(input))
  }

  /** No address, no request: the build is empty whatever the network. */
  lemma ImportNothing(host: Host, network: string, fetch: string -> Fetched)
    ensures ImportContract(host, network, Many([]), fetch) == Ok(ImportRun(BuildFile(map[], None), []))
  {
  }

  /** A single address is imported like a list of one. */
  lemma ImportOne(host: Host, network: string, fetch: string -> Fetched, address: string)
    ensures ImportContract(host, network, One(address), fetch) == ImportContract(host, network, Many([address]), fetch)
  {
  }

  /** The build's version is the compiler of the last address imported. */
  lemma ReduceVersionIsLast(contribute: string -> Result<Contribution, Error>, addresses: seq<string>)
    requires addresses != [] && Reduce(contribute, addresses).Ok?
    ensures contribute(addresses[|addresses| - 1]).Ok?
    ensures Reduce(contribute, addresses).value.build.version
      == Some(contribute(addresses[|addresses| - 1]).value.compiler)
  {
  }

  /** The entry of the last address's contract is the one it built. */
  lemma ReduceLastEntry(contribute: string -> Result<Contribution, Error>, addresses: seq<string>)
    requires addresses != [] && Reduce(contribute, addresses).Ok?
    ensures contribute(addresses[|addresses| - 1]).Ok?
    ensures var c := contribute(addresses[|addresses| - 1]).value;
      Reduce(contribute, addresses).value.build.contracts[c.key] == c.entry
  {
  }

  /** The keys of the contracts the addresses name. */
  function KeysOf(contribute: string -> Result<Contribution, Error>, addresses: seq<string>): set<string>
    requires forall a :: a in addresses ==> contribute(a).Ok?
  {
    set a | a in addresses :: contribute(a).value.key
  }

  /** The import succeeds exactly when every address contributes. */
  lemma {:induction false} ReduceOkIff(contribute: string -> Result<Contribution, Error>, addresses: seq<string>)
    ensures Reduce(contribute, addresses).Ok? <==> forall a :: a in addresses ==> contribute(a).Ok?
    decreases |addresses|
  {
    if addresses != [] {
      var init := addresses[..|addresses| - 1];
      var last := addresses[|addresses| - 1];
      ReduceOkIff(contribute, init);
      assert addresses == init + [last];
      assert forall a :: a in addresses <==> a in init || a == last;
    }
  }

  /** A successful import holds one entry per contract named by the
      addresses, and no other. */
  lemma {:induction false} ReduceKeys(contribute: string -> Result<Contribution, Error>, addresses: seq<string>)
    requires Reduce(contribute, addresses).Ok?
    ensures forall a :: a in addresses ==> contribute(a).Ok?
    ensures Reduce(contribute, addresses).value.build.contracts.Keys == KeysOf(contribute, addresses)
    decreases |addresses|
  {
    ReduceOkIff(contribute, addresses);
    if addresses != [] {
      ReduceKeys(contribute, addresses[..|addresses| - 1]);
      ReduceKeysStep(contribute, addresses);
    } else {
      assert KeysOf(contribute, addresses) == {};
    }
  }

  /** The last address adds its contract's key to those before it. */
  lemma ReduceKeysStep(contribute: string -> Result<Contribution, Error>, addresses: seq<string>)
    requires addresses != [] && Reduce(contribute, addresses).Ok?
    requires forall a :: a in addresses ==> contribute(a).Ok?
    requires Reduce(contribute, addresses[..|addresses| - 1]).value.build.contracts.Keys
      == KeysOf(contribute, addresses[..|addresses| - 1])
    ensures Reduce(contribute, addresses).value.build.contracts.Keys == KeysOf(contribute, addresses)
  {
    var init, last := addresses[..|addresses| - 1], addresses[|addresses| - 1];
    assert forall a :: a in init ==> a in addresses;
    var c := contribute(last).value;
    assert Reduce(contribute, addresses).value.build == ImportStep(Reduce(contribute, init).value.build, c).0;
    forall a | a in addresses
      ensures a in init || a == last
    {
      var j :| 0 <= j < |addresses| && addresses[j] == a;
      if j < |init| {
        assert init[j] == a;
      }
    }
    assert KeysOf(contribute, addresses) == KeysOf(contribute, init) + {c.key};
  }

  /** A failing address fails the whole import with its own error when all
      before it succeed. */
  lemma {:induction false} ReduceFirstError(contribute: string -> Result<Contribution, Error>, addresses: seq<string>, i: nat)
    requires i < |addresses|
    requires forall j :: 0 <= j < i ==> contribute(addresses[j]).Ok?
    requires contribute(addresses[i]).Err?
    ensures Reduce(contribute, addresses) == Err(contribute(addresses[i]).error)
    decreases |addresses|
  {
    var init := addresses[..|addresses| - 1];
    if i < |init| {
      assert forall j :: 0 <= j < i ==> init[j] == addresses[j];
      ReduceFirstError(contribute, init, i);
    } else {
      assert forall a :: a in init ==> contribute(a).Ok? by {
        forall a | a in init
          ensures contribute(a).Ok?
        {
          var j :| 0 <= j < |init| && init[j] == a;
          assert addresses[j] == a;
        }
      }
      ReduceOkIff(contribute, init);
    }
  }

  /** Warnings only come after the first address, so there are fewer of
      them than addresses. */
  lemma {:induction false} ReduceWarningCount(contribute: string -> Result<Contribution, Error>, addresses: seq<string>)
    requires addresses != [] && Reduce(contribute, addresses).Ok?
    ensures |Reduce(contribute, addresses).value.warnings| < |addresses|
    decreases |addresses|
  {
    var init := addresses[..|addresses| - 1];
    if init != [] {
      ReduceWarningCount(contribute, init);
    }
  }

  /** The compilers the addresses report, in order. */
  function Compilers(contribute: string -> Result<Contribution, Error>, addresses: seq<string>): (cs: seq<string>)
    requires forall a :: a in addresses ==> contribute(a).Ok?
    ensures |cs| == |addresses|
    ensures forall i :: 0 <= i < |addresses| ==> cs[i] == contribute(addresses[i]).value.compiler
    decreases |addresses|
  {
    if addresses == [] then []
    else
      var init := addresses[..|addresses| - 1];
      assert forall a :: a in init ==> a in addresses;
      Compilers(contribute, init) + [contribute(addresses[|addresses| - 1]).value.compiler]
  }

  /** The warnings a list of compilers calls for: one for each compiler
      that differs from a non-empty compiler just before it. */
  function VersionWarnings(compilers: seq<string>): seq<VersionWarning>
    decreases |compilers|
  {
    if |compilers| < 2 then []
    else
      var n := |compilers|;
      VersionWarnings(compilers[..n - 1])
        + if compilers[n - 2] != "" && compilers[n - 1] != compilers[n - 2]
          then [VersionWarning(compilers[n - 2], compilers[n - 1])] else []
  }

  /** A successful import warns exactly as its compilers call for. */
  lemma {:induction false} ReduceWarnings(contribute: string -> Result<Contribution, Error>, addresses: seq<string>)
    requires Reduce(contribute, addresses).Ok?
    ensures forall a :: a in addresses ==> contribute(a).Ok?
    ensures Reduce(contribute, addresses).value.warnings == VersionWarnings(Compilers(contribute, addresses))
    decreases |addresses|
  {
    ReduceOkIff(contribute, addresses);
    if addresses != [] {
      var n := |addresses|;
      var init := addresses[..n - 1];
      ReduceWarnings(contribute, init);
      var cs := Compilers(contribute, addresses);
      assert cs[..n - 1] == Compilers(contribute, init);
      if n >= 2 {
        ReduceVersionIsLast(contribute, init);
        assert init[n - 2] == addresses[n - 2];
      }
    }
  }

  /** Two addresses with different compilers, the first one set, give one
      warning: the first compiler, then the second. */
  lemma ReduceTwoCompilers(contribute: string -> Result<Contribution, Error>, a1: string, a2: string)
    requires contribute(a1).Ok? && contribute(a2).Ok?
    requires contribute(a1).value.compiler != "" && contribute(a2).value.compiler != contribute(a1).value.compiler
    ensures Reduce(contribute, [a1, a2]).Ok?
    ensures Reduce(contribute, [a1, a2]).value.warnings
      == [VersionWarning(contribute(a1).value.compiler, contribute(a2).value.compiler)]
  {
    ReduceOkIff(contribute, [a1, a2]);
    ReduceWarnings(contribute, [a1, a2]);
    var cs := Compilers(contribute, [a1, a2]);
    assert cs[..1] == [cs[0]];
  }

  /** When every address reports the same compiler, nothing is warned. */
  lemma {:induction false} ReduceSameCompiler(contribute: string -> Result<Contribution, Error>, addresses: seq<string>, compiler: string)
    requires Reduce(contribute, addresses).Ok?
    requires forall a :: a in addresses ==> contribute(a).Ok? && contribute(a).value.compiler == compiler
    ensures Reduce(contribute, addresses).value.warnings == []
    ensures addresses != [] ==> Reduce(contribute, addresses).value.build.version == Some(compiler)
    decreases |addresses|
  {
    if addresses != [] {
      var init := addresses[..|addresses| - 1];
      assert forall a :: a in init ==> a in addresses;
      ReduceSameCompiler(contribute, init, compiler);
    }
  }
}
