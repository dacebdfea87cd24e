/** An imported contract handed back to verification: the build entry that
    src/import.ts writes is read by the request builder of src/verify.ts. */
module RoundTrip {
  import opened Wrappers
  import opened Js
  import opened Api
  import opened Contract
  import opened CommitVersion
  import opened Import
  import opened Verify

  /** Re-verifying an imported contract names it by the import's key and
      the contract's name, under the import's compiler version (normalized),
      and sends the one source under the key the target names. The key
      already ends in ":<C>", so the name is "contracts/<C>.sol:<C>:<C>";
      the source unit is called "contracts/<C>.sol:<C>" on both sides, so the
      two agree. */
  lemma ImportedEntryVerifies(
    host: Host, network: string, apiKey: string, address: string, constructorData: string,
    data: ApiData, code: string)
    requires network in KnownNetworks
    ensures var r := PrepareVerification(BuildEntry(host, data, code), host, network, apiKey, address, constructorData);
      var key := ContractSource(data.contract);
      && r.Ok?
      && r.value.data.contractName == key + ":" + data.contract
      && r.value.data.compilerVersion == "v" + Normalize(data.compiler)
      && r.value.data.sourceCode.language == Str("Solidity")
      && r.value.data.sourceCode.sources == Object([
           (key, Object([("content", Str(data.source)), ("keccak256", Str(host.keccak256(data.source)))]))])
  {
    var m := ImportedMetadata(host, data);
    ImportedMetadataHeader(host, data);
    ImportedMetadataSources(host, data);
    ImportedMetadataTarget(host, data);
    PrepareImported(
      BuildEntry(host, data, code), host, network, apiKey, address, constructorData,
      m.fields, data.compiler, Lookup(m.fields, "settings").value.fields,
      ContractSource(data.contract), data.contract,
      Object([("content", Str(data.source)), ("keccak256", Str(host.keccak256(data.source)))]));
  }

  /** Re-verifying an imported contract sends the template's settings
      without the compilation target: no remappings, the optimizer as
      Etherscan reported it, literal content off, and no libraries. */
  lemma ImportedSettingsSent(
    host: Host, network: string, apiKey: string, address: string, constructorData: string,
    data: ApiData, code: string)
    requires network in KnownNetworks
    ensures var r := PrepareVerification(BuildEntry(host, data, code), host, network, apiKey, address, constructorData);
      && r.Ok?
      && !HasOwn(r.value.data.sourceCode.settings, "compilationTarget")
      && Lookup(r.value.data.sourceCode.settings, "remappings") == Some(Array([]))
      && Lookup(r.value.data.sourceCode.settings, "optimizer")
           == Some(Object([("enabled", Bool(data.optimized)), ("runs", Num(data.optimizationRuns))]))
      && Lookup(r.value.data.sourceCode.settings, "metadata") == Some(Object([("useLiteralContent", Bool(false))]))
      && Lookup(r.value.data.sourceCode.settings, "libraries") == Some(Object([]))
  {
    var m := ImportedMetadata(host, data);
    ImportedMetadataHeader(host, data);
    ImportedMetadataSources(host, data);
    ImportedMetadataTarget(host, data);
    ImportedMetadataSettings(host, data);
    var settings := Lookup(m.fields, "settings").value.fields;
    PrepareImported(
      BuildEntry(host, data, code), host, network, apiKey, address, constructorData,
      m.fields, data.compiler, settings,
      ContractSource(data.contract), data.contract,
      Object([("content", Str(data.source)), ("keccak256", Str(host.keccak256(data.source)))]));
    SettingsKeptBut(settings);
  }

  /** Dropping the compilation target keeps the other settings the template
      writes. */
  lemma SettingsKeptBut(settings: Fields)
    ensures Lookup(Without(settings, "compilationTarget"), "remappings") == Lookup(settings, "remappings")
    ensures Lookup(Without(settings, "compilationTarget"), "optimizer") == Lookup(settings, "optimizer")
    ensures Lookup(Without(settings, "compilationTarget"), "metadata") == Lookup(settings, "metadata")
    ensures Lookup(Without(settings, "compilationTarget"), "libraries") == Lookup(settings, "libraries")
  {
    assert |"remappings"| != |"compilationTarget"| && |"optimizer"| != |"compilationTarget"|;
    assert |"metadata"| != |"compilationTarget"| && |"libraries"| != |"compilationTarget"|;
  }

  /** What the request builder makes of any metadata with the template's
      shape: one source, one target, a compiler version. */
  lemma PrepareImported(
    contractJson: ContractJson, host: Host, network: string,
    apiKey: string, address: string, constructorData: string,
    metadata: Fields, version: string, settings: Fields, key: string, name: string, source: Value)
    requires GetMetadata(contractJson, host) == Ok(Object(metadata))
    requires Lookup(metadata, "language") == Some(Str("Solidity"))
    requires Lookup(metadata, "compiler") == Some(Object([("version", Str(version))]))
    requires Lookup(metadata, "sources") == Some(Object([(key, source)]))
    requires Lookup(metadata, "settings") == Some(Object(settings))
    requires Lookup(settings, "compilationTarget") == Some(Object([(key, Str(name))]))
    requires network in KnownNetworks
    ensures PrepareVerification(contractJson, host, network, apiKey, address, constructorData)
      == Ok(Prepared(
           "https://" + ApiHosts[network] + "/api",
           VerifyData(
             apiKey, "contract", "verifysourcecode", CodeFormat, address,
             SourceBlob(Str("Solidity"), Without(settings, "compilationTarget"), Object([(key, source)])),
             key + ":" + name, "v" + Normalize(version), constructorData, NoLicense)))
  {
    ImportedFields(metadata, version, key, source);
    ImportedTarget(settings, key, name, host.numberText);
    PrepareWellFormed(
      contractJson, host, network, apiKey, address, constructorData,
      metadata, Object([("version", Str(version))]), version, settings, key, Str(name), []);
  }

  lemma ImportedFields(metadata: Fields, version: string, key: string, source: Value)
    requires Lookup(metadata, "language") == Some(Str("Solidity"))
    requires Lookup(metadata, "sources") == Some(Object([(key, source)]))
    ensures Prop(Object(metadata), "language") == Some(Str("Solidity"))
    ensures Prop(Object(metadata), "sources") == Some(Object([(key, source)]))
    ensures Prop(Object([("version", Str(version))]), "version") == Some(Str(version))
  {
  }

  lemma ImportedTarget(settings: Fields, key: string, name: string, numberText: JsNumber -> string)
    requires Lookup(settings, "compilationTarget") == Some(Object([(key, Str(name))]))
    ensures SplitSettings(Object(settings)) == Ok((Object([(key, Str(name))]), Without(settings, "compilationTarget")))
    ensures TargetName(Object([(key, Str(name))]), numberText) == Ok(key + ":" + name)
    ensures [(key, Str(name))] + [] == [(key, Str(name))]
    ensures ElementText(Str(name), numberText) == name
  {
    assert [(key, Str(name))] + [] == [(key, Str(name))];
    TargetOfSettings(settings, key, Str(name), [], numberText);
    assert ElementText(Str(name), numberText) == name;
  }
}
