/** Build files and the extraction of compiler metadata from a contract's
    build record (src/contract.ts). The `Metadata` and `Settings` interfaces
    of the source are unchecked casts over parsed JSON, so the metadata is a
    JavaScript `Value` here and its fields are read with `Js.Prop`. */
module Contract {
  import opened Wrappers
  import opened Js
  import opened Errors

  /** A build record: its own properties, among them `metadata`, which holds
      either a JSON string or an already parsed object. */
  datatype ContractJson = ContractJson(props: Fields)

  /** A build file: records keyed by "<path>:<ContractName>", plus the
      compiler version of the build when one is known. */
  datatype BuildFile = BuildFile(contracts: map<string, ContractJson>, version: Option<string>)

  /** `getMetadata`: a missing property is an error; a string is parsed and
      a parse failure re-thrown unchanged; anything `typeof` calls "object"
      (which includes null and arrays) is returned as it is; every other
      value is rejected. */
  function GetMetadata(contractJson: ContractJson, host: Host): (r: Result<Value, Error>)
    ensures !HasOwn(contractJson.props, "metadata") ==> r == Err(MissingMetadata(Keys(contractJson.props)))
    ensures HasOwn(contractJson.props, "metadata") ==>
      var m := Lookup(contractJson.props, "metadata").value;
      match m
      case Str(text) =>
        (host.parseJson(text).Ok? ==> r == Ok(host.parseJson(text).value))
        && (host.parseJson(text).Err? ==> r == Err(JsonParseError(host.parseJson(text).error)))
      case Object(_) => r == Ok(m)
      case Array(_) => r == Ok(m)
      case Null => r == Ok(m)
      case _ => r == Err(InvalidMetadata(m))
  {
    if !HasOwn(contractJson.props, "metadata") then
      Err(MissingMetadata(Keys(contractJson.props)))
    else
      var metadata := Lookup(contractJson.props, "metadata").value;
      if TypeOf(metadata) == "string" then
        match host.parseJson(metadata.s)
        case Ok(parsed) => Ok(parsed)
        case Err(thrown) => Err(JsonParseError(thrown))
      else if TypeOf(metadata) == "object" then
        Ok(metadata)
      else
        Err(InvalidMetadata(metadata))
  }

  /** The extraction succeeds exactly when the record has a metadata value
      that is of type "object", or a string the parser accepts. */
  lemma GetMetadataOkIff(contractJson: ContractJson, host: Host)
    ensures GetMetadata(contractJson, host).Ok? <==>
      HasOwn(contractJson.props, "metadata") &&
      var m := Lookup(contractJson.props, "metadata").value;
      m.Object? || m.Array? || m.Null? || (m.Str? && host.parseJson(m.s).Ok?)
  {
  }
}
