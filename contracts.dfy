/** The second copy of metadata extraction (src/contracts.ts), declared over
    a narrower `Metadata` interface. Since that interface is an unchecked
    cast as well, its behaviour is the same as `Contract.GetMetadata`. */
module Contracts {
  import opened Wrappers
  import opened Js
  import opened Errors
  import Contract

  datatype ContractJson = ContractJson(props: Fields)

  function GetMetadata(contractJson: ContractJson, host: Host): (r: Result<Value, Error>)
    ensures !HasOwn(contractJson.props, "metadata") ==> r.Err? && r.error.MissingMetadata?
    ensures HasOwn(contractJson.props, "metadata") && TypeOf(Lookup(contractJson.props, "metadata").value) == "object" ==>
      r == Ok(Lookup(contractJson.props, "metadata").value)
  {
    if !HasOwn(contractJson.props, "metadata") then
      Err(MissingMetadata(Keys(contractJson.props)))
    else
      var metadata := Lookup(contractJson.props, "metadata").value;
      if TypeOf(metadata) == "string" then
        match host.parseJson(metadata.s)
        case Ok(parsed) => Ok(parsed)
        case Err(thrown) => Err(JsonParseError(thrown))
      else if TypeOf(metadata) == "object" then
        Ok(metadata)
      else
        Err(InvalidMetadata(metadata))
  }

  /** Both copies give the same result, error or value, on every record. */
  lemma SameAsContract(props: Fields, host: Host)
    ensures GetMetadata(ContractJson(props), host) == Contract.GetMetadata(Contract.ContractJson(props), host)
  {
  }
}
