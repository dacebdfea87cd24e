/** The failures the source throws, as one tagged union. */
module Errors {
  import opened Js

  datatype Error =
    /** The contract JSON has no `metadata` property; carries its keys. */
    | MissingMetadata(keys: seq<string>)
    /** `JSON.parse` threw; carries the exception, re-thrown unchanged. */
    | JsonParseError(thrown: string)
    /** `metadata` is neither a string nor of type "object". */
    | InvalidMetadata(metadata: Value)
    /** A JavaScript TypeError: a property read, call or destructuring on
        a value that does not support it. */
    | TypeError
    /** "Unknown etherscan API host for network ...". */
    | UnknownApiHost(network: string)
    /** "Unknown etherscan host for network ...". */
    | UnknownHost(network: string)
    /** A refused verify submission: "Etherscan Error: message: result". */
    | SubmitError(message: string, result: string)
    /** A status check whose result starts with "Fail". */
    | VerificationFailed(message: string, result: string)
    /** A status check whose status is not 1. */
    | StatusError(message: string, result: string)
    /** The HTTP request produced no reply. */
    | TransportError
    /** The "get source code" reply has a status other than '1'. */
    | EtherscanApiError(message: string, result: string)
    /** The "get source code" reply says the source is not verified. */
    | SourceNotVerified
    /** The contract page holds no verified bytecode block. */
    | BytecodeNotFound
    /** The verified bytecode does not end with the constructor arguments. */
    | BytecodeMismatch(bytecode: string, constructorArgs: string)
}
