# Etherscan verify and import, modelled in Dafny

This project models the core of a small tool that talks to Etherscan. The
tool does two things:

- **Verify** (`src/verify.ts`). It reads a contract's build record and
  takes the compiler metadata out of it (`src/contract.ts`, duplicated in
  `src/contracts.ts`). From that it builds a "verify source code"
  submission: the standard-JSON source blob, the contract name
  `<file>:<Contract>`, and the compiler version with its build suffix
  stripped. It submits this to the Etherscan API of the chosen network
  (`src/api.ts`). A refused submission is retried while Etherscan cannot
  yet see the code. An accepted one is followed by status checks while
  verification is pending. Both phases share one time budget.
- **Import** (`src/import.ts`). It fetches the source, ABI and compiler
  data of one or more verified contracts. It also takes the creation code
  from each contract's page, after cutting off the constructor arguments.
  It assembles a build file with one entry per contract and warns when
  compiler versions differ.

Modules:

- `Wrappers`: `Option` and `Result`.
- `Js`: JavaScript values, with objects as ordered property lists.
  - `typeof`, property reads, `String(...)` and `Array.prototype.join`.
  - `Host`: the host functions the code calls, taken as parameters:
    `JSON.parse`, `Number(...)`, number-to-text and `keccak256`.
- `Text`: `startsWith`, `endsWith`, `includes` and ASCII `toLowerCase`.
- `Errors`: every exception the core throws, as one datatype.
- `Api`: the two host tables and the URL templates.
- `Contract` and `Contracts`: `getMetadata`, from each of the two files.
- `CommitVersion`: the regular-expression replace applied to the compiler
  version, modelled exactly. This covers the `i` and `g` flags and the
  line terminators that `.` does not match.
- `Verify`:
  - the request builder (`PrepareVerification`);
  - the submit/poll protocol as recursive functions (`Submit`, `Poll`)
    over the sequence of replies Etherscan gives, with the recursive
    methods `DoVerify` and `CheckStatus` proved equal to them;
  - `VerifyContract`.
- `Import`:
  - the source-code reply and the creation-code cut;
  - the metadata template;
  - the `reduce` that builds the file.
- `RoundTrip`: a contract written by the import is accepted by the verify
  request builder, under the same name and source key.
- `Mismatch`: the message thrown when the bytecode does not end with the
  constructor arguments (see Findings).

A run of the protocol is a `Run(outcome, requests)`. The outcome is
`Ok(alreadyVerified)` or the error thrown. `requests` lists every POST
(submission) and GET (status check) sent, in order. Reply `i` answers
request `i`. If the replies run out, the run ends with `TransportError`.

## Model

| member | source | states |
|---|---|---|
| Api.EtherscanApiUrl | src/api.ts:9-24 | A network resolves exactly when it is one of the five known networks. The result is then `https://<api host>/api`; otherwise the error is "unknown API host" for that network. |
| Api.EtherscanUrl | src/api.ts:26-41 | The same for the browsing hosts: `https://<host>`, or "unknown host". |
| Api.EtherscanContractUrl | src/api.ts:67-69 | The contract page is the browsing URL plus `/address/<address>`. It fails exactly when the browsing URL fails, with the same error. |
| Api.SameNetworks | src/api.ts:9-41 | Both tables list the same networks, so the two resolvers accept the same names. |
| Api.UrlsAreDistinct | src/api.ts:9-41 | Different networks give different API URLs and different browsing URLs. |
| Contract.GetMetadata | src/contract.ts:82-103 | Without its own `metadata` property, the record is rejected and its keys reported. A string is parsed, and a parse error is passed on unchanged. Objects, arrays and `null` (typeof "object") are returned unchanged. Any other value is rejected as invalid metadata. |
| Contract.GetMetadataOkIff | src/contract.ts:82-103 | Extraction succeeds if and only if the metadata is object-typed or a string that parses. |
| Contracts.GetMetadata | src/contracts.ts:23-44 | The second copy: a missing property is an error, and an object is returned unchanged. |
| Contracts.SameAsContract | src/contracts.ts:23-44 | Both copies give the same result, value or error, on every record. |
| CommitVersion.StripsBuildMetadata | src/verify.ts:86 | On a one-line version `v+commit.<hex>.<build>` whose `v` has no `+`, the replace gives `v+commit.<hex>`. |
| CommitVersion.NormalizeExample | src/verify.ts:86 | `0.8.4+commit.c7e474f2.Linux.gcc` becomes `0.8.4+commit.c7e474f2`. |
| CommitVersion.NormalizeUnchanged | src/verify.ts:86 | A string in which the pattern matches nowhere is left unchanged. |
| CommitVersion.NormalizeLeavesNoMatch | src/verify.ts:86 | After the replace, the pattern matches nowhere in the result. |
| CommitVersion.NormalizeIdempotent | src/verify.ts:86 | Applying the replace twice is the same as applying it once. |
| CommitVersion.Normalize | src/verify.ts:86 | The global replace never lengthens the version. That it leaves no match and is idempotent is proved in `NormalizeLeavesNoMatch` and `NormalizeIdempotent`; what it does to a build suffix, in `StripsBuildMetadata`. |
| CommitVersion.NormalizeWithoutPlus | src/verify.ts:86 | A version without `+` is unchanged. |
| Verify.Read | src/verify.ts:88-90 | Reading a property throws a TypeError exactly on `null` and `undefined`. |
| Verify.CompilerVersion | src/verify.ts:86 | Succeeds if and only if `metadata.compiler` and then `.version` can be read and the version is a string; otherwise it is a TypeError. The result is the replace applied to that string, so it contains no further match and is a fixed point of the replace. |
| Verify.SplitSettings | src/verify.ts:91-94 | Succeeds exactly on objects. The rest of the settings has no `compilationTarget`, and every other key keeps its value. |
| Verify.TargetName | src/verify.ts:95 | The first entry of the target, joined with `:`, exists exactly when the target has an entry: a non-empty object, array or string. An object gives its first key followed by `:`; arrays and strings give `0:`. Anything else is a TypeError. |
| Verify.PrepareVerification | src/verify.ts:84-108 | On success: the URL is the network's API URL; the fixed fields (module, action, code format, license `1`) and the caller's fields are set; the version is `v` plus a normalized version; the source blob's settings hold no compilation target. A metadata error is passed on unchanged. |
| Verify.PrepareWellFormed | src/verify.ts:85-108 | For metadata of the expected shape, the request is fully determined. The name is the first compilation target's `key:value`, and further targets are ignored. The version is `v` plus the normalized version. The blob is language, settings without the target, and sources. |
| Verify.PrepareNoTarget | src/verify.ts:87-95 | A missing, `null` or empty compilation target is a TypeError once the network is known. An unknown network is reported first. |
| Verify.PrepareUnknownNetwork | src/verify.ts:85-87 | An unknown network is reported once the metadata and the version have been read. |
| Verify.StatusVerdict | src/verify.ts:71-81 | A status reply that is not waited on passes (`false`) if and only if its result does not start with "Fail" and its status is 1. A "Fail" result is a failed verification; otherwise a status other than 1 is a status error. Each error carries the reply's message and result. |
| Verify.Poll | src/verify.ts:45-82 | The status checks begin with a GET for the guid and never report "already verified". Their steps are stated in `PollStep` and their outcome in `PollDecides`. |
| Verify.Submit | src/verify.ts:126-143 | A run begins with the submission POST. `Accepted` (line 129) holds when `Number(status)` is not 0 and the message is "OK". Every branch of one step is stated in `SubmitStep`. The refusals are also stated one by one, in `AlreadyVerifiedAtOnce`, `MissingCodeRetries` and `OtherRefusalFails`. The hand-over is stated in `AcceptedStartsPolling`, and the outcome in `SubmitDecides`. |
| Verify.PollStep | src/verify.ts:55-82 | With no reply, the transport fails. A pending reply with budget left is checked again with 5000 less. Any other reply decides the check by `StatusVerdict`, after exactly one GET. |
| Verify.CheckStatus | src/verify.ts:45-82 | The status-check method sends exactly the requests of `Poll` and returns its outcome. |
| Verify.DoVerify | src/verify.ts:126-143 | The submission method sends exactly the requests of `Submit` and returns its outcome. |
| Verify.RetriesClosedForm | src/verify.ts:26-27 | A budget allows ceil(budget / 5000) waits. |
| Verify.PollBound | src/verify.ts:66-69 | Polling sends at least one request, and at most one more than the waits its budget allows. |
| Verify.SubmitBound | src/verify.ts:126-143 | A run sends at most two requests more than the budget's waits, because both phases draw on one budget. |
| Verify.AtMost38Requests | src/verify.ts:117 | Whatever Etherscan answers, a verification with the 180000 budget sends at most 38 requests. |
| Verify.AlreadyVerifiedAtOnce | src/verify.ts:129-131 | A refusal saying "already verified" ends the run at once with `true`. |
| Verify.MissingCodeRetries | src/verify.ts:132-137 | "Unable to locate ContractCode" is resubmitted with 5000 less budget while budget is left. After that it is a submit error. |
| Verify.OtherRefusalFails | src/verify.ts:129-136 | A refusal that says neither "already verified" nor "Unable to locate ContractCode" (for example "Invalid constructor arguments provided", line 114) ends the run at once, after one POST, with a submit error carrying its message and result. This holds whatever budget is left. |
| Verify.SubmitStep | src/verify.ts:126-143 | One submission step, for every reply. A missing reply is a transport error. "Already verified" gives `true` after one POST. A missing-code refusal with budget left is resubmitted with 5000 less budget. Any other refusal is a submit error after one POST. An accepted reply starts the status checks with its result as the guid. |
| Verify.AcceptedStartsPolling | src/verify.ts:138-141 | An accepted submission starts the status checks with its result as the guid and the remaining budget. |
| Verify.PendingWithoutBudget | src/verify.ts:66-77 | Once the budget is spent, "Pending in queue" falls through to the status test: `false` on status 1, a status error otherwise. |
| Verify.PollTrace | src/verify.ts:55-60 | Every status check asks for the same guid. |
| Verify.SubmitTrace | src/verify.ts:126-143 | A run is a series of submissions followed by status checks. Checks start only after an accepted submission, and they use its result as the guid. |
| Verify.PollDecides | src/verify.ts:45-82 | The status checks fail for lack of a reply exactly when they outlast the replies. Every reply before the last one read was "Pending in queue". Otherwise the outcome is exactly `StatusVerdict` of the last reply read. |
| Verify.SubmitDecides | src/verify.ts:126-143 | The same for a whole run. Every POST that is followed by another POST answers a missing-code refusal that was not "already verified" and was read with budget left. A run that ends on a POST ends on a refused submission: `true` if its result contains "already verified", and otherwise a submit error carrying its message and result. A run that ends on a GET ends with `StatusVerdict` of the last reply. |
| Verify.PollIgnoresLaterReplies | src/verify.ts:55-69 | Replies after the deciding one are never read. |
| Verify.SubmitRetriesOnlyMissingCode | src/verify.ts:129-137 | Every POST that is followed by another POST answers a missing-code refusal read with budget left, the budget being the start budget less 5000 per earlier submission. A run sends at most one request more than there are replies. |
| Verify.SubmitIgnoresLaterReplies | src/verify.ts:126-143 | The same for a whole run. |
| Verify.ExampleRun | src/verify.ts:126-143 | The replies "missing code", then "OK guid", then "Pending", then "Pass" give `false` after two POSTs and two GETs. |
| Verify.ExampleFailure | src/verify.ts:71-73 | "Fail - Unable to verify" is reported as a failed verification. |
| Verify.VerifyContract | src/verify.ts:84-124 | An error building the request is returned and nothing is sent. Otherwise exactly the protocol's requests are sent. Its error is returned; on success the result is verified, with the contract page `https://<host>/address/<address>` and the already-verified flag. |
| Import.GetEtherscanApiData | src/import.ts:26-49 | Succeeds if and only if: the network is known, the status is `1`, there is a first result, its ABI is not "Contract source code not verified", and the ABI parses. Each failure has its own error: an unknown API host, an Etherscan error carrying the reply's message and its result text, a TypeError when there is no first result, "not verified", and the parser's error passed on unchanged. The fields are copied from the first result; the ABI is parsed and the runs converted with `Number`. |
| Import.OptimizedUnlessZero | src/import.ts:45 | The optimizer counts as used unless Etherscan says `"0"`. |
| Import.ContractCreationCode | src/import.ts:51-65 | Succeeds if and only if the network is known, the page has a bytecode block, and the block ends with the arguments (case-insensitive). The result is then a prefix of the bytecode, the remaining characters are the arguments up to case, and the lengths add up. |
| Import.CreationCodeRoundTrip | src/import.ts:60-64 | Cutting arguments (shown in any case) off `code + arguments` gives `code` back. |
| Import.CreationCodeNoArgs | src/import.ts:64 | With no arguments, the whole bytecode is the creation code. |
| Import.ContractSource | src/import.ts:91 | The key starts with `contracts/` and ends with `.sol:<Contract>`. |
| Import.ContractSourceInjective | src/import.ts:91 | Different contract names give different keys. |
| Import.ImportedMetadata | src/import.ts:93-124 | The template is an object with exactly the keys `version`, `language`, `compiler`, `sources`, `settings` and `output`, in that order. Their contents are stated in the five `ImportedMetadata*` lemmas below. |
| Import.ImportedMetadataHeader | src/import.ts:93-98 | The template has metadata version `1`, language Solidity and the reported compiler version. |
| Import.ImportedMetadataSources | src/import.ts:99-104 | The template holds one source under the contract's key: its content and keccak256 hash. |
| Import.ImportedMetadataTarget | src/import.ts:105-118 | The template's only compilation target maps the key to the contract name. |
| Import.BuildEntry | src/import.ts:130-139 | The entry holds the parsed ABI and the creation code, and `getMetadata` reads back exactly the metadata template from it. |
| Import.ImportedMetadataSettings | src/import.ts:105-118 | The template's other settings: no remappings, the optimizer enabled and run count from Etherscan's data, `useLiteralContent` false, and no libraries. The settings keys are exactly these plus `compilationTarget`, in source order. |
| Import.ImportedMetadataOutput | src/import.ts:119-123 | The template's output holds the parsed ABI and empty `userdoc` and `devdoc`. |
| Import.Contribute | src/import.ts:80-139 | One address contributes exactly when its data and its creation code are both obtained. The contribution is the contract's key, an entry holding the ABI, the creation code and the metadata template, and the compiler. A data error is passed on unchanged. When the data is obtained but the creation code is not, the creation-code error (no bytecode block, or a mismatch with the bytecode and arguments) is passed on unchanged. |
| Import.ImportStep | src/import.ts:126-141 | The new entry is added or replaced under its key, and every other entry is kept. The version becomes this contract's compiler. A warning (previous, current) is given exactly when an earlier version is set and differs. |
| Import.Reduce | src/import.ts:77-142 | A successful fold has a build version if and only if there was an address. Its other properties are stated in the `Reduce*` lemmas below. `ReduceWarnings` states which warnings it collects. |
| Import.ImportContract | src/import.ts:67-142 | The import succeeds if and only if every address given (one, or each of a list) contributes. |
| Import.ImportNothing | src/import.ts:74-142 | An empty list gives an empty build with no version and no warnings. |
| Import.ImportOne | src/import.ts:74 | A single address is imported like a list of one. |
| Import.ReduceVersionIsLast | src/import.ts:130-141 | The build's version is the last address's compiler. |
| Import.ReduceLastEntry | src/import.ts:130-141 | The last address's entry is the one it built. |
| Import.ReduceOkIff | src/import.ts:77-142 | The import succeeds if and only if every address contributes. |
| Import.ReduceKeys | src/import.ts:77-142 | A successful build has exactly one key per contract named by the addresses. |
| Import.ReduceFirstError | src/import.ts:77-142 | If every address before a failing one succeeds, the import fails with that address's error. |
| Import.ReduceWarningCount | src/import.ts:126-128 | There are fewer warnings than addresses. |
| Import.ReduceWarnings | src/import.ts:126-128 | The warnings of a successful import are exactly one `(previous, current)` pair for each pair of neighbouring addresses whose earlier compiler is not empty and whose later compiler differs from it, in address order. |
| Import.ReduceTwoCompilers | src/import.ts:126-128 | Two addresses with compilers `a` and `b`, where `a` is not empty and `b` differs from `a`, give a successful import with exactly the one warning `(a, b)`. |
| Import.ReduceSameCompiler | src/import.ts:126-128 | If all addresses share one compiler, there are no warnings and the version is that compiler. |
| RoundTrip.ImportedEntryVerifies | src/import.ts:91-118 | An imported entry passes the verify request builder on every known network. The name is `contracts/<C>.sol:<C>:<C>`, the version is `v` plus the normalized reported version, the language is Solidity, and the one source is sent under its key. |
| RoundTrip.ImportedSettingsSent | src/import.ts:105-118 | Re-verifying an imported entry sends the template's settings without the compilation target: no remappings, the reported optimizer, literal content off, no libraries. |
| RoundTrip.PrepareImported | src/verify.ts:85-105 | Metadata with the template's shape (one source, one target, a compiler version) gives exactly the corresponding request. |
| Mismatch.MessageAsWritten | src/import.ts:61 | The message as written starts with the fixed text and is the same for every input (see `AsWrittenIgnoresValues`). |
| Mismatch.AsWrittenIgnoresValues | src/import.ts:61 | As written, every mismatch gives the same message. |
| Mismatch.Message | src/import.ts:61 | The intended message starts with the same fixed text, followed by the JSON of both values. |
| Mismatch.MessageInjective | src/import.ts:61 | The intended message determines both the bytecode and the arguments. |

## Left out

- HTTP transport (`post`, `get`, `src/api.ts:43-65`).
  - In `Verify`, replies are an input sequence, one per request.
  - There, a missing reply, a network error or a reply body that does not parse all become `TransportError`.
  - The query of the "get source code" request is not modelled.
- Import.ImportContract: failures of `get` in `getEtherscanApiData` and `getContractCreationCode` (`src/import.ts:28`, `src/import.ts:53`) are not modelled.
  - The replies for an address are given by a function of the address, so both fetches always succeed.
  - An address listed twice gets the same replies both times, while the real requests could be answered differently (a rate-limit refusal, for example).
- `sleep` and timers.
  - Only the budget arithmetic is kept.
  - Waiting and real time are not modelled.
- Logging (`verbose`, `console.*`): it has no effect on results.
- Error message texts.
  - Each error carries the values its message interpolates, not the text itself.
  - The one exception is the mismatch message under Findings.
- Import.GetEtherscanApiData: the `result` printed by the status error is given as its text (`resultText`), because elsewhere the reply's `result` is the list of sources. How JavaScript turns a non-string `result` into text is not modelled.
- Reading the bytecode from the contract page (`src/import.ts:52-59`).
  - The page is given already read: the first match of the regular expression, or none.
  - The HTML and the regular expression are not modelled.
- `JSON.stringify` of the source blob and of the written build file, and `fs.writeFile` (`src/import.ts:144`).
  - Both sides are kept as structured values.
  - Text formatting and the file itself are left out.
- The order of keys in the build file's `contracts`: it is a map here.
- `JSON.parse`, `Number(...)`, number-to-text and `keccak256` are uninterpreted host functions.
  - The model states what the code does with their results.
  - It does not model how they compute them.
- The unused `importRegex` and every license besides `NO_LICENSE` (`src/verify.ts:25`, `src/verify.ts:30-43`).
- Property lookups that reach `Object.prototype`.
  - A network named `constructor`, for example, would find an inherited property instead of a missing host.
  - Only own properties are modelled.
- Verify.TargetName: a string target's first entry is its first UTF-16 code unit. The model takes the first character instead.
- Text.Lower: `toLowerCase` is modelled for ASCII letters only, which is all a hex bytecode contains.
- Fields of a reply with the wrong JSON type, such as a numeric `result`. Reply fields are strings here.
- Mismatch.Escape: lone UTF-16 surrogates, which `JSON.stringify` writes as `\u` escapes, are not modelled.
- Where the described behaviour and the code differ, the model follows the code:
  - `getMetadata` accepts `null` and arrays as metadata, because their `typeof` is "object".
  - The first compilation target is used even when there are several.
  - A missing target is a TypeError thrown by `Object.entries(undefined)`. An empty target is a TypeError thrown by the `[0].join` read. Neither is a dedicated error.

## Findings

| source | as written | input that shows it | evidently intended | confidence | as-written member | corrected member |
|---|---|---|---|---|---|---|
| src/import.ts:61 | The error message is a double-quoted string, so `${JSON.stringify({verifiedBytecode, constructorArgs})}` stays literal text. | Any mismatch, for example bytecode `6080` with arguments `01` and bytecode `6081` with arguments `02`: both give the same message. | A template literal naming the bytecode and the arguments. | high, not executed | Mismatch.MessageAsWritten, Mismatch.AsWrittenIgnoresValues | Mismatch.Message, Mismatch.MessageInjective |
