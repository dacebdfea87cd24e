/** Source verification (src/verify.ts): the verify request is built from a
    contract's compiler metadata, submitted, and its status polled until
    Etherscan gives a verdict or the wait budget runs out.

    Each HTTP request is answered by the next element of a `replies`
    sequence; a request with no reply left fails as a transport error. The
    sleeps between requests are left out, and only the countdown of the
    wait budget remains. */
module Verify {
  import opened Wrappers
  import opened Js
  import opened Text
  import opened Errors
  import opened Api
  import Contract
  import opened CommitVersion

  /** The wait budget of one verification, in milliseconds. */
  const WaitTime: int := 180000
  /** What each retry takes off the budget. */
  const SleepTime: int := 5000
  /** `licenses.NO_LICENSE.toString()`. */
  const NoLicense: string := "1"
  const CodeFormat: string := "solidity-standard-json-input"

  const PendingText: string := "Pending in queue"
  const AlreadyVerifiedText: string := "Contract source code already verified"
  const MissingCodeText: string := "Unable to locate ContractCode at"
  const FailPrefix: string := "Fail"

  datatype VerificationResult = VerificationResult(verified: bool, url: string, alreadyVerified: bool)

  /** The object that `sourceCode` serialises. */
  datatype SourceBlob = SourceBlob(language: Value, settings: Fields, sources: Value)

  /** The form posted to the API (`verifyData`). */
  datatype VerifyData = VerifyData(
    apiKey: string,
    moduleName: string,
    action: string,
    codeFormat: string,
    contractAddress: string,
    sourceCode: SourceBlob,
    contractName: string,
    compilerVersion: string,
    constructorArguments: string,
    licenseType: string)

  /** The API URL and the form, ready to be posted. */
  datatype Prepared = Prepared(url: string, data: VerifyData)

  /** A request sent: the verify submission, or a status check for a guid
      (module "contract", action "checkverifystatus"). */
  datatype Request = Post(url: string, data: VerifyData) | Get(url: string, apiKey: string, guid: string)

  /** How a run of the protocol ends (`Ok(true)` when the source was
      already verified) and the requests it sent, in order. */
  datatype Run = Run(outcome: Result<bool, Error>, requests: seq<Request>)

  // ---------------------------------------------------------------------
  // Building the request

  /** The property read `v.key`, throwing on null and undefined. */
  function Read(v: Value, key: string): (r: Result<Value, Error>)
    ensures r.Err? <==> v.Null? || v.Undefined?
    ensures r.Err? ==> r.error == TypeError
  {
    match Prop(v, key)
    case None => Err(TypeError)
    case Some(x) => Ok(x)
  }

  /** `metadata.compiler.version.replace(...)`: reading through a missing
      object, or calling `replace` on something other than a string, is a
      TypeError. */
  function CompilerVersion(metadata: Value): (r: Result<string, Error>)
    ensures r.Ok? <==>
      && Read(metadata, "compiler").Ok?
      && Read(Read(metadata, "compiler").value, "version").Ok?
      && Read(Read(metadata, "compiler").value, "version").value.Str?
    ensures r.Ok? ==> r.value == Normalize(Read(Read(metadata, "compiler").value, "version").value.s)
    ensures r.Ok? ==> NoMatch(r.value) && Normalize(r.value) == r.value
    ensures r.Err? ==> r.error == TypeError
  {
    var compiler :- Read(metadata, "compiler");
    var version :- Read(compiler, "version");
    if version.Str? then
      NormalizeIdempotent(version.s);
      NormalizeLeavesNoMatch(version.s);
      Ok(Normalize(version.s))
    else Err(TypeError)
  }

  /** `Object.entries(target)[0].join(':')`: the key and the value of the
      first entry. Strings and arrays have entries keyed by index; any other
      value has none, or (null, undefined) makes `Object.entries` throw. */
  function TargetName(target: Value, numberText: JsNumber -> string): (r: Result<string, Error>)
    ensures r.Ok? <==>
      (target.Object? && |target.fields| > 0) || (target.Array? && |target.items| > 0)
      || (target.Str? && |target.s| > 0)
    ensures r.Ok? && target.Object? ==> StartsWith(r.value, target.fields[0].0 + ":")
    ensures r.Ok? && !target.Object? ==> StartsWith(r.value, "0:")
    ensures r.Err? ==> r.error == TypeError
  {
    match target
    case Object(fields) =>
      if fields == [] then Err(TypeError)
      else Ok(fields[0].0 + ":" + ElementText(fields[0].1, numberText))
    case Array(items) =>
      if items == [] then Err(TypeError)
      else Ok("0:" + ElementText(items[0], numberText))
    case Str(s) =>
      if s == [] then Err(TypeError)
      else Ok("0:" + [s[0]])
    case _ => Err(TypeError)
  }

  /** `let {compilationTarget, ...restSettings} = settings`. Only an object
      can hold a compilation target: any other value leaves it undefined,
      and `Object.entries` then throws, so it is rejected here at once. */
  function SplitSettings(settings: Value): (r: Result<(Value, Fields), Error>)
    ensures r.Ok? <==> settings.Object?
    ensures r.Ok? ==> !HasOwn(r.value.1, "compilationTarget")
    ensures r.Ok? ==> forall k :: k != "compilationTarget" ==>
      Lookup(r.value.1, k) == Lookup(settings.fields, k)
    ensures r.Err? ==> r.error == TypeError
  {
    if !settings.Object? then Err(TypeError)
    else
      var target := match Lookup(settings.fields, "compilationTarget") case Some(t) => t case None => Undefined;
      Ok((target, Without(settings.fields, "compilationTarget")))
  }

  /** Lines 85-108 of `verifyContract`, in their order: each step that can
      throw is tried before the next one. */
  function PrepareVerification(
    contractJson: Contract.ContractJson, host: Host, network: string,
    apiKey: string, address: string, constructorData: string): (r: Result<Prepared, Error>)
    ensures r.Ok? ==> network in KnownNetworks && r.value.url == "https://" + ApiHosts[network] + "/api"
    ensures r.Ok? ==>
      var d := r.value.data;
      && d.apiKey == apiKey && d.moduleName == "contract" && d.action == "verifysourcecode"
      && d.codeFormat == CodeFormat && d.contractAddress == address
      && d.constructorArguments == constructorData && d.licenseType == NoLicense
    ensures r.Ok? ==>
      var d := r.value.data;
      && StartsWith(d.compilerVersion, "v") && NoMatch(d.compilerVersion[1..])
      && !HasOwn(d.sourceCode.settings, "compilationTarget")
    ensures Contract.GetMetadata(contractJson, host).Err? ==>
      r == Err(Contract.GetMetadata(contractJson, host).error)
  {
    var metadata :- Contract.GetMetadata(contractJson, host);
    var compilerVersion :- CompilerVersion(metadata);
    var url :- EtherscanApiUrl(network);
    // `metadata.compiler` has been read, so `metadata` is neither null nor
    // undefined and these reads do not throw.
    var language := Read(metadata, "language").value;
    var settings := Read(metadata, "settings").value;
    var sources := Read(metadata, "sources").value;
    var split :- SplitSettings(settings);
    var contractName :- TargetName(split.0, host.numberText);
    assert ("v" + compilerVersion)[1..] == compilerVersion;
    Ok(Prepared(url, VerifyData(
      apiKey, "contract", "verifysourcecode", CodeFormat, address,
      SourceBlob(language, split.1, sources),
      contractName, "v" + compilerVersion, constructorData, NoLicense)))
  }

  /** On metadata of the expected shape the request is fully determined: the
      contract name is the first compilation target (any further targets are
      ignored), the compiler version is "v" and the normalized version, and
      the source blob carries every setting but the compilation target. */
  lemma PrepareWellFormed(
    contractJson: Contract.ContractJson, host: Host, network: string,
    apiKey: string, address: string, constructorData: string,
    metadata: Fields, compiler: Value, version: string, settings: Fields,
    key: string, name: Value, otherTargets: Fields)
    requires Contract.GetMetadata(contractJson, host) == Ok(Object(metadata))
    requires Lookup(metadata, "compiler") == Some(compiler) && Prop(compiler, "version") == Some(Str(version))
    requires Lookup(metadata, "settings") == Some(Object(settings))
    requires Lookup(settings, "compilationTarget") == Some(Object([(key, name)] + otherTargets))
    requires network in KnownNetworks
    ensures PrepareVerification(contractJson, host, network, apiKey, address, constructorData)
      == Ok(Prepared(
           "https://" + ApiHosts[network] + "/api",
           VerifyData(
             apiKey, "contract", "verifysourcecode", CodeFormat, address,
             SourceBlob(Prop(Object(metadata), "language").value, Without(settings, "compilationTarget"), Prop(Object(metadata), "sources").value),
             key + ":" + ElementText(name, host.numberText),
             "v" + Normalize(version), constructorData, NoLicense)))
  {
    ReadFields(metadata, compiler, version);
    TargetOfSettings(settings, key, name, otherTargets, host.numberText);
  }

  lemma ReadFields(metadata: Fields, compiler: Value, version: string)
    requires Lookup(metadata, "compiler") == Some(compiler) && Prop(compiler, "version") == Some(Str(version))
    ensures CompilerVersion(Object(metadata)) == Ok(Normalize(version))
    ensures Read(Object(metadata), "language") == Ok(Prop(Object(metadata), "language").value)
    ensures Read(Object(metadata), "settings") == Ok(Prop(Object(metadata), "settings").value)
    ensures Read(Object(metadata), "sources") == Ok(Prop(Object(metadata), "sources").value)
  {
  }

  lemma TargetOfSettings(settings: Fields, key: string, name: Value, otherTargets: Fields, numberText: JsNumber -> string)
    requires Lookup(settings, "compilationTarget") == Some(Object([(key, name)] + otherTargets))
    ensures SplitSettings(Object(settings))
      == Ok((Object([(key, name)] + otherTargets), Without(settings, "compilationTarget")))
    ensures TargetName(Object([(key, name)] + otherTargets), numberText) == Ok(key + ":" + ElementText(name, numberText))
  {
  }

  /** A compilation target with no entries is a TypeError, raised after the
      network has been checked. */
  lemma PrepareNoTarget(
    contractJson: Contract.ContractJson, host: Host, network: string,
    apiKey: string, address: string, constructorData: string,
    metadata: Fields, settings: Fields)
    requires Contract.GetMetadata(contractJson, host) == Ok(Object(metadata))
    requires CompilerVersion(Object(metadata)).Ok?
    requires Lookup(metadata, "settings") == Some(Object(settings))
    requires Lookup(settings, "compilationTarget") in {None, Some(Object([])), Some(Array([])), Some(Null)}
    ensures PrepareVerification(contractJson, host, network, apiKey, address, constructorData)
      == if network in KnownNetworks then Err(TypeError) else Err(UnknownApiHost(network))
  {
  }

  /** An unknown network is reported before anything after the compiler
      version is looked at. */
  lemma PrepareUnknownNetwork(
    contractJson: Contract.ContractJson, host: Host, network: string,
    apiKey: string, address: string, constructorData: string)
    requires Contract.GetMetadata(contractJson, host).Ok?
    requires CompilerVersion(Contract.GetMetadata(contractJson, host).value).Ok?
    requires network !in KnownNetworks
    ensures PrepareVerification(contractJson, host, network, apiKey, address, constructorData)
      == Err(UnknownApiHost(network))
  {
  }

  // ---------------------------------------------------------------------
  // Submitting and polling

  /** The submission was taken: `Number(status) === 0 || message !== "OK"`
      does not hold. (`Number` of a non-numeric status is NaN, which is
      not 0.) */
  predicate Accepted(host: Host, reply: Reply) {
    !(host.toNumber(reply.status) == Finite(0.0) || reply.message != "OK")
  }

  function Prepend(request: Request, run: Run): Run {
    Run(run.outcome, [request] + run.requests)
  }

  /** The budget as a measure that stays non-negative. */
  function Measure(budget: int): nat {
    if budget > 0 then budget else 0
  }

  /** How a status reply that is not waited on decides the check: a result
      starting with "Fail" is a failed verification, otherwise a status
      other than 1 is an error, and otherwise the check passed (`Ok(false)`,
      the verdict `doVerify` returns after it). Each error reports the
      reply's message and result. */
  function StatusVerdict(host: Host, reply: Reply): (r: Result<bool, Error>)
    ensures r.Ok? <==> !StartsWith(reply.result, FailPrefix) && host.toNumber(reply.status) == Finite(1.0)
    ensures r.Ok? ==> r.value == false
    ensures r.Err? ==>
      && ReportsReply(r.error, reply) && !r.error.SubmitError?
      && (r.error.VerificationFailed? <==> StartsWith(reply.result, FailPrefix))
  {
    if StartsWith(reply.result, FailPrefix) then Err(VerificationFailed(reply.message, reply.result))
    else if host.toNumber(reply.status) != Finite(1.0) then Err(StatusError(reply.message, reply.result))
    else Ok(false)
  }

  /** `checkStatus`: a pending result is checked again while budget is
      left; any other reply, or a pending one once the budget is spent,
      decides the check. Its first request is the status check for the
      token, and it never reports "already verified". */
  function Poll(host: Host, url: string, apiKey: string, token: string, replies: seq<Reply>, budget: int): (r: Run)
    ensures r.requests != [] && r.requests[0] == Get(url, apiKey, token)
    ensures r.outcome != Ok(true)
    decreases Measure(budget)
  {
    var request := Get(url, apiKey, token);
    if replies == [] then Run(Err(TransportError), [request])
    else
      var reply := replies[0];
      if reply.result == PendingText && budget > 0 then
        Prepend(request, Poll(host, url, apiKey, token, replies[1..], budget - SleepTime))
      else
        Run(StatusVerdict(host, reply), [request])
  }

  /** `doVerify`: a refused submission is either "already verified", a
      retry while the code is not yet visible to Etherscan and budget is
      left, or an error; an accepted one hands its result, the guid, to
      the status checks, which go on with the same budget. Its first request
      is the submission. */
  function Submit(host: Host, url: string, data: VerifyData, apiKey: string, replies: seq<Reply>, budget: int): (r: Run)
    ensures r.requests != [] && r.requests[0] == Post(url, data)
    decreases Measure(budget)
  {
    var request := Post(url, data);
    if replies == [] then Run(Err(TransportError), [request])
    else
      var reply := replies[0];
      if !Accepted(host, reply) then
        if Contains(reply.result, AlreadyVerifiedText) then
          Run(Ok(true), [request])
        else if Contains(reply.result, MissingCodeText) && budget > 0 then
          Prepend(request, Submit(host, url, data, apiKey, replies[1..], budget - SleepTime))
        else
          Run(Err(SubmitError(reply.message, reply.result)), [request])
      else
        Prepend(request, Poll(host, url, apiKey, reply.result, replies[1..], budget))
  }

  // src/verify.ts waits and retries by calling `checkStatus` and
  // `doVerify` again (lines 68 and 134), not by looping, so the two methods
  // below recurse as well.

  /** `checkStatus` as src/verify.ts writes it, one awaited request per call:
      the method form of the recursive async function that `Poll`
      specifies. */
  method CheckStatus(host: Host, url: string, apiKey: string, token: string, replies: seq<Reply>, budget: int)
    returns (outcome: Result<bool, Error>, sent: seq<Request>)
    ensures Run(outcome, sent) == Poll(host, url, apiKey, token, replies, budget)
    decreases Measure(budget)
  {
    var request := Get(url, apiKey, token);
    if replies == [] {
      return Err(TransportError), [request];
    }
    var reply := replies[0];
    if reply.result == PendingText && budget > 0 {
      var later;
      outcome, later := CheckStatus(host, url, apiKey, token, replies[1..], budget - SleepTime);
      sent := [request] + later;
    } else if StartsWith(reply.result, FailPrefix) {
      outcome, sent := Err(VerificationFailed(reply.message, reply.result)), [request];
    } else if host.toNumber(reply.status) != Finite(1.0) {
      outcome, sent := Err(StatusError(reply.message, reply.result)), [request];
    } else {
      outcome, sent := Ok(false), [request];
    }
  }

  /** `doVerify` as src/verify.ts writes it, one awaited submission per call:
      the method form of the recursive async function that `Submit`
      specifies. */
  method DoVerify(host: Host, url: string, data: VerifyData, apiKey: string, replies: seq<Reply>, budget: int)
    returns (outcome: Result<bool, Error>, sent: seq<Request>)
    ensures Run(outcome, sent) == Submit(host, url, data, apiKey, replies, budget)
    decreases Measure(budget)
  {
    var request := Post(url, data);
    if replies == [] {
      return Err(TransportError), [request];
    }
    var reply := replies[0];
    var later;
    if !Accepted(host, reply) {
      if Contains(reply.result, AlreadyVerifiedText) {
        outcome, sent := Ok(true), [request];
      } else if Contains(reply.result, MissingCodeText) && budget > 0 {
        outcome, later := DoVerify(host, url, data, apiKey, replies[1..], budget - SleepTime);
        sent := [request] + later;
      } else {
        outcome, sent := Err(SubmitError(reply.message, reply.result)), [request];
      }
    } else {
      outcome, later := CheckStatus(host, url, apiKey, reply.result, replies[1..], budget);
      sent := [request] + later;
    }
  }

  // ---------------------------------------------------------------------
  // Properties of the protocol

  /** How many retries a budget allows: one per `SleepTime` while it is
      positive. */
  function Retries(budget: int): nat
    decreases Measure(budget)
  {
    if budget <= 0 then 0 else 1 + Retries(budget - SleepTime)
  }

  /** The retries are the budget divided by `SleepTime`, rounded up. */
  lemma {:induction false} RetriesClosedForm(budget: int)
    ensures Retries(budget) == if budget <= 0 then 0 else (budget + SleepTime - 1) / SleepTime
    decreases Measure(budget)
  {
    if budget > 0 {
      RetriesClosedForm(budget - SleepTime);
    }
  }

  /** Polling sends at least one request, and at most one more than the
      retries its budget allows. */
  lemma {:induction false} PollBound(host: Host, url: string, apiKey: string, token: string, replies: seq<Reply>, budget: int)
    ensures 1 <= |Poll(host, url, apiKey, token, replies, budget).requests| <= Retries(budget) + 1
    decreases Measure(budget)
  {
    if replies != [] && replies[0].result == PendingText && budget > 0 {
      PollBound(host, url, apiKey, token, replies[1..], budget - SleepTime);
    }
  }

  /** Both phases draw on one budget, so a whole run sends at most two
      requests more than the retries the budget allows. */
  lemma {:induction false} SubmitBound(host: Host, url: string, data: VerifyData, apiKey: string, replies: seq<Reply>, budget: int)
    ensures 1 <= |Submit(host, url, data, apiKey, replies, budget).requests| <= Retries(budget) + 2
    decreases Measure(budget)
  {
    if replies != [] {
      var reply := replies[0];
      if !Accepted(host, reply) {
        if !Contains(reply.result, AlreadyVerifiedText) && Contains(reply.result, MissingCodeText) && budget > 0 {
          SubmitBound(host, url, data, apiKey, replies[1..], budget - SleepTime);
        }
      } else {
        PollBound(host, url, apiKey, reply.result, replies[1..], budget);
      }
    }
  }

  /** Whatever Etherscan answers, a verification sends at most 38 requests:
      36 retries of 5000 out of 180000, the first submission and the first
      status check. */
  lemma AtMost38Requests(host: Host, url: string, data: VerifyData, apiKey: string, replies: seq<Reply>)
    ensures |Submit(host, url, data, apiKey, replies, WaitTime).requests| <= 38
  {
    SubmitBound(host, url, data, apiKey, replies, WaitTime);
    RetriesClosedForm(WaitTime);
  }

  /** A refusal saying the source is already verified ends the run at once
      with `true`, whatever budget is left. */
  lemma AlreadyVerifiedAtOnce(host: Host, url: string, data: VerifyData, apiKey: string, replies: seq<Reply>, budget: int)
    requires replies != [] && !Accepted(host, replies[0])
    requires Contains(replies[0].result, AlreadyVerifiedText)
    ensures Submit(host, url, data, apiKey, replies, budget) == Run(Ok(true), [Post(url, data)])
  {
  }

  /** Code not yet visible to Etherscan is submitted again, with 5000 less
      budget, only while budget is left; after that it is an error. */
  lemma MissingCodeRetries(host: Host, url: string, data: VerifyData, apiKey: string, replies: seq<Reply>, budget: int)
    requires replies != [] && !Accepted(host, replies[0])
    requires !Contains(replies[0].result, AlreadyVerifiedText) && Contains(replies[0].result, MissingCodeText)
    ensures budget > 0 ==>
      Submit(host, url, data, apiKey, replies, budget)
        == Prepend(Post(url, data), Submit(host, url, data, apiKey, replies[1..], budget - SleepTime))
    ensures budget <= 0 ==>
      Submit(host, url, data, apiKey, replies, budget)
        == Run(Err(SubmitError(replies[0].message, replies[0].result)), [Post(url, data)])
  {
  }

  /** Any other refusal, "Invalid constructor arguments provided" for
      example, is an error at once: it is never submitted again, whatever
      budget is left. */
  lemma OtherRefusalFails(host: Host, url: string, data: VerifyData, apiKey: string, replies: seq<Reply>, budget: int)
    requires replies != [] && !Accepted(host, replies[0])
    requires !Contains(replies[0].result, AlreadyVerifiedText) && !Contains(replies[0].result, MissingCodeText)
    ensures Submit(host, url, data, apiKey, replies, budget)
      == Run(Err(SubmitError(replies[0].message, replies[0].result)), [Post(url, data)])
  {
  }

  /** One submission, for every reply: without a reply the transport fails;
      a refusal is "already verified", a retry with 5000 less for code not
      yet visible while budget is left, or otherwise an error; an accepted
      submission starts the status checks. */
  lemma SubmitStep(host: Host, url: string, data: VerifyData, apiKey: string, replies: seq<Reply>, budget: int)
    ensures var run := Submit(host, url, data, apiKey, replies, budget);
      var request := Post(url, data);
      && (replies == [] ==> run == Run(Err(TransportError), [request]))
      && (replies != [] && !Accepted(host, replies[0]) && Contains(replies[0].result, AlreadyVerifiedText) ==>
            run == Run(Ok(true), [request]))
      && (replies != [] && !Accepted(host, replies[0]) && !Contains(replies[0].result, AlreadyVerifiedText)
          && Contains(replies[0].result, MissingCodeText) && budget > 0 ==>
            run == Prepend(request, Submit(host, url, data, apiKey, replies[1..], budget - SleepTime)))
      && (replies != [] && !Accepted(host, replies[0]) && !Contains(replies[0].result, AlreadyVerifiedText)
          && !(Contains(replies[0].result, MissingCodeText) && budget > 0) ==>
            run == Run(Err(SubmitError(replies[0].message, replies[0].result)), [request]))
      && (replies != [] && Accepted(host, replies[0]) ==>
            run == Prepend(request, Poll(host, url, apiKey, replies[0].result, replies[1..], budget)))
  {
  }

  /** An accepted submission hands its result to the status checks as the
      guid, with the budget the submissions left. */
  lemma AcceptedStartsPolling(host: Host, url: string, data: VerifyData, apiKey: string, replies: seq<Reply>, budget: int)
    requires replies != [] && Accepted(host, replies[0])
    ensures Submit(host, url, data, apiKey, replies, budget)
      == Prepend(Post(url, data), Poll(host, url, apiKey, replies[0].result, replies[1..], budget))
  {
  }

  /** Once the budget is spent, "Pending in queue" is not waited for: it
      falls through to the status test. */
  lemma PendingWithoutBudget(host: Host, url: string, apiKey: string, token: string, replies: seq<Reply>, budget: int)
    requires replies != [] && replies[0].result == PendingText && budget <= 0
    ensures Poll(host, url, apiKey, token, replies, budget)
      == if host.toNumber(replies[0].status) == Finite(1.0) then Run(Ok(false), [Get(url, apiKey, token)])
         else Run(Err(StatusError(replies[0].message, PendingText)), [Get(url, apiKey, token)])
  {
    assert PendingText[0] != FailPrefix[0];
  }

  /** Every status check asks for the same guid. */
  lemma {:induction false} PollTrace(host: Host, url: string, apiKey: string, token: string, replies: seq<Reply>, budget: int)
    ensures forall j :: 0 <= j < |Poll(host, url, apiKey, token, replies, budget).requests| ==>
      Poll(host, url, apiKey, token, replies, budget).requests[j] == Get(url, apiKey, token)
    decreases Measure(budget)
  {
    if replies != [] && replies[0].result == PendingText && budget > 0 {
      PollTrace(host, url, apiKey, token, replies[1..], budget - SleepTime);
      var later := Poll(host, url, apiKey, token, replies[1..], budget - SleepTime).requests;
      var reqs := Poll(host, url, apiKey, token, replies, budget).requests;
      assert reqs == [Get(url, apiKey, token)] + later;
    }
  }

  /** The requests up to index `g` are submissions; any after it are
      status checks for the result of reply `g`, an accepted submission. */
  predicate PostsThenGets(host: Host, url: string, data: VerifyData, apiKey: string, replies: seq<Reply>, reqs: seq<Request>, g: nat) {
    && g < |reqs|
    && (forall j :: 0 <= j <= g ==> reqs[j] == Post(url, data))
    && (g + 1 < |reqs| ==>
          g < |replies| && Accepted(host, replies[g])
          && forall j :: g < j < |reqs| ==> reqs[j] == Get(url, apiKey, replies[g].result))
  }

  /** A run is some submissions followed by status checks, and the checks
      only start after an accepted submission, whose result they use. */
  lemma {:induction false} SubmitTrace(host: Host, url: string, data: VerifyData, apiKey: string, replies: seq<Reply>, budget: int)
    ensures exists g: nat :: PostsThenGets(host, url, data, apiKey, replies, Submit(host, url, data, apiKey, replies, budget).requests, g)
    decreases Measure(budget)
  {
    var reqs := Submit(host, url, data, apiKey, replies, budget).requests;
    if replies == [] {
      assert PostsThenGets(host, url, data, apiKey, replies, reqs, 0);
    } else {
      var reply := replies[0];
      if !Accepted(host, reply) {
        if !Contains(reply.result, AlreadyVerifiedText) && Contains(reply.result, MissingCodeText) && budget > 0 {
          SubmitTrace(host, url, data, apiKey, replies[1..], budget - SleepTime);
          var later := Submit(host, url, data, apiKey, replies[1..], budget - SleepTime).requests;
          var g: nat :| PostsThenGets(host, url, data, apiKey, replies[1..], later, g);
          assert reqs == [Post(url, data)] + later;
          if g + 1 < |later| {
            assert replies[1..][g] == replies[g + 1];
          }
          assert forall j :: 1 <= j < |reqs| ==> reqs[j] == later[j - 1];
          assert PostsThenGets(host, url, data, apiKey, replies, reqs, g + 1);
        } else {
          assert PostsThenGets(host, url, data, apiKey, replies, reqs, 0);
        }
      } else {
        PollTrace(host, url, apiKey, reply.result, replies[1..], budget);
        var later := Poll(host, url, apiKey, reply.result, replies[1..], budget).requests;
        assert reqs == [Post(url, data)] + later;
        assert forall j :: 1 <= j < |reqs| ==> reqs[j] == later[j - 1];
        assert PostsThenGets(host, url, data, apiKey, replies, reqs, 0);
      }
    }
  }

  /** The error reports the reply that caused it. */
  predicate ReportsReply(e: Error, reply: Reply) {
    (e.SubmitError? || e.VerificationFailed? || e.StatusError?)
    && e.message == reply.message && e.result == reply.result
  }

  /** One status check: without a reply the transport fails; a pending
      reply with budget left is checked again with 5000 less; any other
      reply decides the check by `StatusVerdict`. */
  lemma PollStep(host: Host, url: string, apiKey: string, token: string, replies: seq<Reply>, budget: int)
    ensures var run := Poll(host, url, apiKey, token, replies, budget);
      var request := Get(url, apiKey, token);
      && (replies == [] ==> run == Run(Err(TransportError), [request]))
      && (replies != [] && replies[0].result == PendingText && budget > 0 ==>
            run == Prepend(request, Poll(host, url, apiKey, token, replies[1..], budget - SleepTime)))
      && (replies != [] && !(replies[0].result == PendingText && budget > 0) ==>
            run == Run(StatusVerdict(host, replies[0]), [request]))
  {
  }

  /** Each request consumes one reply; the run fails for lack of a reply
      exactly when it outlasts them, and otherwise the last reply it read
      decides the outcome, every earlier one having been pending. */
  lemma {:induction false} PollDecides(host: Host, url: string, apiKey: string, token: string, replies: seq<Reply>, budget: int)
    ensures var run := Poll(host, url, apiKey, token, replies, budget);
      && 1 <= |run.requests| <= |replies| + 1
      && (run.outcome == Err(TransportError) <==> |run.requests| == |replies| + 1)
      && (forall j :: 0 <= j < |run.requests| - 1 ==> replies[j].result == PendingText)
      && (run.outcome != Err(TransportError) ==>
            run.outcome == StatusVerdict(host, replies[|run.requests| - 1]))
    decreases Measure(budget)
  {
    if replies != [] && replies[0].result == PendingText && budget > 0 {
      PollDecides(host, url, apiKey, token, replies[1..], budget - SleepTime);
      var later := Poll(host, url, apiKey, token, replies[1..], budget - SleepTime);
      assert forall j :: 1 <= j < |later.requests| ==> replies[j] == replies[1..][j - 1];
    }
  }

  /** The same for a whole run. Every submission followed by another was
      refused for code Etherscan could not yet see, with budget left. A run
      that ends on a submission ends on a refused one, which is either
      "already verified" (`Ok(true)`) or an error reporting it; a run that
      ends on a status check ends as that check decides. */
  lemma {:induction false} SubmitDecides(host: Host, url: string, data: VerifyData, apiKey: string, replies: seq<Reply>, budget: int)
    ensures var run := Submit(host, url, data, apiKey, replies, budget);
      && 1 <= |run.requests| <= |replies| + 1
      && (run.outcome == Err(TransportError) <==> |run.requests| == |replies| + 1)
      && (forall j :: 0 <= j < |run.requests| - 1 && run.requests[j + 1].Post? ==>
            MissingCodeRetry(host, replies[j], budget - j * SleepTime))
      && (run.outcome != Err(TransportError) && run.requests[|run.requests| - 1].Post? ==>
            var last := replies[|run.requests| - 1];
            && !Accepted(host, last)
            && run.outcome == if Contains(last.result, AlreadyVerifiedText) then Ok(true)
                              else Err(SubmitError(last.message, last.result)))
      && (run.outcome != Err(TransportError) && run.requests[|run.requests| - 1].Get? ==>
            run.outcome == StatusVerdict(host, replies[|run.requests| - 1]))
    decreases Measure(budget)
  {
    SubmitRetriesOnlyMissingCode(host, url, data, apiKey, replies, budget);
    if replies != [] {
      var reply := replies[0];
      if !Accepted(host, reply) {
        if !Contains(reply.result, AlreadyVerifiedText) && Contains(reply.result, MissingCodeText) && budget > 0 {
          SubmitDecides(host, url, data, apiKey, replies[1..], budget - SleepTime);
          var later := Submit(host, url, data, apiKey, replies[1..], budget - SleepTime);
          if later.outcome != Err(TransportError) {
            SubmitDecidesStep(host, url, data, apiKey, replies, later);
          }
        }
      } else {
        PollDecides(host, url, apiKey, reply.result, replies[1..], budget);
        var later := Poll(host, url, apiKey, reply.result, replies[1..], budget);
        if later.outcome != Err(TransportError) {
          PollTrace(host, url, apiKey, reply.result, replies[1..], budget);
          SubmitDecidesStep(host, url, data, apiKey, replies, later);
        }
      }
    }
  }

  /** A refusal that `doVerify` answers by submitting again: code not yet
      visible to Etherscan, not already verified, with budget left. */
  predicate MissingCodeRetry(host: Host, reply: Reply, budget: int) {
    && !Accepted(host, reply) && !Contains(reply.result, AlreadyVerifiedText)
    && Contains(reply.result, MissingCodeText) && budget > 0
  }

  /** The submissions a run resends follow missing-code refusals only. */
  lemma {:induction false} SubmitRetriesOnlyMissingCode(host: Host, url: string, data: VerifyData, apiKey: string, replies: seq<Reply>, budget: int)
    ensures var run := Submit(host, url, data, apiKey, replies, budget);
      && |run.requests| <= |replies| + 1
      && forall j :: 0 <= j < |run.requests| - 1 && run.requests[j + 1].Post? ==>
           MissingCodeRetry(host, replies[j], budget - j * SleepTime)
    decreases Measure(budget)
  {
    var run := Submit(host, url, data, apiKey, replies, budget);
    if replies != [] {
      var reply := replies[0];
      if !Accepted(host, reply) {
        if !Contains(reply.result, AlreadyVerifiedText) && Contains(reply.result, MissingCodeText) && budget > 0 {
          SubmitRetriesOnlyMissingCode(host, url, data, apiKey, replies[1..], budget - SleepTime);
          var later := Submit(host, url, data, apiKey, replies[1..], budget - SleepTime);
          forall j | 1 <= j < |run.requests| - 1 && run.requests[j + 1].Post?
            ensures MissingCodeRetry(host, replies[j], budget - j * SleepTime)
          {
            assert run.requests[j + 1] == later.requests[j];
            assert replies[j] == replies[1..][j - 1];
            assert budget - j * SleepTime == (budget - SleepTime) - (j - 1) * SleepTime;
          }
        }
      } else {
        PollTrace(host, url, apiKey, reply.result, replies[1..], budget);
        PollDecides(host, url, apiKey, reply.result, replies[1..], budget);
        var later := Poll(host, url, apiKey, reply.result, replies[1..], budget);
        assert forall j :: 0 <= j < |run.requests| - 1 ==> run.requests[j + 1] == later.requests[j];
      }
    }
  }

  /** A run that follows the first reply with `later` ends as `later` does,
      and its last request and the reply it read are `later`'s. */
  lemma SubmitDecidesStep(host: Host, url: string, data: VerifyData, apiKey: string, replies: seq<Reply>, later: Run)
    requires 1 <= |later.requests| < |replies|
    ensures var run := Prepend(Post(url, data), later);
      && |run.requests| == |later.requests| + 1
      && run.requests[|run.requests| - 1] == later.requests[|later.requests| - 1]
      && replies[|run.requests| - 1] == replies[1..][|later.requests| - 1]
  {
  }

  /** Replies after the one that decided the run are never read. */
  lemma {:induction false} PollIgnoresLaterReplies(host: Host, url: string, apiKey: string, token: string, replies: seq<Reply>, more: seq<Reply>, budget: int)
    requires Poll(host, url, apiKey, token, replies, budget).outcome != Err(TransportError)
    ensures Poll(host, url, apiKey, token, replies + more, budget) == Poll(host, url, apiKey, token, replies, budget)
    decreases Measure(budget)
  {
    assert replies != [];
    assert (replies + more)[0] == replies[0] && (replies + more)[1..] == replies[1..] + more;
    if replies[0].result == PendingText && budget > 0 {
      PollIgnoresLaterReplies(host, url, apiKey, token, replies[1..], more, budget - SleepTime);
    }
  }

  lemma {:induction false} SubmitIgnoresLaterReplies(host: Host, url: string, data: VerifyData, apiKey: string, replies: seq<Reply>, more: seq<Reply>, budget: int)
    requires Submit(host, url, data, apiKey, replies, budget).outcome != Err(TransportError)
    ensures Submit(host, url, data, apiKey, replies + more, budget) == Submit(host, url, data, apiKey, replies, budget)
    decreases Measure(budget)
  {
    assert replies != [];
    var reply := replies[0];
    assert (replies + more)[0] == reply && (replies + more)[1..] == replies[1..] + more;
    if !Accepted(host, reply) {
      if !Contains(reply.result, AlreadyVerifiedText) && Contains(reply.result, MissingCodeText) && budget > 0 {
        SubmitIgnoresLaterReplies(host, url, data, apiKey, replies[1..], more, budget - SleepTime);
      }
    } else {
      PollIgnoresLaterReplies(host, url, apiKey, reply.result, replies[1..], more, budget);
    }
  }

  /** A run that waits once for the code and once in the queue: the
      replies are those quoted in the source's comments. */
  lemma ExampleRun(host: Host, url: string, data: VerifyData, apiKey: string, guid: string, replies: seq<Reply>)
    requires host.toNumber("0") == Finite(0.0) && host.toNumber("1") == Finite(1.0)
    requires replies == [
      Reply("0", "NOTOK", MissingCodeText),
      Reply("1", "OK", guid),
      Reply("0", "NOTOK", PendingText),
      Reply("1", "OK", "Pass - Verified")]
    ensures Submit(host, url, data, apiKey, replies, WaitTime)
      == Run(Ok(false), [Post(url, data), Post(url, data), Get(url, apiKey, guid), Get(url, apiKey, guid)])
  {
    assert !Contains(MissingCodeText, AlreadyVerifiedText);
    assert StartsWith(MissingCodeText, MissingCodeText);
    MissingCodeRetries(host, url, data, apiKey, replies, WaitTime);
    assert replies[1..][0] == Reply("1", "OK", guid);
    AcceptedStartsPolling(host, url, data, apiKey, replies[1..], WaitTime - SleepTime);
    assert replies[1..][1..] == replies[2..] && replies[2..][1..] == replies[3..];
    assert replies[3..] == [Reply("1", "OK", "Pass - Verified")];
    assert "Pass - Verified"[0] != FailPrefix[0];
    var last := Poll(host, url, apiKey, guid, replies[3..], WaitTime - 2 * SleepTime);
    assert last == Run(Ok(false), [Get(url, apiKey, guid)]);
  }

  /** A failed verification is reported as such, not as a status error. */
  lemma ExampleFailure(host: Host, url: string, apiKey: string, token: string, budget: int)
    ensures Poll(host, url, apiKey, token, [Reply("0", "NOTOK", "Fail - Unable to verify")], budget)
      == Run(Err(VerificationFailed("NOTOK", "Fail - Unable to verify")), [Get(url, apiKey, token)])
  {
    assert "Fail - Unable to verify"[..4] == FailPrefix;
  }

  /** `verifyContract`: the request is built, the protocol run, and the
      contract's page returned. That page cannot fail once the API URL did,
      since both tables list the same networks. */
  method VerifyContract(
    contractJson: Contract.ContractJson, host: Host, network: string,
    apiKey: string, address: string, constructorData: string, replies: seq<Reply>)
    returns (r: Result<VerificationResult, Error>, sent: seq<Request>)
    ensures var p := PrepareVerification(contractJson, host, network, apiKey, address, constructorData);
      && (p.Err? ==> r == Err(p.error) && sent == [])
      && (p.Ok? ==>
            var run := Submit(host, p.value.url, p.value.data, apiKey, replies, WaitTime);
            && sent == run.requests
            && (run.outcome.Err? ==> r == Err(run.outcome.error))
            && (run.outcome.Ok? ==>
                  r == Ok(VerificationResult(true, "https://" + BrowserHosts[network] + "/address/" + address, run.outcome.value))))
  {
    var p := PrepareVerification(contractJson, host, network, apiKey, address, constructorData);
    if p.Err? {
      return Err(p.error), [];
    }
    var alreadyVerified;
    alreadyVerified, sent := DoVerify(host, p.value.url, p.value.data, apiKey, replies, WaitTime);
    if alreadyVerified.Err? {
      return Err(alreadyVerified.error), sent;
    }
    SameNetworks(network);
    var page := EtherscanContractUrl(network, address);
    r := Ok(VerificationResult(true, page.value, alreadyVerified.value));
  }
}
