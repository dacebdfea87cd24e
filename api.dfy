/** Network resolution (src/api.ts): a network name selects an Etherscan
    host from one of two constant tables, and the URLs are string templates
    around that host. The HTTP client of the same file is not modelled; its
    replies are given to the other modules as `Reply` values. */
module Api {
  import opened Wrappers
  import opened Errors

  /** The envelope every Etherscan endpoint answers with. */
  datatype Reply = Reply(status: string, message: string, result: string)

  const KnownNetworks: set<string> := {"kovan", "rinkeby", "ropsten", "goerli", "mainnet"}

  /** Hosts of the API endpoints. */
  const ApiHosts: map<string, string> := map[
    "kovan" := "api-kovan.etherscan.io",
    "rinkeby" := "api-rinkeby.etherscan.io",
    "ropsten" := "api-ropsten.etherscan.io",
    "goerli" := "api-goerli.etherscan.io",
    "mainnet" := "api.etherscan.io"
  ]

  /** Hosts of the pages people browse. */
  const BrowserHosts: map<string, string> := map[
    "kovan" := "kovan.etherscan.io",
    "rinkeby" := "rinkeby.etherscan.io",
    "ropsten" := "ropsten.etherscan.io",
    "goerli" := "goerli.etherscan.io",
    "mainnet" := "etherscan.io"
  ]

  /** The API base URL of a network; a missing (or empty) host is an error. */
  function EtherscanApiUrl(network: string): (r: Result<string, Error>)
    ensures r.Ok? <==> network in KnownNetworks
    ensures r.Ok? ==> r.value == "https://" + ApiHosts[network] + "/api"
    ensures r.Err? ==> r.error == UnknownApiHost(network)
  {
    if network !in ApiHosts || ApiHosts[network] == "" then Err(UnknownApiHost(network))
    else Ok("https://" + ApiHosts[network] + "/api")
  }

  /** The browsing base URL of a network; a missing (or empty) host is an error. */
  function EtherscanUrl(network: string): (r: Result<string, Error>)
    ensures r.Ok? <==> network in KnownNetworks
    ensures r.Ok? ==> r.value == "https://" + BrowserHosts[network]
    ensures r.Err? ==> r.error == UnknownHost(network)
  {
    if network !in BrowserHosts || BrowserHosts[network] == "" then Err(UnknownHost(network))
    else Ok("https://" + BrowserHosts[network])
  }

  /** The page of one contract address. */
  function EtherscanContractUrl(network: string, address: string): (r: Result<string, Error>)
    ensures r.Ok? <==> EtherscanUrl(network).Ok?
    ensures r.Ok? ==> r.value == EtherscanUrl(network).value + "/address/" + address
    ensures r.Err? ==> r.error == UnknownHost(network)
  {
    var base :- EtherscanUrl(network);
    Ok(base + "/address/" + address)
  }

  /** The two tables list the same networks, so a name is accepted by one
      resolver exactly when it is accepted by the other. */
  lemma SameNetworks(network: string)
    ensures EtherscanApiUrl(network).Ok? <==> EtherscanUrl(network).Ok?
    ensures ApiHosts.Keys == BrowserHosts.Keys == KnownNetworks
  {
  }

  /** Different networks resolve to different URLs, so a URL names its
      network. */
  lemma {:induction false} UrlsAreDistinct(n1: string, n2: string)
    requires n1 in KnownNetworks && n2 in KnownNetworks && n1 != n2
    ensures EtherscanApiUrl(n1).value != EtherscanApiUrl(n2).value
    ensures EtherscanUrl(n1).value != EtherscanUrl(n2).value
  {
    var a1, a2 := ApiHosts[n1], ApiHosts[n2];
    var b1, b2 := BrowserHosts[n1], BrowserHosts[n2];
    assert b1 != b2 by {
      HostsDiffer(n1, n2);
    }
    assert a1 != a2 by {
      HostsDiffer(n1, n2);
    }
    PrefixSuffixInjective("https://", a1, a2, "/api");
    PrefixSuffixInjective("https://", b1, b2, "");
  }

  lemma HostsDiffer(n1: string, n2: string)
    requires n1 in KnownNetworks && n2 in KnownNetworks && n1 != n2
    ensures ApiHosts[n1] != ApiHosts[n2] && BrowserHosts[n1] != BrowserHosts[n2]
  {
    // The browsing hosts differ in their first four characters (or their
    // length, for mainnet), and so do the API hosts.
    assert BrowserHosts["kovan"][..4] == "kova";
    assert BrowserHosts["rinkeby"][..4] == "rink";
    assert BrowserHosts["ropsten"][..4] == "rops";
    assert BrowserHosts["goerli"][..4] == "goer";
    assert ApiHosts["kovan"][4..8] == "kova";
    assert ApiHosts["rinkeby"][4..8] == "rink";
    assert ApiHosts["ropsten"][4..8] == "rops";
    assert ApiHosts["goerli"][4..8] == "goer";
  }

  lemma PrefixSuffixInjective(p: string, a: string, b: string, q: string)
    requires a != b
    ensures p + a + q != p + b + q
  {
    if |a| == |b| {
      var i :| 0 <= i < |a| && a[i] != b[i];
      assert (p + a + q)[|p| + i] != (p + b + q)[|p| + i];
    }
  }
}
