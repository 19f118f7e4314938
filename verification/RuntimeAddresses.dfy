/** The addresses that the installer derives, said of their hosts and labels. */
module RuntimeAddresses {
  import opened ConfigTree
  import opened Dictionary
  import opened EnvFile
  import opened JsonText
  import opened Options
  import opened RuntimeConfig

  /** Letters, digits and hyphens. */
  predicate IsLabel(s: string) {
    s != "" && forall i | 0 <= i < |s| :: 'A' <= s[i] <= 'Z' || 'a' <= s[i] <= 'z' || '0' <= s[i] <= '9' || s[i] == '-'
  }

  /** Those, and dots. */
  predicate IsHost(s: string) {
    s != "" && forall i | 0 <= i < |s| ::
      'A' <= s[i] <= 'Z' || 'a' <= s[i] <= 'z' || '0' <= s[i] <= '9' || s[i] == '-' || s[i] == '.'
  }

  /** An exact https origin, and nothing else, has a host. */
  lemma HostOfOrigin(url: string, host: string)
    ensures HostOf(url) == Some(host) <==> IsHost(host) && url == "https://" + host
  {
    var prefix := "https://";
    if HostOf(url) == Some(host) {
      assert url == prefix + host;
      forall i | 0 <= i < |host| ensures HostChar(host[i]) { assert host[i] == url[8 + i]; }
    }
    if IsHost(host) && url == prefix + host {
      assert url[8..] == host;
      forall i | 8 <= i < |url| ensures HostChar(url[i]) { assert url[i] == host[i - 8]; }
    }
  }

  lemma {:induction false} LengthOfLabel(first: string, rest: string)
    requires '.' !in first && (rest == "" || rest[0] == '.')
    ensures LabelLength(first + rest) == |first|
  {
    if first == "" {
      assert first + rest == rest;
    } else {
      assert first[0] in first && (first + rest)[1..] == first[1..] + rest;
      LengthOfLabel(first[1..], rest);
    }
  }

  lemma FirstLabel(first: string, rest: string)
    requires IsLabel(first) && IsHost(rest)
    ensures var host := first + "." + rest;
            IsHost(host) && LabelLength(host) == |first| && host[..|first|] == first && host[|first| + 1..] == rest
  {
    var host := first + "." + rest;
    assert host == first + ("." + rest);
    LengthOfLabel(first, "." + rest);
  }

  /** The address of the API is that of the application with "-api" after the first label of the host. */
  lemma ApiBesideApp(first: string, rest: string)
    requires IsLabel(first) && IsHost(rest)
    ensures DefaultApi("https://" + (first + "." + rest)) == Some("https://" + first + "-api." + rest)
  {
    var host := first + "." + rest;
    var url := "https://" + host;
    FirstLabel(first, rest);
    HostOfOrigin(url, host);
    assert url[4] == 's' && LOCAL_APP[4] == ':';
  }

  /** Of no other address but the local one is it derived. */
  lemma OnlyThenDerived(url: string)
    ensures DefaultApi("http://localhost:4021") == Some("http://localhost:4020")
    ensures DefaultApi(url).Some? && url != "http://localhost:4021" ==>
              exists first, rest :: IsLabel(first) && IsHost(rest) && url == "https://" + (first + "." + rest)
  {
    if DefaultApi(url).Some? && url != LOCAL_APP {
      var host := HostOf(url).value;
      HostOfOrigin(url, host);
      var n := LabelLength(host);
      HostSplits(host, n);
      assert url == "https://" + (host[..n] + "." + host[n + 1..]);
    }
  }

  lemma HostSplits(host: string, n: nat)
    requires IsHost(host) && n == LabelLength(host) && 0 < n && n + 1 < |host|
    ensures IsLabel(host[..n]) && IsHost(host[n + 1..]) && host == host[..n] + "." + host[n + 1..]
  {
    LabelEnds(host);
    PartOfHost(host, 0, n);
    HostWithoutDots(host[..n]);
    PartOfHost(host, n + 1, |host|);
    SplitsAt(host, n);
  }

  lemma PartOfHost(host: string, lo: nat, hi: nat)
    requires IsHost(host) && lo < hi <= |host|
    ensures IsHost(host[lo..hi])
    ensures lo == 0 ==> host[lo..hi] == host[..hi]
    ensures hi == |host| ==> host[lo..hi] == host[lo..]
  {
  }

  lemma SplitsAt(s: string, n: nat)
    requires n < |s| && s[n] == '.'
    ensures s == s[..n] + "." + s[n + 1..]
  {
  }

  lemma HostWithoutDots(s: string)
    requires IsHost(s) && '.' !in s
    ensures IsLabel(s)
  {
    forall i | 0 <= i < |s| ensures s[i] != '.' { assert s[i] in s; }
  }

  lemma {:induction false} LabelEnds(host: string)
    ensures var n := LabelLength(host); '.' !in host[..n] && (n < |host| ==> host[n] == '.')
  {
    if host != "" && host[0] != '.' {
      LabelEnds(host[1..]);
      var n := LabelLength(host);
      assert host[..n] == [host[0]] + host[1..][..n - 1];
    }
  }

  /** A local installation has no gateway, a public one that of its application, which has to be an exact https origin. */
  lemma GatewayOfMode(config: Json)
    ensures var mode, app := TextAt(config, ["installation", "mode"], "local"), TextAt(config, ["installation", "appUrl"], "");
            && (mode == "local" ==> GatewayDomain(config) == Some(""))
            && (mode != "local" ==> forall host: string :: GatewayDomain(config) == Some(host) <==> IsHost(host) && app == "https://" + host)
  {
    var app := TextAt(config, APP_PATH, "");
    forall host: string ensures HostOf(app) == Some(host) <==> IsHost(host) && app == "https://" + host { HostOfOrigin(app, host); }
  }

  /** When the domains of a configuration are accepted. */
  lemma DomainsAccepted(config: Json, values: Entries<string>)
    ensures var mode := Or(Find(values, "TOWBAR_INSTALL_MODE"), "local");
            var api := ApiOf(values);
            WithDomains(config, values).Some? <==>
              && GatewayDomain(config).Some? && api.Some?
              && (if mode == "public" then HostOf(api.value).Some? && Find(values, "TOWBAR_APP_BASE_URL") != api
                  else mode == "local" && api.value == "http://localhost:4020")
  {
  }

  /** The address of the API that is given, or else derived. */
  function ApiOf(values: Entries<string>): Option<string> {
    if Find(values, "TOWBAR_API_BASE_URL").Some? then Find(values, "TOWBAR_API_BASE_URL")
    else DefaultApi(Or(Find(values, "TOWBAR_APP_BASE_URL"), "http://localhost:4021"))
  }

  /** What they add to the settings. */
  lemma DomainsAdded(config: Json, values: Entries<string>)
    requires WithDomains(config, values).Some?
    ensures var env := WithDomains(config, values).value;
            && Find(env, "COMPOSE_PROFILES") == Some(Or(Find(values, "TOWBAR_INSTALL_MODE"), "local"))
            && Find(env, "TOWBAR_API_BASE_URL") == ApiOf(values) && Find(env, "TOWBAR_GATEWAY_DOMAIN") == GatewayDomain(config)
            && (Find(env, "COMPOSE_PROFILES") == Some("public") ==>
                  Find(env, "TOWBAR_GATEWAY_API_DOMAIN") == HostOf(ApiOf(values).value))
  {
    var api := ApiOf(values).value;
    var one := Put(values, GATEWAY, GatewayDomain(config).value);
    var two := Put(one, API_URL, api);
    FindAfterPut(values, GATEWAY, GatewayDomain(config).value, GATEWAY);
    FindAfterPut(one, API_URL, api, GATEWAY);
    FindAfterPut(one, API_URL, api, API_URL);
    if HostOf(api).Some? { AddedLast(two, HostOf(api).value); }
  }

  lemma AddedLast(d: Entries<string>, host: string)
    ensures var env := Put(d, GATEWAY_API, host);
            Find(env, GATEWAY) == Find(d, GATEWAY) && Find(env, API_URL) == Find(d, API_URL) && Find(env, GATEWAY_API) == Some(host)
  {
    FindAfterPut(d, GATEWAY_API, host, GATEWAY);
    FindAfterPut(d, GATEWAY_API, host, API_URL);
    FindAfterPut(d, GATEWAY_API, host, GATEWAY_API);
  }
}
