/** Accepted configurations that do not go round: with the address of their API given the default
    address is still derived, and a value may hold a character that ends a line of the rendered file. */
module RuntimeUnreadable {
  import opened ConfigTree
  import opened Dictionary
  import opened EnvFile
  import opened EnvRoundTrip
  import opened JsonText
  import opened Options
  import opened RuntimeConfig
  import opened RuntimeReadBack
  import opened RuntimeRoundTrip

  function Installation(appUrl: string, api: string): Json {
    Object(Entry("mode", Text("public"), Entry("appUrl", Text(appUrl), Entry("apiBaseUrl", Text(api), NoEntry))))
  }

  function PublicConfig(appUrl: string, api: string): Json {
    Object(Entry("version", Number("1"), Entry("installation", Installation(appUrl, api), NoEntry)))
  }

  lemma FindInInstallation(appUrl: string, api: string, k: string)
    ensures Find(Installation(appUrl, api).fields, k)
            == if k == "mode" then Some(Text("public")) else if k == "appUrl" then Some(Text(appUrl))
               else if k == "apiBaseUrl" then Some(Text(api)) else None
  {
    var entries := Installation(appUrl, api).fields;
    assert Find(entries.rest.rest, k) == if k == "apiBaseUrl" then Some(Text(api)) else None;
    assert Find(entries.rest, k) == if k == "appUrl" then Some(Text(appUrl)) else Find(entries.rest.rest, k);
  }

  lemma FindInConfig(appUrl: string, api: string, k: string)
    requires k != "version"
    ensures Find(PublicConfig(appUrl, api).fields, k) == if k == "installation" then Some(Installation(appUrl, api)) else None
  {
    var entries := PublicConfig(appUrl, api).fields;
    assert Find(entries.rest, k) == if k == "installation" then Some(Installation(appUrl, api)) else None;
  }

  lemma InstallationAt(appUrl: string, api: string, path: Path)
    requires path != [] && Get(Installation(appUrl, api), path).Some?
    ensures path in {["mode"], ["appUrl"], ["apiBaseUrl"]} && Get(Installation(appUrl, api), path).value.Text?
  {
    FindInInstallation(appUrl, api, path[0]);
    var child := Find(Installation(appUrl, api).fields, path[0]).value;
    assert Get(child, path[1..]) == Get(Installation(appUrl, api), path);
    assert child.Text? && path[1..] == [];
    assert path == [path[0]];
  }

  lemma PublicConfigAt(appUrl: string, api: string, path: Path)
    requires path != [] && path[0] != "version" && Get(PublicConfig(appUrl, api), path).Some?
    ensures path[0] == "installation"
    ensures path[1..] in {[], ["mode"], ["appUrl"], ["apiBaseUrl"]}
  {
    FindInConfig(appUrl, api, path[0]);
    if |path| > 1 { InstallationAt(appUrl, api, path[1..]); }
  }

  lemma SettingAt(appUrl: string, api: string, k: string)
    ensures Get(PublicConfig(appUrl, api), ["installation", k]) == Find(Installation(appUrl, api).fields, k)
  {
    var path := ["installation", k];
    assert path[1..] == [k] && [k][1..] == [];
    FindInConfig(appUrl, api, "installation");
    assert Get(PublicConfig(appUrl, api), path) == Get(Installation(appUrl, api), [k]);
  }

  lemma SettingsAt(appUrl: string, api: string)
    ensures Get(PublicConfig(appUrl, api), MODE_PATH) == Some(Text("public"))
    ensures Get(PublicConfig(appUrl, api), APP_PATH) == Some(Text(appUrl))
    ensures Get(PublicConfig(appUrl, api), API_PATH) == Some(Text(api))
  {
    SettingAt(appUrl, api, "mode");
    SettingAt(appUrl, api, "appUrl");
    SettingAt(appUrl, api, "apiBaseUrl");
    FindInInstallation(appUrl, api, "mode");
    FindInInstallation(appUrl, api, "appUrl");
    FindInInstallation(appUrl, api, "apiBaseUrl");
  }

  lemma HostHasNoBreak(url: string)
    requires HostOf(url).Some?
    ensures '\n' !in url && '\r' !in url
  {
    assert url == "https://" + url[8..];
    forall i | 8 <= i < |url| ensures url[i] != '\n' && url[i] != '\r' {
      assert HostChar(url[i]);
    }
  }

  /** A field with a value in these configurations is one of three. */
  lemma OnlyThreeFields(fields: seq<Field>, appUrl: string, api: string, f: Field)
    requires Table(fields) && f in fields && Get(PublicConfig(appUrl, api), f.path).Some?
    ensures f in {Field(MODE, MODE_PATH, Str), Field(APP_URL, APP_PATH, Str), Field(API_URL, API_PATH, Str)}
  {
    assert Proper(f);
    PublicConfigAt(appUrl, api, f.path);
    assert f.path == ["installation"] + f.path[1..];
    SameIfNotApart(fields, f, Field(MODE, MODE_PATH, Str));
    SameIfNotApart(fields, f, Field(APP_URL, APP_PATH, Str));
    SameIfNotApart(fields, f, Field(API_URL, API_PATH, Str));
    assert f.path[1..] == [] ==> !Apart(f.path, MODE_PATH);
  }

  lemma FieldsAreFormatted(fields: seq<Field>, appUrl: string, api: string, f: Field)
    requires Table(fields) && f in fields && HostOf(appUrl).Some? && HostOf(api).Some?
    ensures !TextOf(PublicConfig(appUrl, api), f).Bad?
  {
    if Get(PublicConfig(appUrl, api), f.path).Some? {
      OnlyThreeFields(fields, appUrl, api, f);
      SettingsAt(appUrl, api);
      HostHasNoBreak(appUrl);
      HostHasNoBreak(api);
    }
  }

  lemma SameIfNotApart(fields: seq<Field>, f: Field, g: Field)
    requires Separate(fields) && f in fields && g in fields && f.key != NOTIFICATIONS && g.key != NOTIFICATIONS
    ensures f == g || Apart(f.path, g.path)
    ensures f.path == g.path ==> f == g
  {
    if f.key == g.key { SameKeySameField(fields, f, g); }
    else {
      FieldsApart(fields, f, g);
      NotApartFromLonger(f.path, f.path);
    }
  }

  lemma {:induction false} NotApartFromLonger(path: Path, longer: Path)
    requires path <= longer
    ensures !Apart(path, longer)
  {
    if path != [] { NotApartFromLonger(path[1..], longer[1..]); }
  }

  lemma {:induction false} TextsSucceed(fields: seq<Field>, config: Json)
    requires forall f | f in fields :: !TextOf(config, f).Bad?
    ensures FieldTexts(fields, config).Some?
    decreases |fields|
  {
    if fields != [] { TextsSucceed(fields[..|fields| - 1], config); }
  }

  lemma KnownText(leaves: set<Path>, at: Path, k: string, s: string, rest: Entries<Json>)
    requires at + [k] in leaves && KnownEntries(leaves, at, rest)
    ensures KnownEntries(leaves, at, Entry(k, Text(s), rest))
  {
    assert Known(leaves, at + [k], Text(s));
  }

  lemma InstallationIsKnown(leaves: set<Path>, appUrl: string, api: string)
    requires {MODE_PATH, APP_PATH, API_PATH} <= leaves
    ensures Known(leaves, ["installation"], Installation(appUrl, api))
  {
    var at := ["installation"];
    assert at + ["mode"] == MODE_PATH && at + ["appUrl"] == APP_PATH && at + ["apiBaseUrl"] == API_PATH;
    var entries := Installation(appUrl, api).fields;
    KnownText(leaves, at, "apiBaseUrl", api, NoEntry);
    KnownText(leaves, at, "appUrl", appUrl, entries.rest.rest);
    KnownText(leaves, at, "mode", "public", entries.rest);
  }

  lemma PublicConfigIsKnown(fields: seq<Field>, appUrl: string, api: string)
    requires Table(fields)
    ensures KnownEntries(Leaves(fields), [], Remove(PublicConfig(appUrl, api).fields, "version"))
  {
    var leaves, at := Leaves(fields), ["installation"];
    assert Field(MODE, MODE_PATH, Str).path in leaves && Field(APP_URL, APP_PATH, Str).path in leaves
           && Field(API_URL, API_PATH, Str).path in leaves;
    InstallationIsKnown(leaves, appUrl, api);
    var empty: Path := [];
    assert empty + ["installation"] == at && at <= MODE_PATH;
    var last := Entry("installation", Installation(appUrl, api), NoEntry);
    assert Remove(last, "version") == last;
    assert KnownEntries(leaves, empty, NoEntry);
    assert KnownEntries(leaves, empty, last);
  }

  lemma PublicDomains(config: Json, values: Entries<string>, appUrl: string, api: string)
    requires HostOf(appUrl).Some? && HostOf(api).Some? && appUrl != api && GatewayDomain(config) == HostOf(appUrl)
    requires Find(values, MODE) == Some("public") && Find(values, APP_URL) == Some(appUrl) && Find(values, API_URL) == Some(api)
    ensures WithDomains(config, values).Some?
  {
  }

  lemma PublicConfigIsAccepted(fields: seq<Field>, appUrl: string, api: string)
    requires Table(fields) && HostOf(appUrl).Some? && HostOf(api).Some? && appUrl != api
    ensures ToEnv(fields, PublicConfig(appUrl, api)).Some?
  {
    var config := PublicConfig(appUrl, api);
    forall f | f in fields ensures !TextOf(config, f).Bad? { FieldsAreFormatted(fields, appUrl, api, f); }
    TextsSucceed(fields, config);
    PublicConfigIsKnown(fields, appUrl, api);
    SettingsAt(appUrl, api);
    PlainSetting(fields, config, Field(MODE, MODE_PATH, Str));
    PlainSetting(fields, config, Field(APP_URL, APP_PATH, Str));
    PlainSetting(fields, config, Field(API_URL, API_PATH, Str));
    PublicDomains(config, FieldTexts(fields, config).value, appUrl, api);
  }

  lemma {:induction false} NoDot(host: string)
    requires '.' !in host
    ensures LabelLength(host) == |host|
  {
    if host != "" {
      assert host[0] in host;
      NoDot(host[1..]);
    }
  }

  lemma ConfigIsWellFormed(appUrl: string, api: string)
    ensures WellFormed(PublicConfig(appUrl, api))
  {
    var entries := Installation(appUrl, api).fields;
    var none: Entries<Json> := NoEntry;
    assert Keys(none) == {} && WellFormedFields(none);
    assert Keys(entries.rest.rest) == {"apiBaseUrl"} && WellFormedFields(entries.rest.rest);
    assert Keys(entries.rest) == {"appUrl", "apiBaseUrl"} && WellFormedFields(entries.rest);
    assert "mode" !in Keys(entries.rest);
    assert WellFormedFields(entries);
    assert WellFormed(Installation(appUrl, api));
    var last := Entry("installation", Installation(appUrl, api), NoEntry);
    assert WellFormedFields(last);
    assert Keys(last) == {"installation"};
    assert IsNumber("1");
  }

  lemma NotDerivable(appUrl: string)
    requires HostOf(appUrl).Some? && '.' !in HostOf(appUrl).value && appUrl != LOCAL_APP
    ensures DefaultApi(appUrl).None?
  {
    NoDot(HostOf(appUrl).value);
  }

  /** With a host that has no dot the configuration is accepted and its environment is refused. */
  lemma GivenApiIsNotEnough(fields: seq<Field>, appUrl: string, api: string)
    requires Table(fields) && HostOf(appUrl).Some? && HostOf(api).Some? && appUrl != api && appUrl != LOCAL_APP
    requires '.' !in HostOf(appUrl).value
    ensures Get(PublicConfig(appUrl, api), API_PATH) == Some(Text(api))
    ensures ToEnv(fields, PublicConfig(appUrl, api)).Some?
    ensures FromEnv(fields, ToEnv(fields, PublicConfig(appUrl, api)).value).None?
  {
    SettingsAt(appUrl, api);
    PublicConfigIsAccepted(fields, appUrl, api);
    NotDerivable(appUrl);
    var config := PublicConfig(appUrl, api);
    assert AppUrl(config) == appUrl;
    ConfigIsWellFormed(appUrl, api);
    ReadsBackIffDerivable(fields, config);
  }

  // ---------- through the file ----------

  function Gitlab(uri: string): Json {
    Object(Entry("gitlab", Object(Entry("oauthRedirectUri", Text(uri), NoEntry)), NoEntry))
  }

  /** A local configuration that only sets the callback of GitLab. */
  function CallbackConfig(uri: string): Json {
    Object(Entry("version", Number("1"), Entry("integrations", Gitlab(uri), NoEntry)))
  }

  lemma FindOne(k: string, x: Json, j: string)
    ensures Find(Entry(k, x, NoEntry), j) == if j == k then Some(x) else None
  {
  }

  lemma GetStep(entries: Entries<Json>, path: Path)
    requires path != []
    ensures Get(Object(entries), path) == if Find(entries, path[0]).None? then None else Get(Find(entries, path[0]).value, path[1..])
  {
  }

  lemma CallbackAt(uri: string, path: Path)
    requires path != [] && path[0] != "version" && Get(CallbackConfig(uri), path).Some?
    ensures path == ["integrations"] || path == ["integrations", "gitlab"]
            || (path == REDIRECT_PATH && Get(CallbackConfig(uri), path) == Some(Text(uri)))
  {
    FindOne("integrations", Gitlab(uri), path[0]);
    GetStep(CallbackConfig(uri).fields, path);
    assert path == ["integrations"] + path[1..];
    if |path| > 1 {
      var rest := path[1..];
      FindOne("gitlab", Gitlab(uri).fields.value, rest[0]);
      GetStep(Gitlab(uri).fields, rest);
      assert rest == ["gitlab"] + rest[1..];
      if |rest| > 1 {
        var last := rest[1..];
        FindOne("oauthRedirectUri", Text(uri), last[0]);
        GetStep(Gitlab(uri).fields.value.fields, last);
        assert last == ["oauthRedirectUri"] + last[1..];
      }
    }
  }

  lemma CallbackIsSet(uri: string)
    ensures Get(CallbackConfig(uri), REDIRECT_PATH) == Some(Text(uri))
  {
    var rest := REDIRECT_PATH[1..];
    assert rest == ["gitlab", "oauthRedirectUri"] && rest[1..] == ["oauthRedirectUri"] && rest[1..][1..] == [];
    FindOne("integrations", Gitlab(uri), "integrations");
    GetStep(CallbackConfig(uri).fields, REDIRECT_PATH);
    FindOne("gitlab", Gitlab(uri).fields.value, "gitlab");
    GetStep(Gitlab(uri).fields, rest);
    FindOne("oauthRedirectUri", Text(uri), "oauthRedirectUri");
    GetStep(Gitlab(uri).fields.value.fields, rest[1..]);
  }

  lemma OnlyCallback(fields: seq<Field>, uri: string, f: Field)
    requires Table(fields) && f in fields && Get(CallbackConfig(uri), f.path).Some?
    ensures f == Field(REDIRECT, REDIRECT_PATH, Str)
  {
    assert Proper(f);
    CallbackAt(uri, f.path);
    NotApartFromLonger(f.path, REDIRECT_PATH);
    SameIfNotApart(fields, f, Field(REDIRECT, REDIRECT_PATH, Str));
  }

  lemma CallbackIsKnown(fields: seq<Field>, uri: string)
    requires Table(fields)
    ensures KnownEntries(Leaves(fields), [], Remove(CallbackConfig(uri).fields, "version"))
  {
    var leaves := Leaves(fields);
    assert Field(REDIRECT, REDIRECT_PATH, Str).path in leaves;
    var top: Path := [];
    var one, two := top + ["integrations"], ["integrations"] + ["gitlab"];
    assert one == ["integrations"] && one <= REDIRECT_PATH && two <= REDIRECT_PATH;
    assert two + ["oauthRedirectUri"] == REDIRECT_PATH;
    var inner := Entry("oauthRedirectUri", Text(uri), NoEntry);
    KnownText(leaves, two, "oauthRedirectUri", uri, NoEntry);
    assert Known(leaves, two, Object(inner));
    assert KnownEntries(leaves, one, Gitlab(uri).fields);
    assert Known(leaves, one, Gitlab(uri));
    var outer := Entry("integrations", Gitlab(uri), NoEntry);
    assert Remove(outer, "version") == outer;
    assert KnownEntries(leaves, top, outer);
  }

  lemma LocalDomains(config: Json, values: Entries<string>)
    requires Get(config, MODE_PATH).None?
    requires Find(values, MODE).None? && Find(values, APP_URL).None? && Find(values, API_URL).None?
    ensures WithDomains(config, values).Some?
  {
  }

  lemma NothingAt(uri: string, path: Path)
    requires path == MODE_PATH || path == APP_PATH || path == API_PATH
    ensures Get(CallbackConfig(uri), path).None?
  {
    if Get(CallbackConfig(uri), path).Some? { CallbackAt(uri, path); }
  }

  lemma CallbackIsAccepted(fields: seq<Field>, uri: string)
    requires Table(fields) && '\n' !in uri && '\r' !in uri
    ensures FieldTexts(fields, CallbackConfig(uri)).Some? && ToEnv(fields, CallbackConfig(uri)).Some?
  {
    var config := CallbackConfig(uri);
    forall f | f in fields ensures !TextOf(config, f).Bad? {
      if Get(config, f.path).Some? {
        OnlyCallback(fields, uri, f);
        CallbackIsSet(uri);
      }
    }
    TextsSucceed(fields, config);
    CallbackIsKnown(fields, uri);
    NothingAt(uri, MODE_PATH);
    NothingAt(uri, APP_PATH);
    NothingAt(uri, API_PATH);
    PlainSetting(fields, config, Field(MODE, MODE_PATH, Str));
    PlainSetting(fields, config, Field(APP_URL, APP_PATH, Str));
    PlainSetting(fields, config, Field(API_URL, API_PATH, Str));
    LocalDomains(config, FieldTexts(fields, config).value);
  }

  lemma {:induction false} UnbrokenAt(d: Entries<string>, k: string)
    requires AllUnbroken(d) && Find(d, k).Some?
    ensures Unbroken(Find(d, k).value)
  {
    if d.key != k { UnbrokenAt(d.rest, k); }
  }

  /** A callback with a line break other than the two that are refused is accepted and rendered,
      and the rendered file is not read back as it was. */
  lemma BrokenCallbackIsNotReadBack(fields: seq<Field>, unquote: string -> Option<string>, drop: bool, uri: string)
    requires Table(fields) && '\n' !in uri && '\r' !in uri && !Unbroken(uri)
    ensures ToEnv(fields, CallbackConfig(uri)).Some?
    ensures var env := ToEnv(fields, CallbackConfig(uri)).value; Parsed(ReaderOf(fields, unquote, drop), Rendered(env)) != Some(env)
  {
    var config := CallbackConfig(uri);
    CallbackIsAccepted(fields, uri);
    CallbackIsSet(uri);
    PlainSetting(fields, config, Field(REDIRECT, REDIRECT_PATH, Str));
    DomainsAt(config, FieldTexts(fields, config).value, REDIRECT);
    var env := ToEnv(fields, config).value;
    assert Find(env, REDIRECT) == Some(uri);
    if AllUnbroken(env) { UnbrokenAt(env, REDIRECT); }
    RenderedIsReadBack(fields, unquote, drop, config);
  }

  /** For instance with a line separator between two letters. */
  lemma LineSeparatorIsNotReadBack(fields: seq<Field>, unquote: string -> Option<string>, drop: bool)
    requires Table(fields)
    ensures ToEnv(fields, CallbackConfig("a\U{2028}b")).Some?
    ensures var env := ToEnv(fields, CallbackConfig("a\U{2028}b")).value;
            Parsed(ReaderOf(fields, unquote, drop), Rendered(env)) != Some(env)
  {
    var uri := "a\U{2028}b";
    assert LineBreak(uri[1]);
    BrokenCallbackIsNotReadBack(fields, unquote, drop, uri);
  }
}
