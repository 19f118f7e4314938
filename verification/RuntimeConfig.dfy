/** The installer's configuration as environment settings, and environment settings as configuration. */
module RuntimeConfig {
  import opened ConfigTree
  import opened Dictionary
  import opened EnvFile
  import opened JsonText
  import opened Options

  datatype Kind = Boolean | Integer | JsonObject | Str
  datatype Field = Field(key: string, path: Path, kind: Kind)

  const MODE := "TOWBAR_INSTALL_MODE"
  const APP_URL := "TOWBAR_APP_BASE_URL"
  const API_URL := "TOWBAR_API_BASE_URL"
  const REDIRECT := "TOWBAR_GITLAB_OAUTH_REDIRECT_URI"
  const NOTIFICATIONS := "TOWBAR_NOTIFICATION_CONFIG_JSON"
  const PROFILES := "COMPOSE_PROFILES"
  const GATEWAY := "TOWBAR_GATEWAY_DOMAIN"
  const GATEWAY_API := "TOWBAR_GATEWAY_API_DOMAIN"
  const DERIVED := {PROFILES, GATEWAY, GATEWAY_API}

  const MODE_PATH: Path := ["installation", "mode"]
  const APP_PATH: Path := ["installation", "appUrl"]
  const API_PATH: Path := ["installation", "apiBaseUrl"]
  const REDIRECT_PATH: Path := ["integrations", "gitlab", "oauthRedirectUri"]
  const NOTIFICATIONS_PATH: Path := ["notifications"]

  const LOCAL_APP := "http://localhost:4021"
  const LOCAL_API := "http://localhost:4020"
  const CALLBACK := "/v1/core/gitlab/oauth/callback"

  /** The facts about the table of fields that are used; all but the notifications are written
      at paths apart from each other. */
  predicate Table(fields: seq<Field>) {
    && Separate(fields) && (forall f | f in fields :: Proper(f))
    && Field(MODE, MODE_PATH, Str) in fields && Field(APP_URL, APP_PATH, Str) in fields
    && Field(API_URL, API_PATH, Str) in fields && Field(REDIRECT, REDIRECT_PATH, Str) in fields
  }

  predicate Separate(fields: seq<Field>) {
    forall i, j | 0 <= i < j < |fields| :: fields[i].key != fields[j].key && ApartFields(fields[i], fields[j])
  }

  predicate Proper(f: Field) {
    && IsKey(f.key) && f.key != OBSOLETE && f.key !in DERIVED
    && f.path != [] && f.path[0] != "version"
    && (f.key == NOTIFICATIONS ==> f.path == NOTIFICATIONS_PATH && f.kind == JsonObject)
  }

  predicate ApartFields(f: Field, g: Field) {
    if f.key == NOTIFICATIONS then BesideNotifications(g.path)
    else if g.key == NOTIFICATIONS then BesideNotifications(f.path)
    else Apart(f.path, g.path)
  }

  predicate BesideNotifications(path: Path) {
    path != [] && (path[0] == "notifications" ==> path == ["notifications", "enabled"])
  }

  // ---------- values and their texts ----------

  predicate AllDigits(s: string) {
    s != "" && forall i | 0 <= i < |s| :: '0' <= s[i] <= '9'
  }

  function WithoutZeros(s: string): string {
    if |s| > 1 && s[0] == '0' then WithoutZeros(s[1..]) else s
  }

  function FormatValue(kind: Kind, v: Json): Option<string> {
    match kind
    case Boolean => if v.Bool? then Some(if v.b then "true" else "false") else None
    case Integer => if v.Number? && AllDigits(v.text) && WithoutZeros(v.text) == v.text then Some(v.text) else None
    case JsonObject => if v.Object? then Some(Raw(v)) else None
    case Str => if v.Text? && '\n' !in v.s && '\r' !in v.s then Some(v.s) else None
  }

  function ParseValue(kind: Kind, s: string): Option<Json> {
    match kind
    case Boolean => if s == "true" then Some(Bool(true)) else if s == "false" then Some(Bool(false)) else None
    case Integer => if AllDigits(s) then Some(Number(WithoutZeros(s))) else None
    case JsonObject =>
      var r := Parse(s);
      if r.Some? && r.value.0.Object? && r.value.1 == "" then Some(r.value.0) else None
    case Str => Some(Text(s))
  }

  // ---------- addresses ----------

  predicate HostChar(c: char) {
    'A' <= c <= 'Z' || 'a' <= c <= 'z' || '0' <= c <= '9' || c == '.' || c == '-'
  }

  /** The host of an exact https origin. */
  function HostOf(url: string): Option<string> {
    if "https://" < url && forall i | 8 <= i < |url| :: HostChar(url[i]) then Some(url[8..]) else None
  }

  function LabelLength(host: string): (n: nat)
    ensures n <= |host|
  {
    if host == "" || host[0] == '.' then 0 else 1 + LabelLength(host[1..])
  }

  function DefaultApi(appUrl: string): Option<string> {
    if appUrl == LOCAL_APP then Some(LOCAL_API)
    else
      var host := HostOf(appUrl);
      if host.None? then None
      else
        var n := LabelLength(host.value);
        if n == 0 || n + 1 >= |host.value| then None
        else Some("https://" + host.value[..n] + "-api." + host.value[n + 1..])
  }

  function TextAt(config: Json, path: Path, default: string): string {
    match Get(config, path)
    case Some(Text(s)) => s
    case _ => default
  }

  function GatewayDomain(config: Json): Option<string> {
    if TextAt(config, MODE_PATH, "local") == "local" then Some("") else HostOf(TextAt(config, APP_PATH, ""))
  }

  // ---------- from configuration to environment ----------

  function Leaves(fields: seq<Field>): set<Path> {
    (set f | f in fields && f.key != NOTIFICATIONS :: f.path)
    + {["notifications", "enabled"], ["notifications", "providers"], ["notifications", "routes"]}
  }

  /** Objects all the way down to the known settings, and nothing beside them. */
  predicate Known(leaves: set<Path>, at: Path, v: Json)
    decreases v
  {
    at in leaves || (v.Object? && KnownEntries(leaves, at, v.fields))
  }

  predicate KnownEntries(leaves: set<Path>, at: Path, entries: Entries<Json>)
    decreases entries
  {
    entries.Entry? ==>
      && (exists leaf :: leaf in leaves && at + [entries.key] <= leaf)
      && Known(leaves, at + [entries.key], entries.value)
      && KnownEntries(leaves, at, entries.rest)
  }

  datatype FieldText = Missing | Bad | Given(text: string)

  function Formatted(kind: Kind, v: Json): FieldText {
    match FormatValue(kind, v)
    case None => Bad
    case Some(s) => Given(s)
  }

  /** The notifications apart from their switch, which has a setting of its own. */
  function Content(config: Json): Entries<Json> {
    match Get(config, NOTIFICATIONS_PATH)
    case Some(Object(entries)) => Remove(entries, "enabled")
    case _ => NoEntry
  }

  function TextOf(config: Json, f: Field): FieldText {
    var v := Get(config, f.path);
    if v.None? then Missing
    else if f.key != NOTIFICATIONS then Formatted(f.kind, v.value)
    else if !v.value.Object? then Bad
    else if Content(config).NoEntry? then Missing
    else Formatted(f.kind, Object(Content(config)))
  }

  function FieldTexts(fields: seq<Field>, config: Json): Option<Entries<string>> {
    if fields == [] then Some(NoEntry)
    else
      var last := fields[|fields| - 1];
      var before := FieldTexts(fields[..|fields| - 1], config);
      if before.None? || TextOf(config, last).Bad? then None
      else if TextOf(config, last).Missing? then before
      else Some(Put(before.value, last.key, TextOf(config, last).text))
  }

  function Or(o: Option<string>, default: string): string {
    if o.Some? then o.value else default
  }

  /** The domains of a public installation, and the fixed address of a local one. */
  function WithDomains(config: Json, values: Entries<string>): Option<Entries<string>> {
    var mode := Or(Find(values, MODE), "local");
    var gateway := GatewayDomain(config);
    var api := if Find(values, API_URL).Some? then Find(values, API_URL) else DefaultApi(Or(Find(values, APP_URL), LOCAL_APP));
    if mode !in {"local", "public"} || gateway.None? || api.None? then None
    else
      var complete := Put(Put(values, GATEWAY, gateway.value), API_URL, api.value);
      if mode == "public" then
        if HostOf(api.value).None? || Some(api.value) == Find(values, APP_URL) then None
        else Some(Entry(PROFILES, mode, Put(complete, GATEWAY_API, HostOf(api.value).value)))
      else if api.value != LOCAL_API then None
      else Some(Entry(PROFILES, mode, complete))
  }

  function ToEnv(fields: seq<Field>, config: Json): Option<Entries<string>> {
    if !config.Object? || Find(config.fields, "version") != Some(Number("1")) then None
    else if !KnownEntries(Leaves(fields), [], Remove(config.fields, "version")) then None
    else
      var values := FieldTexts(fields, config);
      if values.None? then None else WithDomains(config, values.value)
  }

  method ComputeEnv(fields: seq<Field>, config: Json) returns (r: Option<Entries<string>>)
    ensures r == ToEnv(fields, config)
  {
    if !config.Object? || Find(config.fields, "version") != Some(Number("1")) { return None; }
    if !KnownEntries(Leaves(fields), [], Remove(config.fields, "version")) { return None; }
    var values: Entries<string> := NoEntry;
    for i := 0 to |fields|
      invariant FieldTexts(fields[..i], config) == Some(values)
    {
      assert fields[..i + 1][..i] == fields[..i];
      match TextOf(config, fields[i])
      case Missing =>
      case Bad =>
        BadFieldFails(fields, config, i);
        return None;
      case Given(text) => values := Put(values, fields[i].key, text);
    }
    assert fields[..|fields|] == fields;
    return WithDomains(config, values);
  }

  lemma {:induction false} BadFieldFails(fields: seq<Field>, config: Json, i: nat)
    requires i < |fields| && TextOf(config, fields[i]).Bad?
    ensures FieldTexts(fields, config).None?
    decreases |fields|
  {
    if i < |fields| - 1 { BadFieldFails(fields[..|fields| - 1], config, i); }
  }

  // ---------- from environment to configuration ----------

  function WithObject(config: Json, k: string): Json
    requires config.Object?
  {
    if k in Keys(config.fields) then config else Object(Put(config.fields, k, EMPTY))
  }

  function ItemWrites(items: Entries<Json>): (writes: seq<Write>)
    ensures forall w | w in writes :: w.path != []
  {
    if items.NoEntry? then [] else [Write(["notifications", items.key], items.value)] + ItemWrites(items.rest)
  }

  function ReadField(config: Json, f: Field, x: Json): Option<Json>
    requires f.path != [] && config.Object?
  {
    if f.key != NOTIFICATIONS then Set(config, f.path, x)
    else if !x.Object? then None
    else SetAll(WithObject(config, "notifications"), ItemWrites(x.fields))
  }

  function ReadFields(fields: seq<Field>, values: Entries<string>, config: Json): (r: Option<Json>)
    requires config.Object? && forall f | f in fields :: f.path != []
    ensures r.Some? ==> r.value.Object?
  {
    if fields == [] then Some(config)
    else
      var last := fields[|fields| - 1];
      var before := ReadFields(fields[..|fields| - 1], values, config);
      if before.None? || Find(values, last.key).None? then before
      else
        var x := ParseValue(last.kind, Find(values, last.key).value);
        if x.None? then None
        else
          ReadKeepsObject(before.value, last, x.value);
          ReadField(before.value, last, x.value)
  }

  lemma ReadKeepsObject(config: Json, f: Field, x: Json)
    requires f.path != [] && config.Object?
    ensures ReadField(config, f, x).Some? ==> ReadField(config, f, x).value.Object?
  {
    if f.key == NOTIFICATIONS && x.Object? { SetAllKeepsObject(WithObject(config, "notifications"), ItemWrites(x.fields)); }
  }

  lemma {:induction false} SetAllKeepsObject(config: Json, writes: seq<Write>)
    requires config.Object? && forall w | w in writes :: w.path != []
    ensures SetAll(config, writes).Some? ==> SetAll(config, writes).value.Object?
    decreases |writes|
  {
    if writes != [] {
      assert writes[0] in writes;
      var next := Set(config, writes[0].path, writes[0].value);
      if next.Some? { SetAllKeepsObject(next.value, writes[1..]); }
    }
  }

  /** The address of the API is taken from the application's where none is given, and a GitLab
      callback at the application's address moves to that of the API. */
  function Completed(config: Json, values: Entries<string>): Option<Json>
    requires config.Object?
  {
    var base := WithObject(config, "installation");
    var appUrl := TextAt(base, APP_PATH, LOCAL_APP);
    var api := DefaultApi(appUrl);
    if Find(values, GATEWAY).Some? && GatewayDomain(base) != Find(values, GATEWAY) then None
    else if api.None? then None
    else
      var full := if Get(base, API_PATH).Some? then Some(base) else Set(base, API_PATH, Text(api.value));
      if full.None? then None
      else if Get(full.value, REDIRECT_PATH) == Some(Text(appUrl + CALLBACK))
      then Some(Replace(full.value, REDIRECT_PATH, Text(TextAt(full.value, API_PATH, "") + CALLBACK)))
      else full
  }

  const VERSION_ONE := Object(Entry("version", Number("1"), NoEntry))

  function FromEnv(fields: seq<Field>, values: Entries<string>): Option<Json>
    requires forall f | f in fields :: f.path != []
  {
    var mode := Or(Find(values, MODE), "local");
    if Or(Find(values, PROFILES), mode) != mode then None
    else
      var config := ReadFields(fields, values, VERSION_ONE);
      if config.None? then None else Completed(config.value, values)
  }

  method ComputeConfig(fields: seq<Field>, values: Entries<string>) returns (r: Option<Json>)
    requires forall f | f in fields :: f.path != []
    ensures r == FromEnv(fields, values)
  {
    var mode := Or(Find(values, MODE), "local");
    if Or(Find(values, PROFILES), mode) != mode { return None; }
    var config := VERSION_ONE;
    for i := 0 to |fields|
      invariant config.Object? && ReadFields(fields[..i], values, VERSION_ONE) == Some(config)
    {
      var f := fields[i];
      assert fields[..i + 1][..i] == fields[..i] && f in fields;
      var text := Find(values, f.key);
      if text.Some? {
        ghost var after := ReadFields(fields[..i + 1], values, VERSION_ONE);
        if after.None? { FailedFieldFails(fields, values, i + 1); }
        var x := ParseValue(f.kind, text.value);
        if x.None? { return None; }
        var next := ReadField(config, f, x.value);
        if next.None? { return None; }
        config := next.value;
      }
    }
    assert fields[..|fields|] == fields;
    return Completed(config, values);
  }

  lemma {:induction false} FailedFieldFails(fields: seq<Field>, values: Entries<string>, n: nat)
    requires n <= |fields| && forall f | f in fields :: f.path != []
    requires ReadFields(fields[..n], values, VERSION_ONE).None?
    ensures ReadFields(fields, values, VERSION_ONE).None?
    decreases |fields|
  {
    if n == |fields| {
      assert fields[..n] == fields;
    } else {
      var front := fields[..|fields| - 1];
      assert front[..n] == fields[..n];
      FailedFieldFails(front, values, n);
    }
  }

  // ---------- comparing the rendered file with the configuration ----------

  predicate KnownKey(fields: seq<Field>, k: string) {
    k in DERIVED || exists i | 0 <= i < |fields| :: fields[i].key == k
  }

  function KindOf(fields: seq<Field>, k: string): Kind
    requires KnownKey(fields, k) && k !in DERIVED
  {
    if fields[0].key == k then fields[0].kind else KindOf(fields[1..], k)
  }

  /** Derived settings are compared as texts, all others as the values they stand for. */
  predicate SameSetting(fields: seq<Field>, k: string, actual: string, expected: string)
    requires KnownKey(fields, k)
  {
    if k in DERIVED then actual == expected
    else
      var a, e := ParseValue(KindOf(fields, k), actual), ParseValue(KindOf(fields, k), expected);
      a.Some? && e.Some? && a == e
  }

  predicate AllSame(fields: seq<Field>, expected: Entries<string>, actual: Entries<string>) {
    expected.Entry? ==>
      && KnownKey(fields, expected.key) && Find(actual, expected.key).Some?
      && SameSetting(fields, expected.key, Find(actual, expected.key).value, expected.value)
      && AllSame(fields, expected.rest, actual)
  }

  /** The reader that comparing and migrating use. */
  function ReaderOf(fields: seq<Field>, unquote: string -> Option<string>, dropObsolete: bool): Reader {
    Reader(k => KnownKey(fields, k), unquote, dropObsolete)
  }

  /** Comparing accepts an environment file. */
  predicate UpToDate(fields: seq<Field>, unquote: string -> Option<string>, config: Json, text: string) {
    var expected, actual := ToEnv(fields, config), Parsed(ReaderOf(fields, unquote, false), text);
    && expected.Some? && actual.Some?
    && Keys(actual.value) == Keys(expected.value)
    && AllSame(fields, expected.value, actual.value)
  }

  method Compare(fields: seq<Field>, unquote: string -> Option<string>, config: Json, text: string) returns (same: bool)
    ensures same == UpToDate(fields, unquote, config, text)
  {
    var expected := ComputeEnv(fields, config);
    if expected.None? { return false; }
    var actual := ParseEnv(ReaderOf(fields, unquote, false), text);
    if actual.None? || Keys(actual.value) != Keys(expected.value) { return false; }
    var rest := expected.value;
    while rest.Entry?
      invariant AllSame(fields, expected.value, actual.value) == AllSame(fields, rest, actual.value)
      decreases rest
    {
      var found := Find(actual.value, rest.key);
      if found.None? || !KnownKey(fields, rest.key) { return false; }
      if !SameSetting(fields, rest.key, found.value, rest.value) { return false; }
      rest := rest.rest;
    }
    return true;
  }
}
