/** The table of fields of the installer's configuration, and that it has what is used of it. */
module RuntimeFields {
  import opened ConfigTree
  import opened EnvFile
  import opened RuntimeConfig

  // ---------- the table ----------

  const CORE := [
    Field("TOWBAR_INSTALL_MODE", ["installation", "mode"], Str),
    Field("TOWBAR_BIND_ADDRESS", ["installation", "bindAddress"], Str),
    Field("TOWBAR_PORT", ["installation", "port"], Integer),
    Field("TOWBAR_API_PORT", ["installation", "apiPort"], Integer),
    Field("TOWBAR_TEMPORAL_UI_PORT", ["installation", "temporalUiPort"], Integer),
    Field("TOWBAR_NETWORK_NAME", ["installation", "networkName"], Str),
    Field("TOWBAR_APP_BASE_URL", ["installation", "appUrl"], Str),
    Field("TOWBAR_API_BASE_URL", ["installation", "apiBaseUrl"], Str),
    Field("TOWBAR_POSTGRES_PASSWORD", ["database", "postgresPassword"], Str),
    Field("TOWBAR_DATABASE_RUNTIME_PASSWORD", ["database", "runtimePassword"], Str),
    Field("TOWBAR_CREDENTIALS_KEY", ["security", "credentialsKey"], Str),
    Field("TOWBAR_INTERNAL_HMAC_SECRET", ["security", "internalHmacSecret"], Str),
    Field("TOWBAR_API_RATE_LIMIT_MAX", ["security", "apiRateLimit", "max"], Integer),
    Field("TOWBAR_API_RATE_LIMIT_WINDOW_SECONDS", ["security", "apiRateLimit", "windowSeconds"], Integer),
    Field("TOWBAR_PASSWORD_BREACH_CHECK", ["security", "passwordBreachCheck"], Boolean),
    Field("TOWBAR_PASSWORD_VERIFY_CONCURRENCY", ["security", "passwordVerifyConcurrency"], Integer),
    Field("TOWBAR_PASSWORD_VERIFY_QUEUE_LIMIT", ["security", "passwordVerifyQueueLimit"], Integer),
    Field("TOWBAR_APP_ID", ["worker", "appId"], Str),
    Field("TOWBAR_WORKER_MAX_CONCURRENT_ACTIVITIES", ["worker", "maxConcurrentActivities"], Integer),
    Field("TOWBAR_VULNERABILITY_SCANNING_ENABLED", ["worker", "vulnerabilityScanning", "enabled"], Boolean),
    Field("TOWBAR_VULNERABILITY_SCAN_MAX_AGE_HOURS", ["worker", "vulnerabilityScanning", "maxAgeHours"], Integer),
    Field("TOWBAR_TRIVY_IMAGE", ["worker", "vulnerabilityScanning", "trivyImage"], Str)]

  const NOTIFYING := [
    Field("TOWBAR_NOTIFICATIONS_ENABLED", ["notifications", "enabled"], Boolean),
    Field("TOWBAR_NOTIFICATION_CONFIG_JSON", ["notifications"], JsonObject)]

  /** A setting of an integration: the end of its key, the end of its path and its kind. */
  datatype Member = Member(name: string, child: string, kind: Kind)
  datatype Provider = Provider(upper: string, section: string, settings: seq<Member>)

  const GITHUB_SETTINGS := [
    Member("ENABLED", "enabled", Boolean),
    Member("APP_ID", "appId", Str),
    Member("APP_SLUG", "appSlug", Str),
    Member("PRIVATE_KEY_BASE64", "privateKeyBase64", Str),
    Member("WEBHOOK_SECRET", "webhookSecret", Str),
    Member("API_URL", "apiUrl", Str)]

  const GITLAB_SETTINGS := [
    Member("ENABLED", "enabled", Boolean),
    Member("BASE_URL", "baseUrl", Str),
    Member("ALLOW_PRIVATE_NETWORK", "allowPrivateNetwork", Boolean),
    Member("OAUTH_CLIENT_ID", "oauthClientId", Str),
    Member("OAUTH_CLIENT_SECRET", "oauthClientSecret", Str),
    Member("OAUTH_REDIRECT_URI", "oauthRedirectUri", Str),
    Member("WEBHOOK_SECRET", "webhookSecret", Str)]

  const REGISTRY_SETTINGS := [
    Member("ENABLED", "enabled", Boolean),
    Member("HOST", "host", Str),
    Member("USERNAME", "username", Str),
    Member("PASSWORD", "password", Str),
    Member("ALLOW_PRIVATE_NETWORK", "allowPrivateNetwork", Boolean)]

  const AWS_SETTINGS := [
    Member("ENABLED", "enabled", Boolean),
    Member("REGION", "region", Str),
    Member("ACCESS_KEY_ID", "accessKeyId", Str),
    Member("SECRET_ACCESS_KEY", "secretAccessKey", Str)]

  const S3_SETTINGS := [
    Member("ENABLED", "enabled", Boolean),
    Member("ENDPOINT", "endpoint", Str),
    Member("REGION", "region", Str),
    Member("BUCKET", "bucket", Str),
    Member("PREFIX", "prefix", Str),
    Member("ADDRESSING_STYLE", "addressingStyle", Str),
    Member("ALLOW_PRIVATE_NETWORK", "allowPrivateNetwork", Boolean),
    Member("CUSTOM_CA_BASE64", "customCaBase64", Str),
    Member("ACCESS_KEY_ID", "accessKeyId", Str),
    Member("SECRET_ACCESS_KEY", "secretAccessKey", Str)]

  const GCS_SETTINGS := [
    Member("ENABLED", "enabled", Boolean),
    Member("PROJECT_ID", "projectId", Str),
    Member("BUCKET", "bucket", Str),
    Member("PREFIX", "prefix", Str),
    Member("SERVICE_ACCOUNT_JSON_BASE64", "serviceAccountJsonBase64", Str)]

  const INFISICAL_SETTINGS := [
    Member("ENABLED", "enabled", Boolean),
    Member("BASE_URL", "baseUrl", Str),
    Member("ALLOW_PRIVATE_NETWORK", "allowPrivateNetwork", Boolean),
    Member("CLIENT_ID", "clientId", Str),
    Member("CLIENT_SECRET", "clientSecret", Str)]

  const DOPPLER_SETTINGS := [
    Member("ENABLED", "enabled", Boolean),
    Member("TOKEN", "token", Str)]

  const CLOUDFLARE_SETTINGS := [
    Member("ENABLED", "enabled", Boolean),
    Member("ACCOUNT_ID", "accountId", Str),
    Member("ZONE_ID", "zoneId", Str),
    Member("API_TOKEN", "apiToken", Str),
    Member("CLOUDFLARED_IMAGE", "cloudflaredImage", Str)]

  const PROVIDERS := [
    Provider("GITHUB", "github", GITHUB_SETTINGS),
    Provider("GITLAB", "gitlab", GITLAB_SETTINGS),
    Provider("REGISTRY", "registry", REGISTRY_SETTINGS),
    Provider("AWS", "aws", AWS_SETTINGS),
    Provider("S3", "s3", S3_SETTINGS),
    Provider("R2", "r2", S3_SETTINGS),
    Provider("GCS", "gcs", GCS_SETTINGS),
    Provider("INFISICAL", "infisical", INFISICAL_SETTINGS),
    Provider("DOPPLER", "doppler", DOPPLER_SETTINGS),
    Provider("CLOUDFLARE", "cloudflare", CLOUDFLARE_SETTINGS)]

  function KeyOf(upper: string, name: string): string {
    "TOWBAR_" + upper + "_" + name
  }

  function FieldOf(p: Provider, m: Member): Field {
    Field(KeyOf(p.upper, m.name), ["integrations", p.section, m.child], m.kind)
  }

  function FieldsOf(p: Provider): seq<Field> {
    seq(|p.settings|, i requires 0 <= i < |p.settings| => FieldOf(p, p.settings[i]))
  }

  function FieldsOfAll(ps: seq<Provider>): seq<Field> {
    if ps == [] then [] else FieldsOf(ps[0]) + FieldsOfAll(ps[1..])
  }

  function TableOf(ps: seq<Provider>): seq<Field> {
    (CORE + NOTIFYING) + FieldsOfAll(ps)
  }

  const FIELDS := TableOf(PROVIDERS)

  // ---------- where a key comes from ----------

  datatype Origin = Core | Integration | Other

  /** Told by the beginning of the key. */
  function OriginOf(k: string): Origin {
    if |k| < 10 || k[0] != 'T' then Other
    else
      match k[7]
      case 'A' => if k[8] == 'W' then Integration else Core
      case 'C' => if k[8] == 'L' then Integration else Core
      case 'D' => if k[8] == 'O' then Integration else Core
      case 'G' => if k[8] == 'A' then Other else Integration
      case 'I' => if k[9] == 'F' then Integration else Core
      case 'N' => if k[8] == 'O' then Other else Core
      case 'R' => Integration
      case 'S' => Integration
      case 'T' => if k[9] == 'U' then Other else Core
      case _ => Core
  }

  const RESERVED := {OBSOLETE, NOTIFICATIONS} + DERIVED

  lemma ReservedKeys(k: string)
    requires k in RESERVED
    ensures OriginOf(k).Other?
  {
  }

  // ---------- the core ----------

  predicate ApartNames(p: Path, q: Path) {
    |p| > 1 && |q| > 1 && (p[0] != q[0] || p[1] != q[1] || (|p| > 2 && |q| > 2 && p[2] != q[2]))
  }

  lemma CoreKeysDiffer()
    ensures forall i, j | 0 <= i < j < |CORE| :: CORE[i].key != CORE[j].key
  {
  }

  lemma CorePathsApart()
    ensures forall i, j | 0 <= i < j < |CORE| :: ApartNames(CORE[i].path, CORE[j].path)
  {
  }

  lemma CoreSections()
    ensures forall i | 0 <= i < |CORE| :: |CORE[i].path| > 1 && CORE[i].path[0] !in {"version", "notifications", "integrations"}
  {
  }

  lemma CoreOrigin1()
    ensures forall i | 0 <= i < 7 :: OriginOf(CORE[i].key).Core?
  {
  }

  lemma CoreOrigin2()
    ensures forall i | 7 <= i < 12 :: OriginOf(CORE[i].key).Core?
  {
  }

  lemma CoreOrigin3()
    ensures forall i | 12 <= i < 17 :: OriginOf(CORE[i].key).Core?
  {
  }

  lemma CoreOrigin4()
    ensures forall i | 17 <= i < |CORE| :: OriginOf(CORE[i].key).Core?
  {
  }

  lemma CoreOrigin()
    ensures forall i | 0 <= i < |CORE| :: OriginOf(CORE[i].key).Core?
  {
    CoreOrigin1();
    CoreOrigin2();
    CoreOrigin3();
    CoreOrigin4();
  }

  lemma CoreKeys1()
    ensures IsKey("TOWBAR_INSTALL_MODE")
    ensures IsKey("TOWBAR_BIND_ADDRESS")
  {
  }

  lemma CoreKeys2()
    ensures IsKey("TOWBAR_PORT")
    ensures IsKey("TOWBAR_API_PORT")
  {
  }

  lemma CoreKeys3()
    ensures IsKey("TOWBAR_TEMPORAL_UI_PORT")
    ensures IsKey("TOWBAR_NETWORK_NAME")
  {
  }

  lemma CoreKeys4()
    ensures IsKey("TOWBAR_APP_BASE_URL")
    ensures IsKey("TOWBAR_API_BASE_URL")
  {
  }

  lemma CoreKeys5()
    ensures IsKey("TOWBAR_POSTGRES_PASSWORD")
    ensures IsKey("TOWBAR_DATABASE_RUNTIME_PASSWORD")
  {
  }

  lemma CoreKeys6()
    ensures IsKey("TOWBAR_CREDENTIALS_KEY")
    ensures IsKey("TOWBAR_INTERNAL_HMAC_SECRET")
  {
  }

  lemma CoreKeys7()
    ensures IsKey("TOWBAR_API_RATE_LIMIT_MAX")
    ensures IsKey("TOWBAR_API_RATE_LIMIT_WINDOW_SECONDS")
  {
  }

  lemma CoreKeys8()
    ensures IsKey("TOWBAR_PASSWORD_BREACH_CHECK")
    ensures IsKey("TOWBAR_PASSWORD_VERIFY_CONCURRENCY")
  {
  }

  lemma CoreKeys9()
    ensures IsKey("TOWBAR_PASSWORD_VERIFY_QUEUE_LIMIT")
    ensures IsKey("TOWBAR_APP_ID")
  {
  }

  lemma CoreKeys10()
    ensures IsKey("TOWBAR_WORKER_MAX_CONCURRENT_ACTIVITIES")
    ensures IsKey("TOWBAR_VULNERABILITY_SCANNING_ENABLED")
  {
  }

  lemma CoreKeys11()
    ensures IsKey("TOWBAR_VULNERABILITY_SCAN_MAX_AGE_HOURS")
    ensures IsKey("TOWBAR_TRIVY_IMAGE")
  {
  }

  lemma CoreIsLegal()
    ensures forall i | 0 <= i < |CORE| :: IsKey(CORE[i].key)
  {
    CoreKeys1();
    CoreKeys2();
    CoreKeys3();
    CoreKeys4();
    CoreKeys5();
    CoreKeys6();
    CoreKeys7();
    CoreKeys8();
    CoreKeys9();
    CoreKeys10();
    CoreKeys11();
  }

  lemma SeparateByNames(fs: seq<Field>)
    requires forall i, j | 0 <= i < j < |fs| :: fs[i].key != fs[j].key
    requires forall i, j | 0 <= i < j < |fs| :: ApartNames(fs[i].path, fs[j].path)
    requires forall i | 0 <= i < |fs| :: fs[i].key !in RESERVED
    ensures Separate(fs)
  {
    forall i, j | 0 <= i < j < |fs| ensures ApartFields(fs[i], fs[j]) {
      assert ApartNames(fs[i].path, fs[j].path) && fs[j].key !in RESERVED;
    }
  }

  lemma CoreIsSeparate()
    ensures Separate(CORE)
  {
    CoreKeysDiffer();
    CorePathsApart();
    CoreIsOrdinary();
    SeparateByNames(CORE);
  }

  lemma CoreIsProper(f: Field)
    requires f in CORE
    ensures Proper(f) && OriginOf(f.key).Core? && f.key !in RESERVED && f.path[0] !in {"notifications", "integrations"}
  {
    CoreSections();
    CoreOrigin();
    CoreIsLegal();
    CoreIsOrdinary();
    var i :| 0 <= i < |CORE| && CORE[i] == f;
  }

  // ---------- the notifications ----------

  lemma NotifyingKeys()
    ensures IsKey("TOWBAR_NOTIFICATIONS_ENABLED") && IsKey(NOTIFICATIONS)
  {
  }

  lemma NotifyingIsSeparate()
    ensures Separate(NOTIFYING)
  {
  }

  lemma NotifyingIsProper()
    ensures forall i | 0 <= i < |NOTIFYING| :: Proper(NOTIFYING[i]) && OriginOf(NOTIFYING[i].key).Other?
    ensures forall i | 0 <= i < |NOTIFYING| :: NOTIFYING[i].path in {NOTIFICATIONS_PATH, ["notifications", "enabled"]}
    ensures forall i | 0 <= i < |NOTIFYING| :: NOTIFYING[i].path == NOTIFICATIONS_PATH ==> NOTIFYING[i].key == NOTIFICATIONS
  {
    NotifyingKeys();
  }

  /** None of the core is the one field that holds an object. */
  lemma CoreIsOrdinary()
    ensures forall i | 0 <= i < |CORE| :: CORE[i].key !in RESERVED
  {
    CoreOrigin();
    forall i | 0 <= i < |CORE| ensures CORE[i].key !in RESERVED {
      assert OriginOf(CORE[i].key).Core?;
      if CORE[i].key in RESERVED { ReservedKeys(CORE[i].key); }
    }
  }

  // ---------- the integrations ----------

  predicate Word(w: string) {
    w != "" && forall k | 0 <= k < |w| :: KeyChar(w[k])
  }

  predicate Distinct(settings: seq<Member>) {
    forall i, j | 0 <= i < j < |settings| :: settings[i].name != settings[j].name && settings[i].child != settings[j].child
  }

  predicate Spelled(settings: seq<Member>) {
    forall i | 0 <= i < |settings| :: Word(settings[i].name)
  }

  lemma Words1()
    ensures Word("ENABLED")
    ensures Word("APP_ID")
    ensures Word("APP_SLUG")
    ensures Word("PRIVATE_KEY_BASE64")
    ensures Word("WEBHOOK_SECRET")
    ensures Word("API_URL")
  {
  }

  lemma Words2()
    ensures Word("BASE_URL")
    ensures Word("ALLOW_PRIVATE_NETWORK")
    ensures Word("OAUTH_CLIENT_ID")
    ensures Word("OAUTH_CLIENT_SECRET")
    ensures Word("OAUTH_REDIRECT_URI")
    ensures Word("HOST")
  {
  }

  lemma Words3()
    ensures Word("USERNAME")
    ensures Word("PASSWORD")
    ensures Word("REGION")
    ensures Word("ACCESS_KEY_ID")
    ensures Word("SECRET_ACCESS_KEY")
    ensures Word("ENDPOINT")
  {
  }

  lemma Words4()
    ensures Word("BUCKET")
    ensures Word("PREFIX")
    ensures Word("ADDRESSING_STYLE")
    ensures Word("CUSTOM_CA_BASE64")
    ensures Word("PROJECT_ID")
    ensures Word("SERVICE_ACCOUNT_JSON_BASE64")
  {
  }

  lemma Words5()
    ensures Word("CLIENT_ID")
    ensures Word("CLIENT_SECRET")
    ensures Word("TOKEN")
    ensures Word("ACCOUNT_ID")
    ensures Word("ZONE_ID")
    ensures Word("API_TOKEN")
  {
  }

  lemma Words6()
    ensures Word("CLOUDFLARED_IMAGE")
  {
  }

  lemma GithubIsDistinct()
    ensures Distinct(GITHUB_SETTINGS)
  {
  }

  lemma GithubIsSpelled()
    ensures Spelled(GITHUB_SETTINGS)
  {
    Words1();
  }

  lemma GitlabIsDistinct()
    ensures Distinct(GITLAB_SETTINGS)
  {
  }

  lemma GitlabIsSpelled()
    ensures Spelled(GITLAB_SETTINGS)
  {
    Words1();
    Words2();
  }

  lemma RegistryIsDistinct()
    ensures Distinct(REGISTRY_SETTINGS)
  {
  }

  lemma RegistryIsSpelled()
    ensures Spelled(REGISTRY_SETTINGS)
  {
    Words1();
    Words2();
    Words3();
  }

  lemma AwsIsDistinct()
    ensures Distinct(AWS_SETTINGS)
  {
  }

  lemma AwsIsSpelled()
    ensures Spelled(AWS_SETTINGS)
  {
    Words1();
    Words3();
  }

  lemma S3IsDistinct()
    ensures Distinct(S3_SETTINGS)
  {
  }

  lemma S3IsSpelled()
    ensures Spelled(S3_SETTINGS)
  {
    Words1();
    Words2();
    Words3();
    Words4();
  }

  lemma GcsIsDistinct()
    ensures Distinct(GCS_SETTINGS)
  {
  }

  lemma GcsIsSpelled()
    ensures Spelled(GCS_SETTINGS)
  {
    Words1();
    Words4();
  }

  lemma InfisicalIsDistinct()
    ensures Distinct(INFISICAL_SETTINGS)
  {
  }

  lemma InfisicalIsSpelled()
    ensures Spelled(INFISICAL_SETTINGS)
  {
    Words1();
    Words2();
    Words5();
  }

  lemma DopplerIsDistinct()
    ensures Distinct(DOPPLER_SETTINGS)
  {
  }

  lemma DopplerIsSpelled()
    ensures Spelled(DOPPLER_SETTINGS)
  {
    Words1();
    Words5();
  }

  lemma CloudflareIsDistinct()
    ensures Distinct(CLOUDFLARE_SETTINGS)
  {
  }

  lemma CloudflareIsSpelled()
    ensures Spelled(CLOUDFLARE_SETTINGS)
  {
    Words1();
    Words5();
    Words6();
  }

  /** What is used of a provider. */
  predicate Good(p: Provider) {
    && Word(p.upper) && '_' !in p.upper && Distinct(p.settings) && Spelled(p.settings)
    && forall m | m in p.settings :: OriginOf(KeyOf(p.upper, m.name)).Integration?
  }

  predicate Different(p: Provider, q: Provider) {
    p.upper != q.upper && p.section != q.section
  }

  lemma FirstWordDecides(u: string, v: string, rest: string, more: string)
    requires u + "_" + rest == v + "_" + more && '_' !in u && '_' !in v
    ensures u == v
  {
    var s, t := u + "_" + rest, v + "_" + more;
    assert s[|u|] == '_' && t[|v|] == '_';
    assert s[..|u|] == u && t[..|v|] == v;
  }

  lemma KeysOfProviders(u: string, v: string, name: string, other: string)
    requires '_' !in u && '_' !in v && KeyOf(u, name) == KeyOf(v, other)
    ensures u == v && name == other
  {
    var a, b := u + "_" + name, v + "_" + other;
    assert KeyOf(u, name) == "TOWBAR_" + a && KeyOf(v, other) == "TOWBAR_" + b;
    assert KeyOf(u, name)[7..] == a && KeyOf(v, other)[7..] == b;
    FirstWordDecides(u, v, name, other);
    assert a[|u| + 1..] == name && b[|u| + 1..] == other;
  }

  lemma KeyIsLegal(u: string, name: string)
    requires Word(u) && Word(name)
    ensures IsKey(KeyOf(u, name))
  {
  }

  lemma FieldIsProper(p: Provider, m: Member)
    requires Good(p) && m in p.settings
    ensures Proper(FieldOf(p, m)) && OriginOf(FieldOf(p, m).key).Integration? && FieldOf(p, m).key !in RESERVED
  {
    var i :| 0 <= i < |p.settings| && p.settings[i] == m;
    KeyIsLegal(p.upper, m.name);
    if KeyOf(p.upper, m.name) in RESERVED { ReservedKeys(KeyOf(p.upper, m.name)); }
  }

  /** Fields of a provider. */
  predicate FromProviders(ps: seq<Provider>, f: Field) {
    exists p, m :: p in ps && m in p.settings && f == FieldOf(p, m)
  }

  lemma {:induction false} MembersOfAll(ps: seq<Provider>)
    ensures forall f | f in FieldsOfAll(ps) :: FromProviders(ps, f)
  {
    if ps != [] {
      MembersOfAll(ps[1..]);
      forall f | f in FieldsOfAll(ps) ensures FromProviders(ps, f) {
        if f in FieldsOf(ps[0]) {
          var i :| 0 <= i < |FieldsOf(ps[0])| && FieldsOf(ps[0])[i] == f;
          assert f == FieldOf(ps[0], ps[0].settings[i]);
        } else {
          assert f in FieldsOfAll(ps[1..]) && FromProviders(ps[1..], f);
          var p, m :| p in ps[1..] && m in p.settings && f == FieldOf(p, m);
          assert p in ps;
        }
      }
    }
  }

  lemma SettingsDiffer(p: Provider, m: Member, q: Provider, n: Member)
    requires Good(p) && Good(q) && m in p.settings && n in q.settings
    requires Different(p, q) || (p == q && m.name != n.name && m.child != n.child)
    ensures FieldOf(p, m).key != FieldOf(q, n).key && ApartNames(FieldOf(p, m).path, FieldOf(q, n).path)
    ensures ApartFields(FieldOf(p, m), FieldOf(q, n))
  {
    if KeyOf(p.upper, m.name) == KeyOf(q.upper, n.name) { KeysOfProviders(p.upper, q.upper, m.name, n.name); }
    FieldIsProper(p, m);
    FieldIsProper(q, n);
  }

  lemma ProviderIsSeparate(p: Provider)
    requires Good(p)
    ensures Separate(FieldsOf(p))
  {
    var fs := FieldsOf(p);
    forall i, j | 0 <= i < j < |fs| ensures fs[i].key != fs[j].key && ApartFields(fs[i], fs[j]) {
      SettingsDiffer(p, p.settings[i], p, p.settings[j]);
    }
  }

  lemma SideBySide(a: seq<Field>, b: seq<Field>)
    requires Separate(a) && Separate(b) && forall f, g | f in a && g in b :: f.key != g.key && ApartFields(f, g)
    ensures Separate(a + b)
  {
    var all := a + b;
    forall i, j | 0 <= i < j < |all| ensures all[i].key != all[j].key && ApartFields(all[i], all[j]) {
      if i < |a| <= j { assert all[i] in a && all[j] in b; }
    }
  }

  predicate AllGood(ps: seq<Provider>) {
    && (forall p | p in ps :: Good(p))
    && forall i, j | 0 <= i < j < |ps| :: Different(ps[i], ps[j])
  }

  lemma {:induction false} ProvidersAreSeparate(ps: seq<Provider>)
    requires AllGood(ps)
    ensures Separate(FieldsOfAll(ps))
  {
    if ps != [] {
      var first, rest := FieldsOf(ps[0]), FieldsOfAll(ps[1..]);
      ProviderIsSeparate(ps[0]);
      ProvidersAreSeparate(ps[1..]);
      MembersOfAll(ps[1..]);
      forall f, g | f in first && g in rest ensures f.key != g.key && ApartFields(f, g) {
        var i :| 0 <= i < |first| && first[i] == f;
        var q, n :| q in ps[1..] && n in q.settings && g == FieldOf(q, n);
        assert Different(ps[0], q);
        SettingsDiffer(ps[0], ps[0].settings[i], q, n);
      }
      SideBySide(first, rest);
    }
  }

  lemma BeginningsOfProviders()
    ensures forall i, name | 0 <= i < |PROVIDERS| && name != "" :: OriginOf(KeyOf(PROVIDERS[i].upper, name)).Integration?
  {
  }

  lemma UppersAreWords()
    ensures forall i | 0 <= i < |PROVIDERS| :: Word(PROVIDERS[i].upper) && '_' !in PROVIDERS[i].upper
  {
  }

  lemma ProvidersDiffer()
    ensures forall i, j | 0 <= i < j < |PROVIDERS| :: Different(PROVIDERS[i], PROVIDERS[j])
  {
  }

  lemma SettingsAreDistinct()
    ensures forall i | 0 <= i < |PROVIDERS| :: Distinct(PROVIDERS[i].settings)
  {
    GithubIsDistinct();
    GitlabIsDistinct();
    RegistryIsDistinct();
    AwsIsDistinct();
    S3IsDistinct();
    GcsIsDistinct();
    InfisicalIsDistinct();
    DopplerIsDistinct();
    CloudflareIsDistinct();
  }

  lemma SettingsAreSpelled()
    ensures forall i | 0 <= i < |PROVIDERS| :: Spelled(PROVIDERS[i].settings)
  {
    GithubIsSpelled();
    GitlabIsSpelled();
    RegistryIsSpelled();
    AwsIsSpelled();
    S3IsSpelled();
    GcsIsSpelled();
    InfisicalIsSpelled();
    DopplerIsSpelled();
    CloudflareIsSpelled();
  }

  lemma ProvidersAreGood()
    ensures AllGood(PROVIDERS)
  {
    BeginningsOfProviders();
    UppersAreWords();
    ProvidersDiffer();
    SettingsAreDistinct();
    SettingsAreSpelled();
    forall p | p in PROVIDERS ensures Good(p) {
      var i :| 0 <= i < |PROVIDERS| && PROVIDERS[i] == p;
      forall m | m in p.settings ensures OriginOf(KeyOf(p.upper, m.name)).Integration? {
        var k :| 0 <= k < |p.settings| && p.settings[k] == m;
        assert Word(m.name);
      }
    }
  }

  // ---------- the whole table ----------

  lemma IntegrationIsProper(ps: seq<Provider>, f: Field)
    requires AllGood(ps) && f in FieldsOfAll(ps)
    ensures Proper(f) && OriginOf(f.key).Integration? && f.key !in RESERVED && f.path != [] && f.path[0] == "integrations"
  {
    MembersOfAll(ps);
    var p, m :| p in ps && m in p.settings && f == FieldOf(p, m);
    FieldIsProper(p, m);
  }

  lemma NotificationIsProper(f: Field)
    requires f in NOTIFYING
    ensures Proper(f) && OriginOf(f.key).Other? && f.path in {NOTIFICATIONS_PATH, ["notifications", "enabled"]}
    ensures f.path == NOTIFICATIONS_PATH ==> f.key == NOTIFICATIONS
  {
    NotifyingIsProper();
    var i :| 0 <= i < |NOTIFYING| && NOTIFYING[i] == f;
  }

  lemma BesidesNotifying(f: Field, g: Field)
    requires g in NOTIFYING && f.key !in RESERVED && f.path != [] && f.path[0] != "notifications" && !OriginOf(f.key).Other?
    ensures f.key != g.key && ApartFields(f, g) && ApartFields(g, f)
  {
    NotificationIsProper(g);
  }

  /** A field apart from every integration. */
  predicate Outside(f: Field) {
    Proper(f) && !OriginOf(f.key).Integration? && f.path[0] != "integrations"
  }

  lemma BasisIsOutside(f: Field)
    requires f in CORE + NOTIFYING
    ensures Outside(f)
  {
    if f in CORE { CoreIsProper(f); } else { NotificationIsProper(f); }
  }

  lemma BasisIsSeparate()
    ensures Separate(CORE + NOTIFYING)
  {
    CoreIsSeparate();
    NotifyingIsSeparate();
    forall f, g | f in CORE && g in NOTIFYING ensures f.key != g.key && ApartFields(f, g) {
      CoreIsProper(f);
      BesidesNotifying(f, g);
    }
    SideBySide(CORE, NOTIFYING);
  }

  lemma {:induction false} FieldInAll(ps: seq<Provider>, k: nat, i: nat)
    requires k < |ps| && i < |ps[k].settings|
    ensures FieldOf(ps[k], ps[k].settings[i]) in FieldsOfAll(ps)
  {
    if k == 0 {
      assert FieldsOf(ps[0])[i] in FieldsOf(ps[0]);
    } else {
      FieldInAll(ps[1..], k - 1, i);
    }
  }

  lemma WithIntegrations(basis: seq<Field>, ps: seq<Provider>)
    requires Separate(basis) && (forall f | f in basis :: Outside(f)) && AllGood(ps)
    ensures Separate(basis + FieldsOfAll(ps)) && forall f | f in basis + FieldsOfAll(ps) :: Proper(f)
  {
    ProvidersAreSeparate(ps);
    forall g | g in FieldsOfAll(ps)
      ensures Proper(g) && forall f | f in basis :: f.key != g.key && ApartFields(f, g)
    {
      IntegrationIsProper(ps, g);
    }
    SideBySide(basis, FieldsOfAll(ps));
  }

  lemma FieldsByName()
    ensures Field(MODE, MODE_PATH, Str) in CORE && Field(APP_URL, APP_PATH, Str) in CORE && Field(API_URL, API_PATH, Str) in CORE
  {
    assert CORE[0] in CORE && CORE[6] in CORE && CORE[7] in CORE;
  }

  predicate HasCallback(ps: seq<Provider>) {
    exists k, i :: 0 <= k < |ps| && 0 <= i < |ps[k].settings| && FieldOf(ps[k], ps[k].settings[i]) == Field(REDIRECT, REDIRECT_PATH, Str)
  }

  /** With any integrations that are good and that have the callback of GitLab. */
  lemma TableWith(ps: seq<Provider>)
    requires AllGood(ps) && HasCallback(ps)
    ensures Table(TableOf(ps))
  {
    BasisIsSeparate();
    forall f | f in CORE + NOTIFYING ensures Outside(f) { BasisIsOutside(f); }
    WithIntegrations(CORE + NOTIFYING, ps);
    var k, i :| 0 <= k < |ps| && 0 <= i < |ps[k].settings| && FieldOf(ps[k], ps[k].settings[i]) == Field(REDIRECT, REDIRECT_PATH, Str);
    FieldInAll(ps, k, i);
    FieldsByName();
  }

  lemma KeyOfCallback()
    ensures KeyOf("GITLAB", "OAUTH_REDIRECT_URI") == REDIRECT
  {
  }

  lemma GitlabHasCallback()
    ensures HasCallback(PROVIDERS)
  {
    KeyOfCallback();
    var p := Provider("GITLAB", "gitlab", GITLAB_SETTINGS);
    assert PROVIDERS[1] == p && p.settings[5] == Member("OAUTH_REDIRECT_URI", "oauthRedirectUri", Str);
    assert FieldOf(PROVIDERS[1], PROVIDERS[1].settings[5]) == Field(REDIRECT, REDIRECT_PATH, Str);
  }

  /** The table of the installer has what is used of it. */
  lemma TableHolds()
    ensures Table(FIELDS)
  {
    ProvidersAreGood();
    GitlabHasCallback();
    TableWith(PROVIDERS);
  }
}
