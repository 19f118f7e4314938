/** The round trips of the runtime configuration: through the environment settings, and through
    the rendered file. */
module RuntimeReadBack {
  import opened ConfigTree
  import opened Dictionary
  import opened EnvFile
  import opened EnvRoundTrip
  import opened JsonText
  import opened Options
  import opened RuntimeConfig
  import opened RuntimeRoundTrip

  // ---------- through the settings ----------

  lemma {:induction false} ItemIsWritten(items: Entries<Json>, name: string)
    requires WellFormedFields(items) && Find(items, name).Some?
    ensures Write(["notifications", name], Find(items, name).value) in ItemWrites(items)
  {
    if items.key != name { ItemIsWritten(items.rest, name); }
  }

  lemma ContentAt(config: Json, name: string)
    requires name != "enabled" && (Get(config, NOTIFICATIONS_PATH).Some? ==> Get(config, NOTIFICATIONS_PATH).value.Object?)
    ensures Get(config, ["notifications", name]) == Find(Content(config), name)
  {
    var path := ["notifications", name];
    var v := Get(config, NOTIFICATIONS_PATH);
    assert path[1..] == [name] && path[1..][1..] == [] && NOTIFICATIONS_PATH[1..] == [];
    if v.Some? {
      assert Find(config.fields, "notifications") == v;
      assert Get(config, path) == Get(v.value, [name]);
      assert Get(v.value, [name]) == Find(v.value.fields, name);
      FindAfterRemove(v.value.fields, "enabled", name);
    }
  }

  lemma NotificationsAreObject(fields: seq<Field>, config: Json, f: Field)
    requires Table(fields) && ToEnv(fields, config).Some? && f in fields && f.key == NOTIFICATIONS
    ensures Get(config, NOTIFICATIONS_PATH).Some? ==> Get(config, NOTIFICATIONS_PATH).value.Object?
  {
    var i :| 0 <= i < |fields| && fields[i] == f;
    assert Proper(f);
    TextAtField(fields, config, i);
  }

  lemma NotificationReadBack(fields: seq<Field>, config: Json, f: Field, name: string)
    requires Table(fields) && WellFormed(config) && ToEnv(fields, config).Some?
    requires f in fields && f.key == NOTIFICATIONS && name != "enabled"
    ensures Again(fields, config).Some?
    ensures Get(Again(fields, config).value, ["notifications", name]) == Get(config, ["notifications", name])
  {
    var path := ["notifications", name];
    NotificationsAreObject(fields, config, f);
    ContentAt(config, name);
    ContentIsWellFormed(config);
    var items := Content(config);
    FieldHasWrites(config, fields, f);
    if Find(items, name).Some? {
      ItemIsWritten(items, name);
      WrittenIsRead(fields, config, Write(path, Find(items, name).value));
    } else {
      AbsentIsApart(fields, config, f, name);
      UnwrittenIsUnset(fields, config, f, path);
    }
  }

  lemma AbsentIsApart(fields: seq<Field>, config: Json, f: Field, name: string)
    requires Table(fields) && ToEnv(fields, config).Some? && f in fields && f.key == NOTIFICATIONS
    requires Find(Content(config), name).None?
    ensures forall w | w in FieldWrites(config, f) :: Apart(w.path, ["notifications", name])
  {
    var path, items := ["notifications", name], Content(config);
    NotificationsAreObject(fields, config, f);
    FieldHasWrites(config, fields, f);
    FindsKeys(items, name);
    forall w | w in FieldWrites(config, f) ensures Apart(w.path, path) {
      ItemPaths(items, w);
      assert Apart(w.path[1..], path[1..]);
    }
  }

  /** What reading back keeps of a field: the callback of GitLab moves to the API, a missing
      address of the API is filled in, and every other value is as it was. */
  function Kept(config: Json, f: Field): Option<Json> {
    if f.key == API_URL && Get(config, f.path).None? && ApiUrl(config).Some? then Some(Text(ApiUrl(config).value))
    else if f.key == REDIRECT && ApiUrl(config).Some? && Get(config, f.path) == Some(Text(AppUrl(config) + CALLBACK))
    then Some(Text(ApiUrl(config).value + CALLBACK))
    else Get(config, f.path)
  }

  lemma ApiIsSet(fields: seq<Field>, config: Json)
    requires Table(fields) && WellFormed(config) && ToEnv(fields, config).Some?
    ensures ApiUrl(config).Some? && Again(fields, config).Some?
    ensures Get(Again(fields, config).value, API_PATH) == Some(Text(ApiUrl(config).value))
    ensures TextAt(Again(fields, config).value, MODE_PATH, "local") == TextAt(config, MODE_PATH, "local")
    ensures forall d :: TextAt(Again(fields, config).value, APP_PATH, d) == TextAt(config, APP_PATH, d)
  {
    var values := FieldTexts(fields, config).value;
    var api, app := Field(API_URL, API_PATH, Str), Field(APP_URL, APP_PATH, Str);
    PlainSetting(fields, config, api);
    PlainSetting(fields, config, app);
    FieldReadBack(fields, config, api);
    FieldReadBack(fields, config, app);
    FieldReadBack(fields, config, Field(MODE, MODE_PATH, Str));
  }

  lemma CompletedAgain(fields: seq<Field>, config: Json)
    requires Table(fields) && WellFormed(config) && ToEnv(fields, config).Some?
    ensures Again(fields, config).Some? && ApiUrl(config).Some?
    ensures FromEnv(fields, ToEnv(fields, config).value)
            == if DefaultApi(AppUrl(config)).None? then None
               else
                 var c := Again(fields, config).value;
                 if Get(c, REDIRECT_PATH) == Some(Text(AppUrl(config) + CALLBACK))
                 then Some(Replace(c, REDIRECT_PATH, Text(ApiUrl(config).value + CALLBACK)))
                 else Some(c)
  {
    var values, env := FieldTexts(fields, config).value, ToEnv(fields, config).value;
    ApiIsSet(fields, config);
    DomainsAt(config, values, MODE);
    CompletedFull(Again(fields, config).value, env, ApiUrl(config).value);
  }

  /** Completing a configuration that has an API address, and whose gateway is the one given. */
  lemma CompletedFull(c: Json, env: Entries<string>, api: string)
    requires c.Object? && Get(c, API_PATH) == Some(Text(api))
    ensures Find(env, GATEWAY).Some? && GatewayDomain(c) == Find(env, GATEWAY) ==>
              Completed(c, env)
              == if DefaultApi(AppUrl(c)).None? then None
                 else if Get(c, REDIRECT_PATH) == Some(Text(AppUrl(c) + CALLBACK))
                 then Some(Replace(c, REDIRECT_PATH, Text(api + CALLBACK)))
                 else Some(c)
  {
    FindsKeys(c.fields, "installation");
    assert WithObject(c, "installation") == c;
  }

  /** Reading back the environment of an accepted configuration succeeds exactly when an API
      address can be derived from the application's, even if one is given. */
  lemma ReadsBackIffDerivable(fields: seq<Field>, config: Json)
    requires Table(fields) && WellFormed(config) && ToEnv(fields, config).Some?
    ensures FromEnv(fields, ToEnv(fields, config).value).Some? <==> DefaultApi(AppUrl(config)).Some?
  {
    CompletedAgain(fields, config);
  }

  /** And when it succeeds, it agrees with the configuration on every setting. */
  lemma ReadBackAgrees(fields: seq<Field>, config: Json, f: Field)
    requires Table(fields) && WellFormed(config) && ToEnv(fields, config).Some? && f in fields
    requires FromEnv(fields, ToEnv(fields, config).value).Some?
    ensures var again := FromEnv(fields, ToEnv(fields, config).value).value;
            && (f.key != NOTIFICATIONS ==> Get(again, f.path) == Kept(config, f))
            && (f.key == NOTIFICATIONS ==>
                  forall name | name != "enabled" :: Get(again, ["notifications", name]) == Get(config, ["notifications", name]))
  {
    CompletedAgain(fields, config);
    var c := Again(fields, config).value;
    var redirect := Field(REDIRECT, REDIRECT_PATH, Str);
    FieldReadBack(fields, config, redirect);
    if f.key == NOTIFICATIONS {
      forall name | name != "enabled"
        ensures var again := FromEnv(fields, ToEnv(fields, config).value).value;
                Get(again, ["notifications", name]) == Get(config, ["notifications", name])
      {
        NotificationReadBack(fields, config, f, name);
        RedirectKeepsOthers(c, Text(ApiUrl(config).value + CALLBACK), ["notifications", name]);
      }
    } else {
      FieldReadBack(fields, config, f);
      if f.key == REDIRECT {
        SameKeySameField(fields, f, redirect);
      } else {
        FieldsApart(fields, redirect, f);
      }
      RedirectKeepsOthers(c, Text(ApiUrl(config).value + CALLBACK), f.path);
    }
  }

  lemma FieldsApart(fields: seq<Field>, f: Field, g: Field)
    requires Separate(fields) && f in fields && g in fields
    requires f.key != g.key && f.key != NOTIFICATIONS && g.key != NOTIFICATIONS
    ensures Apart(f.path, g.path)
  {
    var i :| 0 <= i < |fields| && fields[i] == f;
    var j :| 0 <= j < |fields| && fields[j] == g;
    if i < j { assert ApartFields(f, g); } else { assert ApartFields(g, f); ApartIsSymmetric(g.path, f.path); }
  }

  lemma RedirectKeepsOthers(c: Json, x: Json, path: Path)
    ensures Get(c, REDIRECT_PATH).Some? ==> Get(Replace(c, REDIRECT_PATH, x), REDIRECT_PATH) == Some(x)
    ensures Get(c, REDIRECT_PATH).Some? && Apart(REDIRECT_PATH, path) ==> Get(Replace(c, REDIRECT_PATH, x), path) == Get(c, path)
  {
    if Get(c, REDIRECT_PATH).Some? { ReplaceKeepsOthers(c, REDIRECT_PATH, x, path); }
  }

  // ---------- through the file ----------

  lemma {:induction false} KeysOfTexts(fields: seq<Field>, config: Json)
    requires FieldTexts(fields, config).Some? && forall f | f in fields :: Proper(f)
    ensures OneValueEach(FieldTexts(fields, config).value)
    ensures forall k | k in Keys(FieldTexts(fields, config).value) :: k !in DERIVED && KnownKey(fields, k)
    decreases |fields|
  {
    if fields != [] {
      var n := |fields| - 1;
      KeysOfTexts(fields[..n], config);
      var t := TextOf(config, fields[n]);
      if t.Given? { PutKeepsOneValueEach(FieldTexts(fields[..n], config).value, fields[n].key, t.text); }
      forall k | KnownKey(fields[..n], k) ensures KnownKey(fields, k) {
        if k !in DERIVED {
          var i :| 0 <= i < n && fields[..n][i].key == k;
          assert fields[i].key == k;
        }
      }
      assert Proper(fields[n]);
    }
  }

  lemma KeysWithDomains(config: Json, values: Entries<string>)
    requires OneValueEach(values) && Keys(values) !! DERIVED && WithDomains(config, values).Some?
    ensures OneValueEach(WithDomains(config, values).value)
    ensures Keys(WithDomains(config, values).value) <= Keys(values) + DERIVED + {API_URL}
  {
    var gateway := GatewayDomain(config).value;
    var api := if Find(values, API_URL).Some? then Find(values, API_URL) else DefaultApi(Or(Find(values, APP_URL), LOCAL_APP));
    PutKeepsOneValueEach(values, GATEWAY, gateway);
    var one := Put(values, GATEWAY, gateway);
    PutKeepsOneValueEach(one, API_URL, api.value);
    var two := Put(one, API_URL, api.value);
    if HostOf(api.value).Some? { PutKeepsOneValueEach(two, GATEWAY_API, HostOf(api.value).value); }
  }

  /** The keys of an environment are those of fields and the derived ones, each once. */
  lemma KeysOfEnv(fields: seq<Field>, config: Json)
    requires Table(fields) && ToEnv(fields, config).Some?
    ensures OneValueEach(ToEnv(fields, config).value)
    ensures forall k | k in Keys(ToEnv(fields, config).value) :: KnownKey(fields, k)
  {
    var values := FieldTexts(fields, config).value;
    KeysOfTexts(fields, config);
    KeysWithDomains(config, values);
    assert KnownKey(fields, API_URL) by {
      var i :| 0 <= i < |fields| && fields[i] == Field(API_URL, API_PATH, Str);
    }
  }

  lemma KeyIsSetting(fields: seq<Field>, k: string)
    requires (forall f | f in fields :: Proper(f)) && KnownKey(fields, k)
    ensures IsKey(k) && k != OBSOLETE
  {
    if k !in DERIVED {
      var i :| 0 <= i < |fields| && fields[i].key == k;
      assert Proper(fields[i]);
    }
  }

  lemma {:induction false} AllAreSettings(fields: seq<Field>, unquote: string -> Option<string>, drop: bool, d: Entries<string>)
    requires (forall f | f in fields :: Proper(f)) && forall k | k in Keys(d) :: KnownKey(fields, k)
    ensures Settings(ReaderOf(fields, unquote, drop), d)
  {
    if d.Entry? {
      KeyIsSetting(fields, d.key);
      AllAreSettings(fields, unquote, drop, d.rest);
    }
  }

  /** Parsing the rendered environment of a configuration gives it back, exactly when none of
      its values contains a line break. */
  lemma RenderedIsReadBack(fields: seq<Field>, unquote: string -> Option<string>, drop: bool, config: Json)
    requires Table(fields) && ToEnv(fields, config).Some?
    ensures var env := ToEnv(fields, config).value;
            Parsed(ReaderOf(fields, unquote, drop), Rendered(env)) == Some(env) <==> AllUnbroken(env)
  {
    var env := ToEnv(fields, config).value;
    KeysOfEnv(fields, config);
    AllAreSettings(fields, unquote, drop, env);
    ParseInvertsRender(ReaderOf(fields, unquote, drop), env);
  }

  lemma {:induction false} KindOfField(fields: seq<Field>, i: nat)
    requires i < |fields| && Separate(fields) && fields[i].key !in DERIVED
    ensures KnownKey(fields, fields[i].key) && KindOf(fields, fields[i].key) == fields[i].kind
    decreases |fields|
  {
    if i > 0 {
      assert fields[0].key != fields[i].key;
      assert Separate(fields[1..]) by {
        forall a, b | 0 <= a < b < |fields| - 1
          ensures fields[1..][a].key != fields[1..][b].key && ApartFields(fields[1..][a], fields[1..][b])
        {
          assert fields[a + 1].key != fields[b + 1].key && ApartFields(fields[a + 1], fields[b + 1]);
        }
      }
      KindOfField(fields[1..], i - 1);
    }
  }

  lemma SameAsItself(fields: seq<Field>, config: Json, k: string)
    requires Table(fields) && WellFormed(config) && ToEnv(fields, config).Some?
    requires k in Keys(ToEnv(fields, config).value)
    ensures KnownKey(fields, k) && Find(ToEnv(fields, config).value, k).Some?
    ensures var text := Find(ToEnv(fields, config).value, k).value; SameSetting(fields, k, text, text)
  {
    KeysOfEnv(fields, config);
    FindsKeys(ToEnv(fields, config).value, k);
    if k !in DERIVED {
      var i :| 0 <= i < |fields| && fields[i].key == k;
      KindOfField(fields, i);
      EnvReads(fields, config, fields[i]);
    }
  }

  lemma {:induction false} AllSameAsThemselves(fields: seq<Field>, config: Json, d: Entries<string>)
    requires Table(fields) && WellFormed(config) && ToEnv(fields, config).Some? && OneValueEach(d)
    requires forall k | k in Keys(d) :: Find(ToEnv(fields, config).value, k) == Find(d, k)
    ensures AllSame(fields, d, ToEnv(fields, config).value)
  {
    if d.Entry? {
      FindsKeys(ToEnv(fields, config).value, d.key);
      SameAsItself(fields, config, d.key);
      forall k | k in Keys(d.rest) ensures Find(ToEnv(fields, config).value, k) == Find(d.rest, k) {
        assert k in Keys(d) && k != d.key;
      }
      AllSameAsThemselves(fields, config, d.rest);
    }
  }

  /** Comparing succeeds on the file just rendered. */
  lemma ComparesAfterRendering(fields: seq<Field>, unquote: string -> Option<string>, config: Json)
    requires Table(fields) && WellFormed(config) && ToEnv(fields, config).Some?
    requires AllUnbroken(ToEnv(fields, config).value)
    ensures UpToDate(fields, unquote, config, Rendered(ToEnv(fields, config).value))
  {
    RenderedIsReadBack(fields, unquote, false, config);
    KeysOfEnv(fields, config);
    AllSameAsThemselves(fields, config, ToEnv(fields, config).value);
  }
}
