/** Reading back the environment of an accepted configuration: when it succeeds, and what it keeps. */
module RuntimeRoundTrip {
  import opened ConfigTree
  import opened Dictionary
  import opened EnvFile
  import opened EnvRoundTrip
  import opened JsonText
  import opened Options
  import opened RuntimeConfig

  // ---------- values ----------

  lemma ParseInvertsFormat(kind: Kind, v: Json)
    requires WellFormed(v) && FormatValue(kind, v).Some?
    ensures ParseValue(kind, FormatValue(kind, v).value) == Some(v)
  {
    if kind == JsonObject {
      ParseInverts(v, "");
      assert Raw(v) + "" == Raw(v);
    }
  }

  lemma {:induction false} FoundIsWellFormed(entries: Entries<Json>, k: string)
    requires WellFormedFields(entries)
    ensures Find(entries, k).Some? ==> WellFormed(Find(entries, k).value)
  {
    if entries.Entry? { FoundIsWellFormed(entries.rest, k); }
  }

  lemma {:induction false} GetIsWellFormed(v: Json, path: Path)
    requires WellFormed(v)
    ensures Get(v, path).Some? ==> WellFormed(Get(v, path).value)
    decreases path
  {
    if path != [] && v.Object? {
      FoundIsWellFormed(v.fields, path[0]);
      if Find(v.fields, path[0]).Some? { GetIsWellFormed(Find(v.fields, path[0]).value, path[1..]); }
    }
  }

  lemma {:induction false} RemoveIsWellFormed(entries: Entries<Json>, k: string)
    requires WellFormedFields(entries)
    ensures WellFormedFields(Remove(entries, k)) && Keys(Remove(entries, k)) == Keys(entries) - {k}
  {
    if entries.Entry? { RemoveIsWellFormed(entries.rest, k); }
  }

  lemma ContentIsWellFormed(config: Json)
    requires WellFormed(config)
    ensures WellFormed(Object(Content(config))) && "enabled" !in Keys(Content(config))
  {
    GetIsWellFormed(config, NOTIFICATIONS_PATH);
    var v := Get(config, NOTIFICATIONS_PATH);
    if v.Some? && v.value.Object? { RemoveIsWellFormed(v.value.fields, "enabled"); }
  }

  // ---------- the environment of an accepted configuration ----------

  lemma {:induction false} TextAtField(fields: seq<Field>, config: Json, i: nat)
    requires Separate(fields) && i < |fields| && FieldTexts(fields, config).Some?
    ensures var t := TextOf(config, fields[i]);
            && !t.Bad?
            && Find(FieldTexts(fields, config).value, fields[i].key) == if t.Missing? then None else Some(t.text)
    decreases |fields|
  {
    var n := |fields| - 1;
    var front, last := fields[..n], fields[n];
    var before := FieldTexts(front, config).value;
    var t := TextOf(config, last);
    if t.Given? { FindAfterPut(before, last.key, t.text, fields[i].key); }
    if i < n {
      TextAtField(front, config, i);
    } else {
      NoTextElsewhere(front, config, last.key);
    }
  }

  lemma {:induction false} NoTextElsewhere(fields: seq<Field>, config: Json, k: string)
    requires FieldTexts(fields, config).Some? && forall i | 0 <= i < |fields| :: fields[i].key != k
    ensures Find(FieldTexts(fields, config).value, k).None?
    decreases |fields|
  {
    if fields != [] {
      var n := |fields| - 1;
      NoTextElsewhere(fields[..n], config, k);
      var t := TextOf(config, fields[n]);
      if t.Given? { FindAfterPut(FieldTexts(fields[..n], config).value, fields[n].key, t.text, k); }
    }
  }

  function AppUrl(config: Json): string {
    TextAt(config, APP_PATH, LOCAL_APP)
  }

  function ApiUrl(config: Json): Option<string> {
    if Get(config, API_PATH).Some? then Some(TextAt(config, API_PATH, "")) else DefaultApi(AppUrl(config))
  }

  /** A text setting has the text of the configuration, if it is there. */
  lemma PlainSetting(fields: seq<Field>, config: Json, f: Field)
    requires Separate(fields) && f in fields && FieldTexts(fields, config).Some? && f.kind == Str && f.key != NOTIFICATIONS
    ensures var v := Get(config, f.path);
            && (v.Some? ==> v.value.Text?)
            && Find(FieldTexts(fields, config).value, f.key) == if v.None? then None else Some(v.value.s)
  {
    var i :| 0 <= i < |fields| && fields[i] == f;
    TextAtField(fields, config, i);
  }

  /** The settings that `WithDomains` adds, and those that it leaves. */
  lemma DomainsAt(config: Json, values: Entries<string>, k: string)
    requires WithDomains(config, values).Some?
    ensures var env := WithDomains(config, values).value;
            && (k !in DERIVED + {API_URL} ==> Find(env, k) == Find(values, k))
            && Find(env, PROFILES) == Some(Or(Find(values, MODE), "local"))
            && Find(env, GATEWAY) == GatewayDomain(config)
            && Find(env, API_URL) == if Find(values, API_URL).Some? then Find(values, API_URL)
                                     else DefaultApi(Or(Find(values, APP_URL), LOCAL_APP))
  {
    var gateway := GatewayDomain(config).value;
    var api := if Find(values, API_URL).Some? then Find(values, API_URL) else DefaultApi(Or(Find(values, APP_URL), LOCAL_APP));
    var one := Put(values, GATEWAY, gateway);
    var two := Put(one, API_URL, api.value);
    DomainAt(values, one, two, GATEWAY, gateway, api.value, HostOf(api.value), k);
    DomainAt(values, one, two, GATEWAY, gateway, api.value, HostOf(api.value), GATEWAY);
    DomainAt(values, one, two, GATEWAY, gateway, api.value, HostOf(api.value), API_URL);
  }

  lemma DomainAt(values: Entries<string>, one: Entries<string>, two: Entries<string>, g: string, gateway: string, api: string,
                 host: Option<string>, k: string)
    requires g == GATEWAY && one == Put(values, g, gateway) && two == Put(one, API_URL, api)
    ensures Find(two, k) == if k == API_URL then Some(api) else if k == g then Some(gateway) else Find(values, k)
    ensures host.Some? && k != GATEWAY_API ==> Find(Put(two, GATEWAY_API, host.value), k) == Find(two, k)
  {
    FindAfterPut(values, g, gateway, k);
    FindAfterPut(one, API_URL, api, k);
    if host.Some? { FindAfterPut(two, GATEWAY_API, host.value, k); }
  }

  /** What the environment holds for a field, as a value of the configuration. */
  function ValueOf(config: Json, f: Field): Option<Json> {
    if f.key == NOTIFICATIONS then
      if Content(config).NoEntry? then None else Some(Object(Content(config)))
    else if Get(config, f.path).None? && f.key == API_URL && ApiUrl(config).Some? then Some(Text(ApiUrl(config).value))
    else Get(config, f.path)
  }

  predicate Reads(config: Json, env: Entries<string>, f: Field) {
    if ValueOf(config, f).None? then Find(env, f.key).None?
    else Find(env, f.key).Some? && ParseValue(f.kind, Find(env, f.key).value) == ValueOf(config, f)
  }

  lemma EnvReads(fields: seq<Field>, config: Json, f: Field)
    requires Table(fields) && WellFormed(config) && ToEnv(fields, config).Some? && f in fields
    ensures Reads(config, ToEnv(fields, config).value, f)
  {
    if f.key == API_URL { ApiReads(fields, config, f); } else { OtherFieldReads(fields, config, f); }
  }

  lemma ApiReads(fields: seq<Field>, config: Json, f: Field)
    requires Table(fields) && ToEnv(fields, config).Some? && f in fields && f.key == API_URL
    ensures Reads(config, ToEnv(fields, config).value, f)
  {
    DomainsAt(config, FieldTexts(fields, config).value, f.key);
    PlainSetting(fields, config, Field(APP_URL, APP_PATH, Str));
    var api := Field(API_URL, API_PATH, Str);
    SameKeySameField(fields, f, api);
    PlainSetting(fields, config, api);
  }

  lemma OtherFieldReads(fields: seq<Field>, config: Json, f: Field)
    requires Table(fields) && WellFormed(config) && ToEnv(fields, config).Some? && f in fields && f.key != API_URL
    ensures Reads(config, ToEnv(fields, config).value, f)
  {
    DomainsAt(config, FieldTexts(fields, config).value, f.key);
    var i :| 0 <= i < |fields| && fields[i] == f;
    TextAtField(fields, config, i);
    GetIsWellFormed(config, f.path);
    ContentIsWellFormed(config);
    var v := ValueOf(config, f);
    if v.Some? { ParseInvertsFormat(f.kind, v.value); }
  }

  lemma SameKeySameField(fields: seq<Field>, f: Field, g: Field)
    requires Separate(fields) && f in fields && g in fields && f.key == g.key
    ensures f == g
  {
    var i :| 0 <= i < |fields| && fields[i] == f;
    var j :| 0 <= j < |fields| && fields[j] == g;
    assert i == j;
  }

  // ---------- reading is a series of writes ----------

  function FieldWrites(config: Json, f: Field): seq<Write> {
    var v := ValueOf(config, f);
    if v.None? then []
    else if f.key == NOTIFICATIONS && v.value.Object? then ItemWrites(v.value.fields)
    else [Write(f.path, v.value)]
  }

  function Writes(config: Json, fields: seq<Field>): seq<Write> {
    if fields == [] then []
    else Writes(config, fields[..|fields| - 1]) + FieldWrites(config, fields[|fields| - 1])
  }

  lemma {:induction false} WritesHavePaths(config: Json, fields: seq<Field>)
    requires forall f | f in fields :: f.path != []
    ensures forall w | w in Writes(config, fields) :: w.path != []
  {
    if fields != [] { WritesHavePaths(config, fields[..|fields| - 1]); }
  }

  /** Creating the object first makes no difference if something is written into it. */
  lemma ObjectFirst(config: Json, items: Entries<Json>)
    requires config.Object? && items.Entry?
    ensures SetAll(WithObject(config, "notifications"), ItemWrites(items)) == SetAll(config, ItemWrites(items))
  {
    var k := "notifications";
    if k !in Keys(config.fields) {
      var path := [k, items.key];
      FindsKeys(config.fields, k);
      FindAfterPut(config.fields, k, EMPTY, k);
      PutTwice(config.fields, k, EMPTY, Set(EMPTY, path[1..], items.value).value);
      assert Set(WithObject(config, k), path, items.value) == Set(config, path, items.value);
    }
  }

  lemma {:induction false} PutTwice<T>(d: Entries<T>, k: string, x: T, y: T)
    ensures Put(Put(d, k, x), k, y) == Put(d, k, y)
  {
    if d.Entry? { PutTwice(d.rest, k, x, y); }
  }

  lemma ReadsOneField(config: Json, f: Field, now: Json)
    requires f.path != [] && now.Object? && ValueOf(config, f).Some?
    ensures forall w | w in FieldWrites(config, f) :: w.path != []
    ensures ReadField(now, f, ValueOf(config, f).value) == SetAll(now, FieldWrites(config, f))
  {
    var x := ValueOf(config, f).value;
    if f.key == NOTIFICATIONS {
      ObjectFirst(now, x.fields);
    } else {
      var writes := FieldWrites(config, f);
      assert writes == [Write(f.path, x)] && writes[1..] == [];
      var next := Set(now, f.path, x);
      assert next.Some? ==> SetAll(next.value, []) == Some(next.value);
    }
  }

  lemma {:induction false} ReadsAsWrites(config: Json, env: Entries<string>, fields: seq<Field>, start: Json)
    requires start.Object? && forall f | f in fields :: f.path != [] && Reads(config, env, f)
    ensures forall w | w in Writes(config, fields) :: w.path != []
    ensures ReadFields(fields, env, start) == SetAll(start, Writes(config, fields))
    decreases |fields|
  {
    WritesHavePaths(config, fields);
    if fields != [] {
      var front, last := fields[..|fields| - 1], fields[|fields| - 1];
      ReadsAsWrites(config, env, front, start);
      SetAllInTurn(start, Writes(config, front), FieldWrites(config, last));
      var before := ReadFields(front, env, start);
      if before.Some? && ValueOf(config, last).Some? { ReadsOneField(config, last, before.value); }
      else if before.Some? { assert FieldWrites(config, last) == []; }
    }
  }

  // ---------- the writes are apart ----------

  predicate Covers(f: Field, path: Path) {
    if f.key == NOTIFICATIONS then |path| == 2 && path[0] == "notifications" && path[1] != "enabled"
    else path == f.path
  }

  lemma CoversApart(f: Field, g: Field, p: Path, q: Path)
    requires Proper(f) && Proper(g) && f.key != g.key && ApartFields(f, g) && Covers(f, p) && Covers(g, q)
    ensures Apart(p, q) && Apart(q, p)
  {
    if f.key == NOTIFICATIONS || g.key == NOTIFICATIONS {
      assert p[0] == q[0] ==> Apart(p[1..], q[1..]) && Apart(q[1..], p[1..]);
    } else {
      ApartIsSymmetric(p, q);
    }
  }

  lemma {:induction false} ItemPaths(items: Entries<Json>, w: Write)
    requires w in ItemWrites(items)
    ensures |w.path| == 2 && w.path[0] == "notifications" && w.path[1] in Keys(items)
  {
    if w != Write(["notifications", items.key], items.value) { ItemPaths(items.rest, w); }
  }

  lemma {:induction false} ItemsApart(items: Entries<Json>)
    requires WellFormedFields(items)
    ensures AllApart(ItemWrites(items))
  {
    if items.Entry? {
      ItemsApart(items.rest);
      var rest := ItemWrites(items.rest);
      var path := ["notifications", items.key];
      forall j | 0 <= j < |rest| ensures Apart(path, rest[j].path) {
        ItemPaths(items.rest, rest[j]);
        assert Apart(path[1..], rest[j].path[1..]);
      }
    }
  }

  lemma WritesCovered(config: Json, f: Field, w: Write)
    requires WellFormed(config) && w in FieldWrites(config, f)
    ensures Covers(f, w.path)
  {
    if f.key == NOTIFICATIONS {
      ContentIsWellFormed(config);
      ItemPaths(Content(config), w);
    }
  }

  lemma {:induction false} WriteHasField(config: Json, fields: seq<Field>, w: Write) returns (i: nat)
    requires w in Writes(config, fields)
    ensures i < |fields| && w in FieldWrites(config, fields[i])
    decreases |fields|
  {
    var n := |fields| - 1;
    if w in FieldWrites(config, fields[n]) { i := n; } else { i := WriteHasField(config, fields[..n], w); }
  }

  lemma {:induction false} FieldHasWrites(config: Json, fields: seq<Field>, f: Field)
    requires f in fields
    ensures forall w | w in FieldWrites(config, f) :: w in Writes(config, fields)
    decreases |fields|
  {
    var n := |fields| - 1;
    if f != fields[n] { FieldHasWrites(config, fields[..n], f); }
  }

  lemma FieldWritesApart(config: Json, f: Field)
    requires WellFormed(config)
    ensures AllApart(FieldWrites(config, f))
  {
    if f.key == NOTIFICATIONS {
      ContentIsWellFormed(config);
      ItemsApart(Content(config));
    }
  }

  lemma {:induction false} WritesApart(config: Json, fields: seq<Field>)
    requires WellFormed(config) && Separate(fields) && forall f | f in fields :: Proper(f)
    ensures AllApart(Writes(config, fields))
    decreases |fields|
  {
    if fields != [] {
      var n := |fields| - 1;
      var front, last := fields[..n], fields[n];
      var a, b := Writes(config, front), FieldWrites(config, last);
      WritesApart(config, front);
      FieldWritesApart(config, last);
      forall i, j | 0 <= i < |a| && 0 <= j < |b| ensures Apart(a[i].path, b[j].path) {
        var m := WriteHasField(config, front, a[i]);
        WritesCovered(config, fields[m], a[i]);
        WritesCovered(config, last, b[j]);
        CoversApart(fields[m], last, a[i].path, b[j].path);
      }
    }
  }

  lemma {:induction false} FreeInEmpty(path: Path)
    requires path != []
    ensures Free(EMPTY, path)
  {
    if |path| > 1 { FreeInEmpty(path[1..]); }
  }

  lemma FreeAtStart(path: Path)
    requires path != [] && path[0] != "version"
    ensures Free(VERSION_ONE, path)
  {
    assert Find(VERSION_ONE.fields, path[0]).None?;
    assert ChildOf(VERSION_ONE, path[0]) == EMPTY;
    if |path| > 1 { FreeInEmpty(path[1..]); }
  }

  lemma WritesFree(config: Json, fields: seq<Field>)
    requires WellFormed(config) && forall f | f in fields :: Proper(f)
    ensures AllFree(VERSION_ONE, Writes(config, fields))
  {
    forall w | w in Writes(config, fields) ensures Free(VERSION_ONE, w.path) {
      var i := WriteHasField(config, fields, w);
      assert Proper(fields[i]);
      WritesCovered(config, fields[i], w);
      FreeAtStart(w.path);
    }
  }

  // ---------- what is read back ----------

  /** The configuration before the API address and the callback are completed. */
  function Again(fields: seq<Field>, config: Json): (r: Option<Json>)
    requires Table(fields) && ToEnv(fields, config).Some?
    ensures r.Some? ==> r.value.Object?
  {
    assert forall f | f in fields :: Proper(f);
    ReadFields(fields, ToEnv(fields, config).value, VERSION_ONE)
  }

  lemma AgainIsSetAll(fields: seq<Field>, config: Json)
    requires Table(fields) && WellFormed(config) && ToEnv(fields, config).Some?
    ensures AllApart(Writes(config, fields)) && AllFree(VERSION_ONE, Writes(config, fields))
    ensures Again(fields, config) == SetAll(VERSION_ONE, Writes(config, fields)) && Again(fields, config).Some?
  {
    var env := ToEnv(fields, config).value;
    forall f | f in fields ensures Reads(config, env, f) && f.path != [] {
      EnvReads(fields, config, f);
      assert Proper(f);
    }
    ReadsAsWrites(config, env, fields, VERSION_ONE);
    WritesApart(config, fields);
    WritesFree(config, fields);
    if Writes(config, fields) == [] {
    } else {
      GetWhatWasSetAll(VERSION_ONE, Writes(config, fields), 0);
    }
  }

  lemma WrittenIsRead(fields: seq<Field>, config: Json, w: Write)
    requires Table(fields) && WellFormed(config) && ToEnv(fields, config).Some?
    requires w in Writes(config, fields)
    ensures Again(fields, config).Some? && Get(Again(fields, config).value, w.path) == Some(w.value)
  {
    AgainIsSetAll(fields, config);
    var writes := Writes(config, fields);
    var i :| 0 <= i < |writes| && writes[i] == w;
    GetWhatWasSetAll(VERSION_ONE, writes, i);
  }

  /** A path that belongs to a field, and that the field does not write, stays unset. */
  lemma UnwrittenIsUnset(fields: seq<Field>, config: Json, f: Field, path: Path)
    requires Table(fields) && WellFormed(config) && ToEnv(fields, config).Some?
    requires f in fields && Covers(f, path) && path != [] && path[0] != "version"
    requires forall w | w in FieldWrites(config, f) :: Apart(w.path, path)
    ensures Again(fields, config).Some? && Get(Again(fields, config).value, path).None?
  {
    AgainIsSetAll(fields, config);
    forall w | w in Writes(config, fields) ensures Apart(w.path, path) {
      var i := WriteHasField(config, fields, w);
      var j :| 0 <= j < |fields| && fields[j] == f;
      if i != j {
        assert Proper(fields[i]) && Proper(f);
        WritesCovered(config, fields[i], w);
        if i < j { CoversApart(fields[i], f, w.path, path); } else { CoversApart(f, fields[i], path, w.path); }
      }
    }
    SetAllKeepsOthers(VERSION_ONE, Writes(config, fields), path);
    FreeAtStart(path);
    FreeIsUnset(VERSION_ONE, path);
  }

  lemma {:induction false} FreeIsUnset(v: Json, path: Path)
    requires Free(v, path)
    ensures Get(v, path).None?
    decreases path
  {
    FindsKeys(v.fields, path[0]);
    if |path| > 1 && path[0] in Keys(v.fields) { FreeIsUnset(ChildOf(v, path[0]), path[1..]); }
  }

  lemma FieldReadBack(fields: seq<Field>, config: Json, f: Field)
    requires Table(fields) && WellFormed(config) && ToEnv(fields, config).Some?
    requires f in fields && f.key != NOTIFICATIONS
    ensures Again(fields, config).Some? && Get(Again(fields, config).value, f.path) == ValueOf(config, f)
  {
    assert Proper(f);
    if ValueOf(config, f).Some? {
      var w := Write(f.path, ValueOf(config, f).value);
      FieldHasWrites(config, fields, f);
      assert FieldWrites(config, f) == [w];
      assert w in FieldWrites(config, f);
      WrittenIsRead(fields, config, w);
    } else {
      UnwrittenIsUnset(fields, config, f, f.path);
    }
  }
}
