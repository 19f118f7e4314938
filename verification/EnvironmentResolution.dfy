/** Resolving one environment of a repository: which entity files are accepted, what each
    contributes, and on what the resulting manifest depends. */
module EnvironmentResolution {
  import opened EnvironmentMerge
  import opened JsonText
  import opened KeyOrder
  import opened Options
  import opened StableStringify

  datatype Kind = App | Compose | Resource
  datatype PathKind = Refused | Other | Entity(kind: Kind)

  /** What the libraries and the field checks decide; nothing is known about them. */
  datatype Rules = Rules(
    lt: Order,
    kindOf: string -> PathKind,
    isMapping: (string, string) -> bool,
    isEnvironmentName: string -> bool,
    isId: string -> bool,
    isServer: Option<Value> -> bool,
    secretsOf: (Kind, Value) -> Option<Value>,
    schema: (Kind, map<string, Value>) -> Option<map<string, Value>>,
    normalize: (string, Option<Value>, seq<Value>, seq<Value>, seq<Value>) -> Option<Value>)

  datatype Settings = Settings(buildServer: Option<Value>, previews: bool)
  datatype Root = Root(buildServer: Option<Value>, deploymentInputs: Option<Value>, environments: map<string, Settings>)

  /** An entity file with the value that its text stands for, if it is valid. */
  datatype RepositoryFile = RepositoryFile(path: string, bytes: nat, document: Option<Value>)

  datatype Input = Input(root: Option<Root>, files: seq<RepositoryFile>, environment: string, branch: string)

  datatype Manifest = Manifest(normalized: Value, environment: string, previewsEnabled: bool,
                               requiredSecrets: map<(Kind, string), Value>)

  const MAX_FILES := 1000
  const MAX_FILE_BYTES := 256 * 1024
  const MAX_BYTES := 8 * 1024 * 1024
  const UNSAFE := {"__proto__", "constructor", "prototype"}
  const ENTITY_LEVEL := {"id", "name", "type", "secrets", "preview", "environments"}

  function PathOf(f: RepositoryFile): string {
    f.path
  }

  // ---------- one file ----------

  predicate Safe(v: Value) {
    match v
    case VArray(items) => forall i | 0 <= i < |items| :: Safe(items[i])
    case VObject(fields) => forall k | k in fields :: k !in UNSAFE && Safe(fields[k])
    case _ => true
  }

  /** The settings of the environments in a file: an object of objects, each for a declared
      environment and none with a key that belongs to the entity. */
  predicate SettingsAllowed(rules: Rules, root: Root, fields: map<string, Value>) {
    && "environments" in fields && fields["environments"].VObject?
    && forall e | e in fields["environments"].fields ::
         && rules.isEnvironmentName(e) && e in root.environments
         && fields["environments"].fields[e].VObject?
         && forall k | k in fields["environments"].fields[e].fields :: k !in ENTITY_LEVEL
  }

  function Defaults(fields: map<string, Value>): map<string, Value> {
    fields - {"environments", "secrets"}
  }

  function Secrets(fields: map<string, Value>): Value {
    if "secrets" !in fields || fields["secrets"].VNull? then VObject(map[]) else fields["secrets"]
  }

  /** The kind and the id that an accepted file gives its entity. */
  function Identity(kind: Kind, fields: map<string, Value>): (Kind, string) {
    (kind, if "id" in fields && fields["id"].VText? then fields["id"].s else "")
  }

  predicate WellDescribed(rules: Rules, root: Root, kind: Kind, f: RepositoryFile) {
    && f.bytes <= MAX_FILE_BYTES && f.document.Some? && f.document.value.VObject? && Safe(f.document.value)
    && var fields := f.document.value.fields;
       && SettingsAllowed(rules, root, fields)
       && "id" in fields && fields["id"].VText? && rules.isId(fields["id"].s)
       && rules.secretsOf(kind, Secrets(fields)).Some?
  }

  predicate Selects(f: RepositoryFile, environment: string) {
    && f.document.Some? && f.document.value.VObject?
    && "environments" in f.document.value.fields
    && f.document.value.fields["environments"].VObject?
    && environment in f.document.value.fields["environments"].fields
    && f.document.value.fields["environments"].fields[environment].VObject?
  }

  /** What resolving an environment reads of a file that selects it. */
  datatype View = View(path: string, kind: Kind, defaults: map<string, Value>, secrets: Value, selected: map<string, Value>)

  function ViewOf(kind: Kind, f: RepositoryFile, environment: string): View
    requires Selects(f, environment)
  {
    var fields := f.document.value.fields;
    View(f.path, kind, Defaults(fields), Secrets(fields), fields["environments"].fields[environment].fields)
  }

  function PathOfView(v: View): string {
    v.path
  }

  /** The settings of the environment over the defaults; an app without a build server takes
      that of the environment or else of the root, and a null one means none. */
  function Resolved(root: Root, settings: Settings, v: View): map<string, Value> {
    var merged := Merged(VObject(v.defaults), VObject(v.selected)).fields;
    if v.kind != App then merged
    else
      var inherited := if settings.buildServer.Some? then settings.buildServer else root.buildServer;
      var full :=
        if "buildServer" in merged || inherited.None? then merged else merged["buildServer" := inherited.value];
      if "buildServer" in full && full["buildServer"].VNull? then full - {"buildServer"} else full
  }

  function FieldAt(fields: map<string, Value>, k: string): Option<Value> {
    if k in fields then Some(fields[k]) else None
  }

  predicate Resolvable(rules: Rules, root: Root, settings: Settings, v: View) {
    && rules.secretsOf(v.kind, v.secrets).Some?
    && rules.isServer(FieldAt(Resolved(root, settings, v), "server"))
    && rules.schema(v.kind, Resolved(root, settings, v)).Some?
  }

  function EntityOf(rules: Rules, root: Root, settings: Settings, v: View): Value
    requires Resolvable(rules, root, settings, v)
  {
    var entity := rules.schema(v.kind, Resolved(root, settings, v)).value;
    VObject(if v.kind == App && !settings.previews then entity - {"preview"} else entity)
  }

  // ---------- all files ----------

  predicate Acceptable(rules: Rules, root: Root, environment: string, f: RepositoryFile)
    requires environment in root.environments
  {
    match rules.kindOf(f.path)
    case Refused => false
    case Other => true
    case Entity(kind) =>
      && WellDescribed(rules, root, kind, f)
      && (Selects(f, environment) ==> Resolvable(rules, root, root.environments[environment], ViewOf(kind, f, environment)))
  }

  /** The entity files, in order. */
  function Entities(rules: Rules, files: seq<RepositoryFile>): seq<RepositoryFile> {
    if files == [] then []
    else
      var last := files[|files| - 1];
      var before := Entities(rules, files[..|files| - 1]);
      if rules.kindOf(last.path).Entity? then before + [last] else before
  }

  function IdentityOf(rules: Rules, f: RepositoryFile): (Kind, string) {
    if rules.kindOf(f.path).Entity? && f.document.Some? && f.document.value.VObject?
    then Identity(rules.kindOf(f.path).kind, f.document.value.fields)
    else (App, "")
  }

  function TotalBytes(files: seq<RepositoryFile>): nat {
    if files == [] then 0 else TotalBytes(files[..|files| - 1]) + files[|files| - 1].bytes
  }

  predicate EachAcceptable(rules: Rules, root: Root, environment: string, files: seq<RepositoryFile>)
    requires environment in root.environments
  {
    files != [] ==> EachAcceptable(rules, root, environment, files[..|files| - 1])
                    && Acceptable(rules, root, environment, files[|files| - 1])
  }

  /** Entity files with paths and identities of their own, not too large together. */
  predicate Fits(rules: Rules, entities: seq<RepositoryFile>) {
    && DistinctKeys(entities, PathOf)
    && DistinctIdentities(rules, entities)
    && TotalBytes(entities) <= MAX_BYTES
  }

  /** What the loop over the files checks, apart from the order in which it finds a fault. */
  predicate AllAcceptable(rules: Rules, root: Root, environment: string, files: seq<RepositoryFile>)
    requires environment in root.environments
  {
    EachAcceptable(rules, root, environment, files) && Fits(rules, Entities(rules, files))
  }

  predicate DistinctIdentities(rules: Rules, entities: seq<RepositoryFile>) {
    forall i, j | 0 <= i < j < |entities| :: IdentityOf(rules, entities[i]) != IdentityOf(rules, entities[j])
  }

  function Views(rules: Rules, environment: string, files: seq<RepositoryFile>): seq<View> {
    if files == [] then []
    else
      var last := files[|files| - 1];
      Views(rules, environment, files[..|files| - 1])
      + if rules.kindOf(last.path).Entity? && Selects(last, environment)
        then [ViewOf(rules.kindOf(last.path).kind, last, environment)] else []
  }

  function EntitiesOf(rules: Rules, root: Root, settings: Settings, kind: Kind, views: seq<View>): seq<Value>
    requires forall v | v in views :: Resolvable(rules, root, settings, v)
  {
    if views == [] then []
    else
      var last := views[|views| - 1];
      EntitiesOf(rules, root, settings, kind, views[..|views| - 1])
      + if last.kind == kind then [EntityOf(rules, root, settings, last)] else []
  }

  function Declarations(rules: Rules, views: seq<View>): map<(Kind, string), Value>
    requires forall v | v in views :: rules.secretsOf(v.kind, v.secrets).Some?
  {
    if views == [] then map[]
    else
      var last := views[|views| - 1];
      Declarations(rules, views[..|views| - 1])
        [Identity(last.kind, last.defaults) := rules.secretsOf(last.kind, last.secrets).value]
  }

  /** The manifest that the views of the selecting files make, in the order of their paths. */
  function Assemble(rules: Rules, root: Root, environment: string, branch: string, views: seq<View>): Option<Manifest>
    requires environment in root.environments
    requires forall v | v in views :: Resolvable(rules, root, root.environments[environment], v)
  {
    var settings := root.environments[environment];
    var normalized := rules.normalize(branch, root.deploymentInputs,
                                      EntitiesOf(rules, root, settings, App, views),
                                      EntitiesOf(rules, root, settings, Compose, views),
                                      EntitiesOf(rules, root, settings, Resource, views));
    if normalized.None? then None
    else Some(Manifest(normalized.value, environment, settings.previews, Declarations(rules, views)))
  }

  lemma {:induction false} ViewsResolve(rules: Rules, root: Root, environment: string, files: seq<RepositoryFile>)
    requires environment in root.environments
    requires EachAcceptable(rules, root, environment, files)
    ensures forall v | v in Views(rules, environment, files) :: Resolvable(rules, root, root.environments[environment], v)
  {
    if files != [] {
      ViewsResolve(rules, root, environment, files[..|files| - 1]);
      assert Acceptable(rules, root, environment, files[|files| - 1]);
    }
  }

  /** The outcome of resolving: a manifest, or none if anything is refused. */
  function Resolution(rules: Rules, input: Input): Option<Manifest> {
    if input.root.None? || !rules.isMapping(input.environment, input.branch) then None
    else if input.environment !in input.root.value.environments || |input.files| > MAX_FILES then None
    else
      var files := SortByKey(rules.lt, input.files, PathOf);
      if !AllAcceptable(rules, input.root.value, input.environment, files) then None
      else
        ViewsResolve(rules, input.root.value, input.environment, files);
        Assemble(rules, input.root.value, input.environment, input.branch, Views(rules, input.environment, files))
  }

  // ---------- the loop of the source ----------

  lemma EntitiesSnoc(rules: Rules, front: seq<RepositoryFile>, f: RepositoryFile)
    ensures Entities(rules, front + [f])
            == if rules.kindOf(f.path).Entity? then Entities(rules, front) + [f] else Entities(rules, front)
  {
    assert (front + [f])[..|front|] == front;
  }

  lemma TotalSnoc(front: seq<RepositoryFile>, f: RepositoryFile)
    ensures TotalBytes(front + [f]) == TotalBytes(front) + f.bytes
  {
    assert (front + [f])[..|front|] == front;
  }

  lemma PathsSnoc(front: seq<RepositoryFile>, f: RepositoryFile)
    ensures DistinctKeys(front + [f], PathOf) <==> DistinctKeys(front, PathOf) && forall g | g in front :: g.path != f.path
  {
    var all := front + [f];
    if DistinctKeys(all, PathOf) {
      forall i, j | 0 <= i < j < |front| ensures PathOf(front[i]) != PathOf(front[j]) {
        assert PathOf(all[i]) != PathOf(all[j]);
      }
      forall g | g in front ensures g.path != f.path {
        var i :| 0 <= i < |front| && front[i] == g;
        assert PathOf(all[i]) != PathOf(all[|front|]);
      }
    }
  }

  lemma IdentitiesSnoc(rules: Rules, front: seq<RepositoryFile>, f: RepositoryFile)
    ensures DistinctIdentities(rules, front + [f])
            <==> DistinctIdentities(rules, front) && forall g | g in front :: IdentityOf(rules, g) != IdentityOf(rules, f)
  {
    var all := front + [f];
    if DistinctIdentities(rules, all) {
      forall i, j | 0 <= i < j < |front| ensures IdentityOf(rules, front[i]) != IdentityOf(rules, front[j]) {
        assert IdentityOf(rules, all[i]) != IdentityOf(rules, all[j]);
      }
      forall g | g in front ensures IdentityOf(rules, g) != IdentityOf(rules, f) {
        var i :| 0 <= i < |front| && front[i] == g;
        assert IdentityOf(rules, all[i]) != IdentityOf(rules, all[|front|]);
      }
    }
  }

  lemma FitsSnoc(rules: Rules, front: seq<RepositoryFile>, f: RepositoryFile)
    ensures Fits(rules, front + [f])
            <==> && Fits(rules, front) && TotalBytes(front) + f.bytes <= MAX_BYTES
                 && forall g | g in front :: g.path != f.path && IdentityOf(rules, g) != IdentityOf(rules, f)
  {
    TotalSnoc(front, f);
    PathsSnoc(front, f);
    IdentitiesSnoc(rules, front, f);
  }

  lemma EachSnoc(rules: Rules, root: Root, environment: string, front: seq<RepositoryFile>, f: RepositoryFile)
    requires environment in root.environments
    ensures EachAcceptable(rules, root, environment, front + [f])
            <==> EachAcceptable(rules, root, environment, front) && Acceptable(rules, root, environment, f)
  {
    assert (front + [f])[..|front|] == front;
  }

  lemma FrontAcceptable(rules: Rules, root: Root, environment: string, front: seq<RepositoryFile>, f: RepositoryFile)
    requires environment in root.environments
    ensures AllAcceptable(rules, root, environment, front + [f]) ==> AllAcceptable(rules, root, environment, front)
  {
    EntitiesSnoc(rules, front, f);
    EachSnoc(rules, root, environment, front, f);
    FitsSnoc(rules, Entities(rules, front), f);
  }

  /** Whatever is refused after some of the files is refused after all of them. */
  lemma {:induction false} PrefixAcceptable(rules: Rules, root: Root, environment: string, files: seq<RepositoryFile>, n: nat)
    requires environment in root.environments && n <= |files|
    requires AllAcceptable(rules, root, environment, files)
    ensures AllAcceptable(rules, root, environment, files[..n])
    decreases |files|
  {
    if n == |files| {
      assert files[..n] == files;
    } else {
      var front := files[..|files| - 1];
      FrontAcceptable(rules, root, environment, front, files[|files| - 1]);
      assert files == front + [files[|files| - 1]];
      PrefixAcceptable(rules, root, environment, front, n);
      assert front[..n] == files[..n];
    }
  }

  function PathsOf(entities: seq<RepositoryFile>): set<string> {
    if entities == [] then {} else PathsOf(entities[..|entities| - 1]) + {entities[|entities| - 1].path}
  }

  function IdentitiesOf(rules: Rules, entities: seq<RepositoryFile>): set<(Kind, string)> {
    if entities == [] then {}
    else IdentitiesOf(rules, entities[..|entities| - 1]) + {IdentityOf(rules, entities[|entities| - 1])}
  }

  lemma {:induction false} MembersOf(rules: Rules, entities: seq<RepositoryFile>)
    ensures forall p :: p in PathsOf(entities) <==> exists g :: g in entities && g.path == p
    ensures forall d :: d in IdentitiesOf(rules, entities) <==> exists g :: g in entities && IdentityOf(rules, g) == d
  {
    if entities != [] {
      MembersOf(rules, entities[..|entities| - 1]);
      assert entities == entities[..|entities| - 1] + [entities[|entities| - 1]];
    }
  }

  /** What the sets and the counter of the loop hold after some of the files. */
  predicate Tracks(rules: Rules, entities: seq<RepositoryFile>, paths: set<string>, identities: set<(Kind, string)>, bytes: nat) {
    paths == PathsOf(entities) && identities == IdentitiesOf(rules, entities) && bytes == TotalBytes(entities)
  }

  /** The checks of one iteration for an entity file. */
  lemma OneMoreEntity(rules: Rules, root: Root, environment: string, front: seq<RepositoryFile>, f: RepositoryFile,
                      paths: set<string>, identities: set<(Kind, string)>, bytes: nat)
    requires environment in root.environments && rules.kindOf(f.path).Entity?
    requires AllAcceptable(rules, root, environment, front) && Tracks(rules, Entities(rules, front), paths, identities, bytes)
    ensures Tracks(rules, Entities(rules, front + [f]), paths + {f.path}, identities + {IdentityOf(rules, f)}, bytes + f.bytes)
    ensures AllAcceptable(rules, root, environment, front + [f])
            <==> && f.path !in paths && IdentityOf(rules, f) !in identities && bytes + f.bytes <= MAX_BYTES
                 && Acceptable(rules, root, environment, f)
  {
    EntitiesSnoc(rules, front, f);
    EachSnoc(rules, root, environment, front, f);
    var before := Entities(rules, front);
    TotalSnoc(before, f);
    FitsSnoc(rules, before, f);
    MembersOf(rules, before);
    assert (before + [f])[..|before|] == before;
  }

  lemma OtherFile(rules: Rules, root: Root, environment: string, front: seq<RepositoryFile>, f: RepositoryFile)
    requires environment in root.environments && !rules.kindOf(f.path).Entity?
    ensures Entities(rules, front + [f]) == Entities(rules, front)
    ensures AllAcceptable(rules, root, environment, front + [f])
            <==> AllAcceptable(rules, root, environment, front) && rules.kindOf(f.path).Other?
  {
    EntitiesSnoc(rules, front, f);
    EachSnoc(rules, root, environment, front, f);
  }

  lemma RefusedEarly(rules: Rules, root: Root, environment: string, files: seq<RepositoryFile>, n: nat)
    requires environment in root.environments && n <= |files|
    requires !AllAcceptable(rules, root, environment, files[..n])
    ensures !AllAcceptable(rules, root, environment, files)
  {
    if AllAcceptable(rules, root, environment, files) { PrefixAcceptable(rules, root, environment, files, n); }
  }

  /** What the lists and the declarations of the loop hold after some of the files. */
  predicate Collected(rules: Rules, root: Root, settings: Settings, views: seq<View>, apps: seq<Value>,
                      compose: seq<Value>, resources: seq<Value>, declarations: map<(Kind, string), Value>)
  {
    && (forall v | v in views :: Resolvable(rules, root, settings, v))
    && apps == EntitiesOf(rules, root, settings, App, views)
    && compose == EntitiesOf(rules, root, settings, Compose, views)
    && resources == EntitiesOf(rules, root, settings, Resource, views)
    && declarations == Declarations(rules, views)
  }

  lemma ViewsSnoc(rules: Rules, environment: string, front: seq<RepositoryFile>, f: RepositoryFile)
    ensures Views(rules, environment, front + [f])
            == if rules.kindOf(f.path).Entity? && Selects(f, environment)
               then Views(rules, environment, front) + [ViewOf(rules.kindOf(f.path).kind, f, environment)]
               else Views(rules, environment, front)
  {
    assert (front + [f])[..|front|] == front;
  }

  lemma OneMoreView(rules: Rules, root: Root, settings: Settings, views: seq<View>, apps: seq<Value>, compose: seq<Value>,
                    resources: seq<Value>, declarations: map<(Kind, string), Value>, v: View)
    requires Collected(rules, root, settings, views, apps, compose, resources, declarations)
    requires Resolvable(rules, root, settings, v)
    ensures var entity := EntityOf(rules, root, settings, v);
            Collected(rules, root, settings, views + [v],
                      if v.kind == App then apps + [entity] else apps,
                      if v.kind == Compose then compose + [entity] else compose,
                      if v.kind == Resource then resources + [entity] else resources,
                      declarations[Identity(v.kind, v.defaults) := rules.secretsOf(v.kind, v.secrets).value])
  {
    assert (views + [v])[..|views|] == views;
    assert forall w :: w in views + [v] <==> w in views || w == v;
  }

  /** Merging, inheriting the build server and validating what results. */
  method ResolveEntity(rules: Rules, root: Root, settings: Settings, v: View) returns (r: Option<Value>)
    requires rules.secretsOf(v.kind, v.secrets).Some?
    ensures r.Some? <==> Resolvable(rules, root, settings, v)
    ensures r.Some? ==> r.value == EntityOf(rules, root, settings, v)
  {
    var resolved := MergeEnvironmentConfiguration(v.defaults, v.selected);
    if v.kind == App {
      if "buildServer" !in resolved {
        var inherited := if settings.buildServer.Some? then settings.buildServer else root.buildServer;
        if inherited.Some? { resolved := resolved["buildServer" := inherited.value]; }
      }
      if "buildServer" in resolved && resolved["buildServer"] == VNull { resolved := resolved - {"buildServer"}; }
    }
    assert resolved == Resolved(root, settings, v);
    if !rules.isServer(FieldAt(resolved, "server")) { return None; }
    var entity := rules.schema(v.kind, resolved);
    if entity.None? { return None; }
    if v.kind == App && !settings.previews { entity := Some(entity.value - {"preview"}); }
    return Some(VObject(entity.value));
  }

  /** One entity file: its own checks and, if it selects the environment, its entity. */
  method ResolveFile(rules: Rules, root: Root, environment: string, kind: Kind, file: RepositoryFile)
    returns (valid: bool, entity: Option<Value>)
    requires environment in root.environments && rules.kindOf(file.path) == Entity(kind)
    ensures valid <==> Acceptable(rules, root, environment, file)
    ensures valid && Selects(file, environment)
            ==> entity == Some(EntityOf(rules, root, root.environments[environment], ViewOf(kind, file, environment)))
  {
    if !WellDescribed(rules, root, kind, file) { return false, None; }
    if !Selects(file, environment) { return true, None; }
    entity := ResolveEntity(rules, root, root.environments[environment], ViewOf(kind, file, environment));
    valid := entity.Some?;
  }

  lemma IdentityOfView(rules: Rules, root: Root, environment: string, kind: Kind, file: RepositoryFile)
    requires environment in root.environments && rules.kindOf(file.path) == Entity(kind)
    requires Acceptable(rules, root, environment, file) && Selects(file, environment)
    ensures IdentityOf(rules, file) == Identity(kind, ViewOf(kind, file, environment).defaults)
    ensures Resolvable(rules, root, root.environments[environment], ViewOf(kind, file, environment))
  {
  }

  /** One iteration for an entity file: either it is refused, and all files with it, or the sets go on tracking. */
  lemma EntityTaken(rules: Rules, root: Root, environment: string, files: seq<RepositoryFile>, i: nat,
                    paths: set<string>, identities: set<(Kind, string)>, bytes: nat)
    requires environment in root.environments && i < |files| && rules.kindOf(files[i].path).Entity?
    requires AllAcceptable(rules, root, environment, files[..i])
    requires Tracks(rules, Entities(rules, files[..i]), paths, identities, bytes)
    ensures var f := files[i];
            if f.path in paths || IdentityOf(rules, f) in identities || bytes + f.bytes > MAX_BYTES
               || !Acceptable(rules, root, environment, f)
            then !AllAcceptable(rules, root, environment, files)
            else && AllAcceptable(rules, root, environment, files[..i + 1])
                 && Tracks(rules, Entities(rules, files[..i + 1]), paths + {f.path}, identities + {IdentityOf(rules, f)}, bytes + f.bytes)
  {
    assert files[..i + 1] == files[..i] + [files[i]];
    OneMoreEntity(rules, root, environment, files[..i], files[i], paths, identities, bytes);
    if !AllAcceptable(rules, root, environment, files[..i + 1]) { RefusedEarly(rules, root, environment, files, i + 1); }
  }

  lemma OtherTaken(rules: Rules, root: Root, environment: string, files: seq<RepositoryFile>, i: nat)
    requires environment in root.environments && i < |files| && !rules.kindOf(files[i].path).Entity?
    requires AllAcceptable(rules, root, environment, files[..i])
    ensures Entities(rules, files[..i + 1]) == Entities(rules, files[..i])
    ensures Views(rules, environment, files[..i + 1]) == Views(rules, environment, files[..i])
    ensures if rules.kindOf(files[i].path).Refused? then !AllAcceptable(rules, root, environment, files)
            else AllAcceptable(rules, root, environment, files[..i + 1])
  {
    assert files[..i + 1] == files[..i] + [files[i]];
    OtherFile(rules, root, environment, files[..i], files[i]);
    ViewsSnoc(rules, environment, files[..i], files[i]);
    if rules.kindOf(files[i].path).Refused? { RefusedEarly(rules, root, environment, files, i + 1); }
  }

  lemma ViewTaken(rules: Rules, environment: string, files: seq<RepositoryFile>, i: nat)
    requires i < |files| && rules.kindOf(files[i].path).Entity?
    ensures Views(rules, environment, files[..i + 1])
            == if Selects(files[i], environment)
               then Views(rules, environment, files[..i]) + [ViewOf(rules.kindOf(files[i].path).kind, files[i], environment)]
               else Views(rules, environment, files[..i])
  {
    assert files[..i + 1] == files[..i] + [files[i]];
    ViewsSnoc(rules, environment, files[..i], files[i]);
  }

  /** The entity goes to the list of its kind, and its required secrets under its identity. */
  method Collect(rules: Rules, root: Root, settings: Settings, ghost views: seq<View>, v: View, identity: (Kind, string),
                 entity: Value, apps: seq<Value>, compose: seq<Value>, resources: seq<Value>,
                 declarations: map<(Kind, string), Value>)
    returns (apps': seq<Value>, compose': seq<Value>, resources': seq<Value>, declarations': map<(Kind, string), Value>)
    requires Collected(rules, root, settings, views, apps, compose, resources, declarations)
    requires Resolvable(rules, root, settings, v) && entity == EntityOf(rules, root, settings, v)
    requires identity == Identity(v.kind, v.defaults)
    ensures Collected(rules, root, settings, views + [v], apps', compose', resources', declarations')
  {
    OneMoreView(rules, root, settings, views, apps, compose, resources, declarations, v);
    apps', compose', resources' := apps, compose, resources;
    if v.kind == App { apps' := apps + [entity]; }
    else if v.kind == Compose { compose' := compose + [entity]; }
    else { resources' := resources + [entity]; }
    declarations' := declarations[identity := rules.secretsOf(v.kind, v.secrets).value];
  }

  /** The loop over the files; what it collects stands only if every file is accepted. */
  method ResolveFiles(rules: Rules, root: Root, environment: string, files: seq<RepositoryFile>)
    returns (accepted: bool, apps: seq<Value>, compose: seq<Value>, resources: seq<Value>,
             declarations: map<(Kind, string), Value>)
    requires environment in root.environments
    ensures accepted <==> AllAcceptable(rules, root, environment, files)
    ensures accepted ==> Collected(rules, root, root.environments[environment], Views(rules, environment, files),
                                   apps, compose, resources, declarations)
  {
    accepted, apps, compose, resources, declarations := false, [], [], [], map[];
    var settings := root.environments[environment];
    var paths: set<string>, identities: set<(Kind, string)>, bytes: nat := {}, {}, 0;
    for i := 0 to |files|
      invariant AllAcceptable(rules, root, environment, files[..i]) && !accepted
      invariant Tracks(rules, Entities(rules, files[..i]), paths, identities, bytes)
      invariant Collected(rules, root, settings, Views(rules, environment, files[..i]), apps, compose, resources, declarations)
    {
      var file := files[i];
      match rules.kindOf(file.path)
      case Refused =>
        OtherTaken(rules, root, environment, files, i);
        return;
      case Other =>
        OtherTaken(rules, root, environment, files, i);
      case Entity(kind) =>
        EntityTaken(rules, root, environment, files, i, paths, identities, bytes);
        ViewTaken(rules, environment, files, i);
        if file.path in paths || bytes + file.bytes > MAX_BYTES { return; }
        paths, bytes := paths + {file.path}, bytes + file.bytes;
        var valid, entity := ResolveFile(rules, root, environment, kind, file);
        if !valid { return; }
        var identity := IdentityOf(rules, file);
        if identity in identities { return; }
        identities := identities + {identity};
        if Selects(file, environment) {
          var view := ViewOf(kind, file, environment);
          IdentityOfView(rules, root, environment, kind, file);
          apps, compose, resources, declarations :=
            Collect(rules, root, settings, Views(rules, environment, files[..i]), view, identity, entity.value,
                    apps, compose, resources, declarations);
        }
    }
    assert files[..|files|] == files;
    accepted := true;
  }

  method Resolve(rules: Rules, input: Input) returns (r: Option<Manifest>)
    ensures r == Resolution(rules, input)
  {
    var environment := input.environment;
    if input.root.None? || !rules.isMapping(environment, input.branch) { return None; }
    var root := input.root.value;
    if environment !in root.environments || |input.files| > MAX_FILES { return None; }
    var files := SortByKey(rules.lt, input.files, PathOf);
    var accepted, apps, compose, resources, declarations := ResolveFiles(rules, root, environment, files);
    if !accepted { return None; }
    var normalized := rules.normalize(input.branch, root.deploymentInputs, apps, compose, resources);
    if normalized.None? { return None; }
    return Some(Manifest(normalized.value, environment, root.environments[environment].previews, declarations));
  }
}
