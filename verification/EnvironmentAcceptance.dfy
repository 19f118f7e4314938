/** Which files make the resolution of an environment fail, and what the manifest says of the others. */
module EnvironmentAcceptance {
  import opened EnvironmentIndependence
  import opened EnvironmentResolution
  import opened JsonText
  import opened KeyOrder
  import opened Options
  import opened StableStringify

  // ---------- reserved keys ----------

  /** w is v or somewhere inside it. */
  ghost predicate Inside(v: Value, w: Value)
    decreases v
  {
    || v == w
    || (v.VArray? && exists i | 0 <= i < |v.items| :: Inside(v.items[i], w))
    || (v.VObject? && exists k | k in v.fields :: Inside(v.fields[k], w))
  }

  /** No object anywhere in the value has a key that could reach the prototype of objects. */
  lemma {:induction false} SafeHasNoReservedKey(v: Value, w: Value)
    requires Safe(v) && Inside(v, w) && w.VObject?
    ensures "__proto__" !in w.fields && "constructor" !in w.fields && "prototype" !in w.fields
    decreases v
  {
    if v != w {
      if v.VArray? {
        var i :| 0 <= i < |v.items| && Inside(v.items[i], w);
        SafeHasNoReservedKey(v.items[i], w);
      } else {
        var k :| k in v.fields && Inside(v.fields[k], w);
        SafeHasNoReservedKey(v.fields[k], w);
      }
    }
  }

  lemma {:induction false} UnsafeHasReservedKey(v: Value) returns (w: Value)
    requires !Safe(v)
    ensures Inside(v, w) && w.VObject? && ("__proto__" in w.fields || "constructor" in w.fields || "prototype" in w.fields)
    decreases v
  {
    if v.VArray? {
      var i :| 0 <= i < |v.items| && !Safe(v.items[i]);
      w := UnsafeHasReservedKey(v.items[i]);
    } else {
      var k :| k in v.fields && (k in UNSAFE || !Safe(v.fields[k]));
      if k in UNSAFE { w := v; } else { w := UnsafeHasReservedKey(v.fields[k]); }
    }
  }

  // ---------- one file ----------

  /** The settings of one environment: an object without anything that belongs to the entity as a whole. */
  predicate SettingsOnly(v: Value) {
    v.VObject? && v.fields.Keys !! {"id", "name", "type", "secrets", "preview", "environments"}
  }

  /** An entity file of at most 256 KiB with a usable id and secrets, whose environments are all declared. */
  predicate WellFormedFile(rules: Rules, root: Root, kind: Kind, f: RepositoryFile) {
    && f.bytes <= 262_144 && f.document.Some? && f.document.value.VObject? && Safe(f.document.value)
    && var fields := f.document.value.fields;
       && "id" in fields && fields["id"].VText? && rules.isId(fields["id"].s)
       && rules.secretsOf(kind, if "secrets" in fields && fields["secrets"] != VNull then fields["secrets"] else VObject(map[])).Some?
       && "environments" in fields && fields["environments"].VObject?
       && forall e | e in fields["environments"].fields ::
            e in root.environments && rules.isEnvironmentName(e) && SettingsOnly(fields["environments"].fields[e])
  }

  /** A file that does not stand in the way. */
  predicate Allowed(rules: Rules, root: Root, environment: string, f: RepositoryFile)
    requires environment in root.environments
  {
    match rules.kindOf(f.path)
    case Refused => false
    case Other => true
    case Entity(kind) =>
      && WellFormedFile(rules, root, kind, f)
      && (environment in f.document.value.fields["environments"].fields ==>
            Selects(f, environment)
            && var resolved := Resolved(root, root.environments[environment], ViewOf(kind, f, environment));
               rules.isServer(if "server" in resolved then Some(resolved["server"]) else None) && rules.schema(kind, resolved).Some?)
  }

  lemma AcceptableIffAllowed(rules: Rules, root: Root, environment: string, f: RepositoryFile)
    requires environment in root.environments
    ensures Acceptable(rules, root, environment, f) <==> Allowed(rules, root, environment, f)
  {
    if rules.kindOf(f.path).Entity? { DescribedIffWellFormed(rules, root, rules.kindOf(f.path).kind, f); }
  }

  lemma DescribedIffWellFormed(rules: Rules, root: Root, kind: Kind, f: RepositoryFile)
    ensures WellDescribed(rules, root, kind, f) <==> WellFormedFile(rules, root, kind, f)
  {
    if f.document.Some? && f.document.value.VObject? {
      var fields := f.document.value.fields;
      if "environments" in fields && fields["environments"].VObject? {
        forall e | e in fields["environments"].fields
          ensures SettingsOnly(fields["environments"].fields[e]) <==>
                    fields["environments"].fields[e].VObject?
                    && forall k | k in fields["environments"].fields[e].fields :: k !in ENTITY_LEVEL
        {
          OnlySettings(fields["environments"].fields[e]);
        }
      }
    }
  }

  lemma OnlySettings(v: Value)
    ensures SettingsOnly(v) <==> v.VObject? && forall k | k in v.fields :: k !in ENTITY_LEVEL
  {
  }

  // ---------- all files ----------

  predicate IsEntity(rules: Rules, f: RepositoryFile) {
    rules.kindOf(f.path).Entity?
  }

  /** No two entity files have the same path, or the same kind and id. */
  predicate AllDifferent(rules: Rules, files: seq<RepositoryFile>) {
    forall i, j | 0 <= i < j < |files| && IsEntity(rules, files[i]) && IsEntity(rules, files[j]) ::
      files[i].path != files[j].path && IdentityOf(rules, files[i]) != IdentityOf(rules, files[j])
  }

  function EntityBytes(rules: Rules, files: seq<RepositoryFile>): nat {
    if files == [] then 0 else (if IsEntity(rules, files[0]) then files[0].bytes else 0) + EntityBytes(rules, files[1..])
  }

  lemma {:induction false} BytesSnoc(rules: Rules, front: seq<RepositoryFile>, f: RepositoryFile)
    ensures EntityBytes(rules, front + [f]) == EntityBytes(rules, front) + if IsEntity(rules, f) then f.bytes else 0
  {
    if front == [] {
      assert [f][1..] == [] && front + [f] == [f];
    } else {
      assert (front + [f])[1..] == front[1..] + [f];
      BytesSnoc(rules, front[1..], f);
    }
  }

  lemma DifferentSnoc(rules: Rules, front: seq<RepositoryFile>, f: RepositoryFile)
    ensures AllDifferent(rules, front + [f]) <==>
              AllDifferent(rules, front)
              && (IsEntity(rules, f) ==> forall g | g in front && IsEntity(rules, g) ::
                                           g.path != f.path && IdentityOf(rules, g) != IdentityOf(rules, f))
  {
    var all := front + [f];
    if AllDifferent(rules, all) {
      forall i, j | 0 <= i < j < |front| && IsEntity(rules, front[i]) && IsEntity(rules, front[j])
        ensures front[i].path != front[j].path && IdentityOf(rules, front[i]) != IdentityOf(rules, front[j])
      {
        assert all[i] == front[i] && all[j] == front[j];
      }
      if IsEntity(rules, f) {
        forall g | g in front && IsEntity(rules, g) ensures g.path != f.path && IdentityOf(rules, g) != IdentityOf(rules, f) {
          var i :| 0 <= i < |front| && front[i] == g;
          assert all[i] == g && all[|front|] == f;
        }
      }
    }
  }

  lemma {:induction false} FitsIffDifferent(rules: Rules, files: seq<RepositoryFile>)
    ensures TotalBytes(Entities(rules, files)) == EntityBytes(rules, files)
    ensures Fits(rules, Entities(rules, files)) <==> AllDifferent(rules, files) && EntityBytes(rules, files) <= 8_388_608
    decreases |files|
  {
    if files != [] {
      var front, last := files[..|files| - 1], files[|files| - 1];
      assert files == front + [last];
      FitsIffDifferent(rules, front);
      NextFits(rules, front, last);
    }
  }

  lemma NextFits(rules: Rules, front: seq<RepositoryFile>, f: RepositoryFile)
    requires TotalBytes(Entities(rules, front)) == EntityBytes(rules, front)
    requires Fits(rules, Entities(rules, front)) <==> AllDifferent(rules, front) && EntityBytes(rules, front) <= 8_388_608
    ensures TotalBytes(Entities(rules, front + [f])) == EntityBytes(rules, front + [f])
    ensures Fits(rules, Entities(rules, front + [f])) <==>
              AllDifferent(rules, front + [f]) && EntityBytes(rules, front + [f]) <= 8_388_608
  {
    EntitiesSnoc(rules, front, f);
    BytesSnoc(rules, front, f);
    DifferentSnoc(rules, front, f);
    EntityMembers(rules, front);
    if IsEntity(rules, f) {
      FitsSnoc(rules, Entities(rules, front), f);
      TotalSnoc(Entities(rules, front), f);
    }
  }

  /** The files of a repository are accepted exactly when each is allowed, no two entities share a path or an identity,
      and together they have at most 8 MiB. */
  lemma FilesAccepted(rules: Rules, root: Root, environment: string, files: seq<RepositoryFile>)
    requires environment in root.environments
    ensures AllAcceptable(rules, root, environment, files) <==>
              && (forall f | f in files :: Allowed(rules, root, environment, f))
              && AllDifferent(rules, files) && EntityBytes(rules, files) <= 8_388_608
  {
    EachByMembers(rules, root, environment, files);
    FitsIffDifferent(rules, files);
    forall f | f in files ensures Acceptable(rules, root, environment, f) <==> Allowed(rules, root, environment, f) {
      AcceptableIffAllowed(rules, root, environment, f);
    }
  }

  // ---------- the manifest ----------

  /** What an accepted input has to be. */
  lemma AcceptedInput(rules: Rules, input: Input)
    requires StrictTotal(rules.lt) && Resolution(rules, input).Some?
    ensures input.root.Some? && rules.isMapping(input.environment, input.branch)
    ensures input.environment in input.root.value.environments && |input.files| <= 1000
    ensures forall f | f in input.files :: Allowed(rules, input.root.value, input.environment, f)
  {
    var sorted := SortByKey(rules.lt, input.files, PathOf);
    SortIsOrdered(rules.lt, input.files, PathOf);
    FilesAccepted(rules, input.root.value, input.environment, sorted);
    forall f | f in input.files ensures f in sorted {
      assert f in multiset(input.files) && multiset(sorted) == multiset(input.files);
    }
  }

  /** Nothing else stands in the way but the normalisation of the entities. */
  lemma AcceptsInput(rules: Rules, input: Input)
    requires StrictTotal(rules.lt) && (forall b, d, x, y, z :: rules.normalize(b, d, x, y, z).Some?)
    requires input.root.Some? && rules.isMapping(input.environment, input.branch)
    requires input.environment in input.root.value.environments && |input.files| <= 1000
    requires forall f | f in input.files :: Allowed(rules, input.root.value, input.environment, f)
    requires var files := SortByKey(rules.lt, input.files, PathOf);
             AllDifferent(rules, files) && EntityBytes(rules, files) <= 8_388_608
    ensures Resolution(rules, input).Some?
  {
    var sorted := SortByKey(rules.lt, input.files, PathOf);
    SortIsOrdered(rules.lt, input.files, PathOf);
    forall f | f in sorted ensures f in input.files {
      assert f in multiset(sorted) && multiset(sorted) == multiset(input.files);
    }
    FilesAccepted(rules, input.root.value, input.environment, sorted);
  }

  lemma {:induction false} DeclaredBy(rules: Rules, views: seq<View>, v: View)
    requires (forall v | v in views :: rules.secretsOf(v.kind, v.secrets).Some?) && v in views
    requires forall u | u in views && Identity(u.kind, u.defaults) == Identity(v.kind, v.defaults) :: u == v
    ensures Identity(v.kind, v.defaults) in Declarations(rules, views)
    ensures Declarations(rules, views)[Identity(v.kind, v.defaults)] == rules.secretsOf(v.kind, v.secrets).value
    decreases |views|
  {
    var front, last := views[..|views| - 1], views[|views| - 1];
    assert views == front + [last];
    if last != v { DeclaredBy(rules, front, v); }
  }

  /** The entities of a kind are those of the selecting files of that kind. */
  lemma {:induction false} EntitiesOfKind(rules: Rules, root: Root, settings: Settings, kind: Kind, views: seq<View>, x: Value)
    requires forall v | v in views :: Resolvable(rules, root, settings, v)
    ensures x in EntitiesOf(rules, root, settings, kind, views)
            <==> exists v | v in views :: v.kind == kind && x == EntityOf(rules, root, settings, v)
    decreases |views|
  {
    if views != [] {
      var front, last := views[..|views| - 1], views[|views| - 1];
      assert views == front + [last];
      EntitiesOfKind(rules, root, settings, kind, front, x);
      if x in EntitiesOf(rules, root, settings, kind, views) && !(x in EntitiesOf(rules, root, settings, kind, front)) {
        assert last in views;
      }
    }
  }

  /** The files that select the environment, in order of path, and the entities that they make. */
  function ViewsOf(rules: Rules, input: Input): seq<View> {
    Views(rules, input.environment, SortByKey(rules.lt, input.files, PathOf))
  }

  /** The manifest is about the environment, says whether it has previews, and normalises the entities of the selecting
      files by their kinds. */
  lemma ManifestSays(rules: Rules, input: Input)
    requires Resolution(rules, input).Some?
    ensures var m, root, views := Resolution(rules, input).value, input.root.value, ViewsOf(rules, input);
            var settings := root.environments[input.environment];
            && (forall v | v in views :: Resolvable(rules, root, settings, v))
            && m.environment == input.environment && m.previewsEnabled == settings.previews
            && rules.normalize(input.branch, root.deploymentInputs, EntitiesOf(rules, root, settings, App, views),
                               EntitiesOf(rules, root, settings, Compose, views),
                               EntitiesOf(rules, root, settings, Resource, views)) == Some(m.normalized)
  {
    ViewsResolve(rules, input.root.value, input.environment, SortByKey(rules.lt, input.files, PathOf));
  }

  /** The selecting files are taken in order of path. */
  lemma {:induction false} ViewsFollowPaths(rules: Rules, environment: string, files: seq<RepositoryFile>)
    requires NeverDescends(rules.lt, files, PathOf)
    ensures NeverDescends(rules.lt, Views(rules, environment, files), PathOfView)
  {
    if files != [] {
      var front, last := files[..|files| - 1], files[|files| - 1];
      ViewsFollowPaths(rules, environment, front);
      forall v | v in Views(rules, environment, front) ensures !rules.lt(last.path, v.path) {
        ViewMembers(rules, environment, front, v);
        var f :| f in front && Contributes(rules, environment, f, v);
        var i :| 0 <= i < |front| && front[i] == f;
        assert !rules.lt(PathOf(files[|files| - 1]), PathOf(files[i]));
      }
    }
  }

  lemma ViewsInOrder(rules: Rules, input: Input)
    requires StrictTotal(rules.lt)
    ensures NeverDescends(rules.lt, ViewsOf(rules, input), PathOfView)
  {
    SortIsOrdered(rules.lt, input.files, PathOf);
    ViewsFollowPaths(rules, input.environment, SortByKey(rules.lt, input.files, PathOf));
  }

  /** The entities of a kind follow the order of their files: those of the files before any point come before the others. */
  lemma {:induction false} EntitiesJoin(rules: Rules, root: Root, settings: Settings, kind: Kind, front: seq<View>, back: seq<View>)
    requires forall v | v in front + back :: Resolvable(rules, root, settings, v)
    ensures (forall v | v in front :: v in front + back) && (forall v | v in back :: v in front + back)
    ensures EntitiesOf(rules, root, settings, kind, front + back)
            == EntitiesOf(rules, root, settings, kind, front) + EntitiesOf(rules, root, settings, kind, back)
    decreases |back|
  {
    if back == [] {
      assert front + back == front;
    } else {
      var n := |back| - 1;
      assert (front + back)[..|front| + n] == front + back[..n];
      EntitiesJoin(rules, root, settings, kind, front, back[..n]);
    }
  }

  /** Views of accepted files have identities of their own. */
  lemma ViewsAreDifferent(rules: Rules, environment: string, files: seq<RepositoryFile>, u: View, v: View)
    requires AllDifferent(rules, files) && u in Views(rules, environment, files) && v in Views(rules, environment, files)
    requires Identity(u.kind, u.defaults) == Identity(v.kind, v.defaults)
    ensures u == v
  {
    ViewMembers(rules, environment, files, u);
    ViewMembers(rules, environment, files, v);
    var f :| f in files && Contributes(rules, environment, f, u);
    var g :| g in files && Contributes(rules, environment, g, v);
    IdentityOfContributor(rules, environment, f, u);
    IdentityOfContributor(rules, environment, g, v);
    var i :| 0 <= i < |files| && files[i] == f;
    var j :| 0 <= j < |files| && files[j] == g;
    assert i == j;
  }

  lemma IdentityOfContributor(rules: Rules, environment: string, f: RepositoryFile, v: View)
    requires Contributes(rules, environment, f, v)
    ensures IdentityOf(rules, f) == Identity(v.kind, v.defaults)
  {
  }

  /** And it demands the secrets of each of those files, under the kind and the id of its entity. */
  lemma SecretsAreDemanded(rules: Rules, input: Input, v: View)
    requires Resolution(rules, input).Some? && v in ViewsOf(rules, input)
    ensures var m := Resolution(rules, input).value;
            && Identity(v.kind, v.defaults) in m.requiredSecrets
            && rules.secretsOf(v.kind, v.secrets) == Some(m.requiredSecrets[Identity(v.kind, v.defaults)])
  {
    var sorted := SortByKey(rules.lt, input.files, PathOf);
    FilesAccepted(rules, input.root.value, input.environment, sorted);
    ViewsResolve(rules, input.root.value, input.environment, sorted);
    var views := ViewsOf(rules, input);
    forall u | u in views && Identity(u.kind, u.defaults) == Identity(v.kind, v.defaults) ensures u == v {
      ViewsAreDifferent(rules, input.environment, sorted, u, v);
    }
    DeclaredBy(rules, views, v);
  }
}
