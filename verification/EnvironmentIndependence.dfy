/** On what the manifest of one environment depends: not on what the files say of other
    environments, not on files that do not select it, and not on the order of the files. */
module EnvironmentIndependence {
  import opened EnvironmentResolution
  import opened JsonText
  import opened KeyOrder
  import opened Options
  import opened StableStringify

  predicate Contributes(rules: Rules, environment: string, f: RepositoryFile, v: View) {
    && rules.kindOf(f.path).Entity? && Selects(f, environment)
    && v == ViewOf(rules.kindOf(f.path).kind, f, environment)
  }

  lemma {:induction false} ViewMembers(rules: Rules, environment: string, files: seq<RepositoryFile>, v: View)
    ensures v in Views(rules, environment, files) <==> exists f :: f in files && Contributes(rules, environment, f, v)
  {
    if files != [] {
      var front, last := files[..|files| - 1], files[|files| - 1];
      assert files == front + [last];
      ViewsSnoc(rules, environment, front, last);
      ViewMembers(rules, environment, front, v);
      assert forall f :: f in files <==> f in front || f == last;
      assert v in Views(rules, environment, files)
        <==> v in Views(rules, environment, front) || Contributes(rules, environment, last, v);
    }
  }

  lemma {:induction false} EntityMembers(rules: Rules, files: seq<RepositoryFile>)
    ensures forall f :: f in Entities(rules, files) <==> f in files && rules.kindOf(f.path).Entity?
  {
    if files != [] {
      EntityMembers(rules, files[..|files| - 1]);
      assert files == files[..|files| - 1] + [files[|files| - 1]];
    }
  }

  /** Files in order with distinct paths give views in strictly ascending order. */
  lemma {:induction false} ViewsAscend(rules: Rules, environment: string, files: seq<RepositoryFile>)
    requires StrictTotal(rules.lt) && NeverDescends(rules.lt, files, PathOf)
    requires DistinctKeys(Entities(rules, files), PathOf)
    ensures InOrder(rules.lt, Views(rules, environment, files), PathOfView)
  {
    if files != [] {
      var front, last := files[..|files| - 1], files[|files| - 1];
      assert files == front + [last];
      assert NeverDescends(rules.lt, front, PathOf);
      EntitiesSnoc(rules, front, last);
      PathsSnoc(Entities(rules, front), last);
      ViewsAscend(rules, environment, front);
      ViewsSnoc(rules, environment, front, last);
      if rules.kindOf(last.path).Entity? {
        var views := Views(rules, environment, front);
        forall i | 0 <= i < |views| ensures rules.lt(PathOfView(views[i]), last.path) {
          ViewIsBefore(rules, environment, front, last, views[i]);
        }
      }
    }
  }

  lemma ViewIsBefore(rules: Rules, environment: string, front: seq<RepositoryFile>, last: RepositoryFile, v: View)
    requires StrictTotal(rules.lt) && NeverDescends(rules.lt, front + [last], PathOf)
    requires v in Views(rules, environment, front)
    requires forall g | g in Entities(rules, front) :: g.path != last.path
    ensures rules.lt(v.path, last.path)
  {
    ViewMembers(rules, environment, front, v);
    var f :| f in front && Contributes(rules, environment, f, v);
    EntityMembers(rules, front);
    var i :| 0 <= i < |front| && front[i] == f;
    assert !rules.lt(PathOf((front + [last])[|front|]), PathOf((front + [last])[i]));
  }

  /** What resolving an environment reads of the root. */
  predicate SameRoot(a: Root, b: Root, environment: string) {
    && a.buildServer == b.buildServer && a.deploymentInputs == b.deploymentInputs
    && environment in a.environments && environment in b.environments
    && a.environments[environment] == b.environments[environment]
  }

  /** The files that select the environment agree, in whatever order, on their paths, defaults,
      secrets and the settings selected. */
  ghost predicate SameSelection(rules: Rules, environment: string, a: seq<RepositoryFile>, b: seq<RepositoryFile>) {
    forall v :: v in Views(rules, environment, a) <==> v in Views(rules, environment, b)
  }

  lemma SortKeepsSelection(rules: Rules, environment: string, files: seq<RepositoryFile>)
    requires StrictTotal(rules.lt)
    ensures SameSelection(rules, environment, SortByKey(rules.lt, files, PathOf), files)
  {
    var sorted := SortByKey(rules.lt, files, PathOf);
    SortIsOrdered(rules.lt, files, PathOf);
    forall f ensures f in sorted <==> f in files {
      assert f in sorted <==> f in multiset(sorted);
      assert f in files <==> f in multiset(files);
    }
    forall v ensures v in Views(rules, environment, sorted) <==> v in Views(rules, environment, files) {
      ViewMembers(rules, environment, sorted, v);
      ViewMembers(rules, environment, files, v);
    }
  }

  lemma SameViews(rules: Rules, environment: string, a: seq<RepositoryFile>, b: seq<RepositoryFile>)
    requires StrictTotal(rules.lt) && SameSelection(rules, environment, a, b)
    requires DistinctKeys(Entities(rules, SortByKey(rules.lt, a, PathOf)), PathOf)
    requires DistinctKeys(Entities(rules, SortByKey(rules.lt, b, PathOf)), PathOf)
    ensures Views(rules, environment, SortByKey(rules.lt, a, PathOf)) == Views(rules, environment, SortByKey(rules.lt, b, PathOf))
  {
    var c, d := SortByKey(rules.lt, a, PathOf), SortByKey(rules.lt, b, PathOf);
    SortKeepsSelection(rules, environment, a);
    SortKeepsSelection(rules, environment, b);
    SortIsOrdered(rules.lt, a, PathOf);
    SortIsOrdered(rules.lt, b, PathOf);
    ViewsAscend(rules, environment, c);
    ViewsAscend(rules, environment, d);
    OnlyOneOrder(rules.lt, Views(rules, environment, c), Views(rules, environment, d), PathOfView);
  }

  /** Two accepted inputs that agree on the root defaults, the settings of the environment and
      the files that select it resolve to the same manifest, whatever else they say. */
  lemma OnlyTheSelectedEnvironmentMatters(rules: Rules, a: Input, b: Input)
    requires StrictTotal(rules.lt)
    requires Resolution(rules, a).Some? && Resolution(rules, b).Some?
    requires a.environment == b.environment && a.branch == b.branch
    requires SameRoot(a.root.value, b.root.value, a.environment)
    requires SameSelection(rules, a.environment, a.files, b.files)
    ensures Resolution(rules, a) == Resolution(rules, b)
  {
    SameViews(rules, a.environment, a.files, b.files);
    var views := Views(rules, a.environment, SortByKey(rules.lt, a.files, PathOf));
    ViewsResolve(rules, a.root.value, a.environment, SortByKey(rules.lt, a.files, PathOf));
    ViewsResolve(rules, b.root.value, a.environment, SortByKey(rules.lt, b.files, PathOf));
    SameRootSameManifest(rules, a.root.value, b.root.value, a.environment, a.branch, views);
  }

  lemma SameRootSameManifest(rules: Rules, a: Root, b: Root, environment: string, branch: string, views: seq<View>)
    requires SameRoot(a, b, environment)
    requires forall v | v in views :: Resolvable(rules, a, a.environments[environment], v)
    requires forall v | v in views :: Resolvable(rules, b, b.environments[environment], v)
    ensures Assemble(rules, a, environment, branch, views) == Assemble(rules, b, environment, branch, views)
  {
    SameRootSameEntities(rules, a, b, a.environments[environment], App, views);
    SameRootSameEntities(rules, a, b, a.environments[environment], Compose, views);
    SameRootSameEntities(rules, a, b, a.environments[environment], Resource, views);
  }

  lemma {:induction false} SameRootSameEntities(rules: Rules, a: Root, b: Root, settings: Settings, kind: Kind, views: seq<View>)
    requires a.buildServer == b.buildServer
    requires forall v | v in views :: Resolvable(rules, a, settings, v)
    requires forall v | v in views :: Resolvable(rules, b, settings, v)
    ensures EntitiesOf(rules, a, settings, kind, views) == EntitiesOf(rules, b, settings, kind, views)
  {
    if views != [] { SameRootSameEntities(rules, a, b, settings, kind, views[..|views| - 1]); }
  }

  // ---------- the order of the files ----------

  lemma {:induction false} EntityMultiset(rules: Rules, files: seq<RepositoryFile>, f: RepositoryFile)
    ensures multiset(Entities(rules, files))[f] == if rules.kindOf(f.path).Entity? then multiset(files)[f] else 0
  {
    if files != [] {
      var front, last := files[..|files| - 1], files[|files| - 1];
      assert files == front + [last];
      EntityMultiset(rules, front, f);
    }
  }

  lemma {:induction false} EntitiesNeverDescend(rules: Rules, files: seq<RepositoryFile>)
    requires StrictTotal(rules.lt) && NeverDescends(rules.lt, files, PathOf)
    ensures NeverDescends(rules.lt, Entities(rules, files), PathOf)
  {
    if files != [] {
      var front, last := files[..|files| - 1], files[|files| - 1];
      assert files == front + [last];
      EntitiesNeverDescend(rules, front);
      EntityMembers(rules, front);
      var entities := Entities(rules, front);
      forall i | 0 <= i < |entities| ensures !rules.lt(last.path, PathOf(entities[i])) {
        assert entities[i] in front;
        var j :| 0 <= j < |front| && front[j] == entities[i];
        assert !rules.lt(PathOf(files[|front|]), PathOf(files[j]));
      }
    }
  }

  lemma {:induction false} EachByMembers(rules: Rules, root: Root, environment: string, files: seq<RepositoryFile>)
    requires environment in root.environments
    ensures EachAcceptable(rules, root, environment, files)
            <==> forall f | f in files :: Acceptable(rules, root, environment, f)
  {
    if files != [] {
      EachByMembers(rules, root, environment, files[..|files| - 1]);
      assert files == files[..|files| - 1] + [files[|files| - 1]];
    }
  }

  lemma SameFilesSameAcceptance(rules: Rules, root: Root, environment: string, a: seq<RepositoryFile>, b: seq<RepositoryFile>)
    requires StrictTotal(rules.lt) && environment in root.environments && multiset(a) == multiset(b)
    requires NeverDescends(rules.lt, a, PathOf) && NeverDescends(rules.lt, b, PathOf)
    requires AllAcceptable(rules, root, environment, a)
    ensures AllAcceptable(rules, root, environment, b)
  {
    var c, d := Entities(rules, a), Entities(rules, b);
    forall f ensures multiset(c)[f] == multiset(d)[f] {
      EntityMultiset(rules, a, f);
      EntityMultiset(rules, b, f);
    }
    assert multiset(c) == multiset(d);
    SameElementsSameDistinctness(c, d, PathOf);
    EntitiesNeverDescend(rules, a);
    EntitiesNeverDescend(rules, b);
    forall f ensures (f in c <==> f in d) && (f in a <==> f in b) {
      assert (f in c <==> f in multiset(c)) && (f in d <==> f in multiset(d));
      assert (f in a <==> f in multiset(a)) && (f in b <==> f in multiset(b));
    }
    OnlyOneOrder(rules.lt, c, d, PathOf);
    EachByMembers(rules, root, environment, a);
    EachByMembers(rules, root, environment, b);
  }

  /** Acceptance and manifest do not depend on the order in which the files are listed. */
  lemma FileOrderIsIrrelevant(rules: Rules, a: Input, b: Input)
    requires StrictTotal(rules.lt)
    requires a.root == b.root && a.environment == b.environment && a.branch == b.branch
    requires multiset(a.files) == multiset(b.files)
    ensures Resolution(rules, a) == Resolution(rules, b)
  {
    var c, d := SortByKey(rules.lt, a.files, PathOf), SortByKey(rules.lt, b.files, PathOf);
    SortIsOrdered(rules.lt, a.files, PathOf);
    SortIsOrdered(rules.lt, b.files, PathOf);
    assert |a.files| == |multiset(a.files)| == |multiset(b.files)| == |b.files|;
    if a.root.Some? && a.environment in a.root.value.environments {
      var root := a.root.value;
      if AllAcceptable(rules, root, a.environment, c) {
        SameFilesSameAcceptance(rules, root, a.environment, c, d);
        SameFilesSameSelection(rules, a.environment, a.files, b.files);
        SameViews(rules, a.environment, a.files, b.files);
      } else if AllAcceptable(rules, root, a.environment, d) {
        SameFilesSameAcceptance(rules, root, a.environment, d, c);
      }
    }
  }

  lemma SameFilesSameSelection(rules: Rules, environment: string, a: seq<RepositoryFile>, b: seq<RepositoryFile>)
    requires multiset(a) == multiset(b)
    ensures SameSelection(rules, environment, a, b)
  {
    forall f ensures f in a <==> f in b {
      assert (f in a <==> f in multiset(a)) && (f in b <==> f in multiset(b));
    }
    forall v ensures v in Views(rules, environment, a) <==> v in Views(rules, environment, b) {
      ViewMembers(rules, environment, a, v);
      ViewMembers(rules, environment, b, v);
    }
  }
}
