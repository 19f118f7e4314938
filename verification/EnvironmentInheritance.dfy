/** What an entity gets from its file, the selected environment and the root of the repository. */
module EnvironmentInheritance {
  import opened EnvironmentMerge
  import opened EnvironmentResolution
  import opened JsonText
  import opened KeyOrder
  import opened Options
  import opened StableStringify

  /** What the file itself gives: the selected environment's value, or the default, or both merged where both are objects. */
  function Own(v: View, k: string): Option<Value> {
    if k !in v.selected then FieldAt(v.defaults, k)
    else if k !in v.defaults || !v.defaults[k].VObject? || !v.selected[k].VObject? then Some(v.selected[k])
    else Some(Merged(v.defaults[k], v.selected[k]))
  }

  function FirstGiven(a: Option<Value>, b: Option<Value>, c: Option<Value>): Option<Value> {
    if a.Some? then a else if b.Some? then b else c
  }

  function NotNull(o: Option<Value>): Option<Value> {
    if o == Some(VNull) then None else o
  }

  lemma OwnIsMerged(v: View, k: string)
    ensures FieldAt(Merged(VObject(v.defaults), VObject(v.selected)).fields, k) == Own(v, k)
  {
  }

  /** Of an entity file the environments and the secrets are kept apart: everything else is a default of the entity, and
      what the selected environment says overrides it. */
  lemma FileIsTakenApart(kind: Kind, f: RepositoryFile, environment: string, k: string)
    requires Selects(f, environment)
    ensures var v, fields := ViewOf(kind, f, environment), f.document.value.fields;
            && v.path == f.path && v.kind == kind
            && FieldAt(v.defaults, k) == (if k == "environments" || k == "secrets" then None else FieldAt(fields, k))
            && FieldAt(v.selected, k) == FieldAt(fields["environments"].fields[environment].fields, k)
            && v.secrets == (if NotNull(FieldAt(fields, "secrets")).None? then VObject(map[]) else fields["secrets"])
  {
  }

  /** The build server of an app is the first one given by its file, the environment and the root in this order;
      a null one stands for none. */
  lemma BuildServerIsFirstGiven(root: Root, settings: Settings, v: View)
    requires v.kind == App
    ensures FieldAt(Resolved(root, settings, v), "buildServer")
            == NotNull(FirstGiven(Own(v, "buildServer"), settings.buildServer, root.buildServer))
  {
    OwnIsMerged(v, "buildServer");
  }

  /** Everything else is what the file gives, for every kind of entity. */
  lemma OthersAreOwn(root: Root, settings: Settings, v: View, k: string)
    requires v.kind != App || k != "buildServer"
    ensures FieldAt(Resolved(root, settings, v), k) == Own(v, k)
  {
    OwnIsMerged(v, k);
  }

  /** An environment with a build server of its own, even a null one, makes that of the root irrelevant. */
  lemma EnvironmentHidesRoot(root: Root, other: Root, settings: Settings, v: View)
    requires settings.buildServer.Some?
    ensures Resolved(root, settings, v) == Resolved(other, settings, v)
  {
  }

  /** Only apps of an environment without previews lose something of what their schema gives: their preview. */
  lemma PreviewsAreDropped(rules: Rules, root: Root, settings: Settings, v: View, k: string)
    requires Resolvable(rules, root, settings, v)
    ensures var given := rules.schema(v.kind, Resolved(root, settings, v)).value;
            EntityOf(rules, root, settings, v).VObject?
            && FieldAt(EntityOf(rules, root, settings, v).fields, k)
               == if k == "preview" && v.kind == App && !settings.previews then None else FieldAt(given, k)
  {
  }
}
