/** How the values of the installer's settings are written and read, and which configurations and
    environments are refused. */
module RuntimeSettings {
  import opened ConfigTree
  import opened Dictionary
  import opened EnvFile
  import opened JsonText
  import opened Options
  import opened RuntimeConfig

  // ---------- values ----------

  /** Nothing but decimal digits. */
  predicate Digits(s: string) {
    s != "" && forall c | c in s :: c in "0123456789"
  }

  lemma DigitsAreAll(s: string)
    ensures AllDigits(s) <==> Digits(s)
  {
    if AllDigits(s) {
      forall c | c in s ensures c in "0123456789" {
        var i :| 0 <= i < |s| && s[i] == c;
        DigitListed(c);
      }
    }
    if Digits(s) {
      forall i | 0 <= i < |s| ensures '0' <= s[i] <= '9' {
        assert s[i] in s;
        DigitListed(s[i]);
      }
    }
  }

  lemma DigitListed(c: char)
    ensures c in "0123456789" <==> '0' <= c <= '9'
  {
  }

  /** What is written for a value: true or false, the digits of a number that is not negative, the text of an object
      and a text of one line as it is. */
  lemma WrittenAs(kind: Kind, v: Json, s: string)
    ensures FormatValue(kind, v) == Some(s) <==>
              match kind
              case Boolean => (v == Bool(true) && s == "true") || (v == Bool(false) && s == "false")
              case Integer => v == Number(s) && Digits(s) && WithoutZeros(s) == s
              case JsonObject => v.Object? && s == Raw(v)
              case Str => v == Text(s) && '\n' !in s && '\r' !in s
  {
    DigitsAreAll(s);
    if v.Number? { DigitsAreAll(v.text); }
  }

  /** What is read. */
  lemma ReadAs(kind: Kind, s: string)
    ensures var v := ParseValue(kind, s);
            match kind
            case Boolean => if s == "true" then v == Some(Bool(true)) else if s == "false" then v == Some(Bool(false)) else v == None
            case Integer => if Digits(s) then v == Some(Number(WithoutZeros(s))) else v == None
            case JsonObject => v.Some? ==> v.value.Object?
            case Str => v == Some(Text(s))
  {
    DigitsAreAll(s);
  }

  /** An object is read as it was written, and refused when anything follows it. */
  lemma NothingFollowsAnObject(v: Json, rest: string)
    requires v.Object? && WellFormed(v)
    ensures ParseValue(JsonObject, Raw(v) + rest) == if rest == "" then Some(v) else None
  {
    if v.fields.Entry? { ParseFieldsInverts(v.fields, rest); }
    ParseInvertsObject(v.fields, rest);
  }

  /** Of the notifications everything but whether they are enabled is written as one setting, if there is anything else. */
  lemma NotificationsWritten(config: Json, f: Field)
    requires f == Field("TOWBAR_NOTIFICATION_CONFIG_JSON", ["notifications"], JsonObject)
    ensures var n := Get(config, ["notifications"]);
            && (n.None? ==> TextOf(config, f) == Missing)
            && (n.Some? && !n.value.Object? ==> TextOf(config, f) == Bad)
            && (n.Some? && n.value.Object? ==>
                  var others := Remove(n.value.fields, "enabled");
                  TextOf(config, f) == if others == NoEntry then Missing else Given(Raw(Object(others))))
  {
  }

  /** Leading zeros do not count. */
  lemma {:induction false} ZerosDropped(zeros: string, s: string)
    requires (forall i | 0 <= i < |zeros| :: zeros[i] == '0') && s != "" && (s[0] != '0' || |s| == 1)
    ensures WithoutZeros(zeros + s) == s
  {
    if zeros == "" {
      assert zeros + s == s;
    } else {
      assert (zeros + s)[1..] == zeros[1..] + s;
      ZerosDropped(zeros[1..], s);
    }
  }

  // ---------- refused configurations ----------

  /** The configuration declares version 1. */
  lemma VersionIsOne(fields: seq<Field>, config: Json)
    requires ToEnv(fields, config).Some?
    ensures config.Object? && Find(config.fields, "version") == Some(Number("1"))
  {
  }

  /** A path leads to a setting, or through one. */
  ghost predicate Leads(leaves: set<Path>, path: Path) {
    exists leaf | leaf in leaves :: path <= leaf || leaf <= path
  }

  /** Somewhere above, the path has reached a setting. */
  ghost predicate Reached(leaves: set<Path>, path: Path) {
    exists leaf | leaf in leaves :: leaf <= path
  }

  lemma {:induction false} EntriesLead(leaves: set<Path>, at: Path, entries: Entries<Json>, k: string, rest: Path)
    requires KnownEntries(leaves, at, entries) && Find(entries, k).Some?
    requires Get(Find(entries, k).value, rest).Some?
    ensures Leads(leaves, at + [k] + rest)
    ensures !Get(Find(entries, k).value, rest).value.Object? ==> Reached(leaves, at + [k] + rest)
    decreases entries, 0
  {
    if entries.key == k {
      assert at + [entries.key] == at + [k];
      var leaf :| leaf in leaves && at + [k] <= leaf;
      ValueLeads(leaves, at + [k], entries.value, rest);
    } else {
      EntriesLead(leaves, at, entries.rest, k, rest);
    }
  }

  lemma {:induction false} ValueLeads(leaves: set<Path>, at: Path, v: Json, rest: Path)
    requires Known(leaves, at, v) && Get(v, rest).Some? && exists leaf | leaf in leaves :: at <= leaf
    ensures Leads(leaves, at + rest)
    ensures !Get(v, rest).value.Object? ==> Reached(leaves, at + rest)
    decreases v, 1
  {
    if at in leaves {
      assert at <= at + rest;
    } else if rest == [] {
      assert at + rest == at;
    } else {
      assert rest == [rest[0]] + rest[1..] && at + rest == at + [rest[0]] + rest[1..];
      EntriesLead(leaves, at, v.fields, rest[0], rest[1..]);
    }
  }

  /** Everything in an accepted configuration is part of a setting that is known: it lies on the way to one or below it,
      and what lies on the way is an object. */
  lemma UnknownIsRefused(fields: seq<Field>, config: Json, path: Path)
    requires ToEnv(fields, config).Some? && path != [] && path[0] != "version" && Get(config, path).Some?
    ensures Leads(Leaves(fields), path)
    ensures !Get(config, path).value.Object? ==> Reached(Leaves(fields), path)
  {
    var entries := Remove(config.fields, "version");
    FindAfterRemove(config.fields, "version", path[0]);
    var top: Path := [];
    assert path == [path[0]] + path[1..] && top + [path[0]] + path[1..] == path;
    EntriesLead(Leaves(fields), top, entries, path[0], path[1..]);
  }

  // ---------- refused environments ----------

  /** A profile other than the mode refuses an environment. */
  lemma ProfileMatches(fields: seq<Field>, values: Entries<string>)
    requires (forall f | f in fields :: f.path != []) && FromEnv(fields, values).Some?
    ensures Find(values, "COMPOSE_PROFILES") in {None, Some(Or(Find(values, "TOWBAR_INSTALL_MODE"), "local"))}
  {
  }

  /** So does a value that cannot be read. */
  lemma ValuesAreReadable(fields: seq<Field>, values: Entries<string>, i: nat)
    requires (forall f | f in fields :: f.path != []) && FromEnv(fields, values).Some?
    requires i < |fields| && Find(values, fields[i].key).Some?
    ensures ParseValue(fields[i].kind, Find(values, fields[i].key).value).Some?
  {
    PrefixReads(fields, values, i + 1);
    assert fields[..i + 1][|fields[..i + 1]| - 1] == fields[i];
  }

  lemma PrefixReads(fields: seq<Field>, values: Entries<string>, n: nat)
    requires n <= |fields| && (forall f | f in fields :: f.path != []) && ReadFields(fields, values, VERSION_ONE).Some?
    ensures ReadFields(fields[..n], values, VERSION_ONE).Some?
  {
    if ReadFields(fields[..n], values, VERSION_ONE).None? { FailedFieldFails(fields, values, n); }
  }

  /** The gateway that an environment names is that of the application it describes. */
  lemma GatewayMatches(fields: seq<Field>, values: Entries<string>)
    requires (forall f | f in fields :: f.path != []) && FromEnv(fields, values).Some? && Find(values, "TOWBAR_GATEWAY_DOMAIN").Some?
    ensures var read := ReadFields(fields, values, VERSION_ONE);
            read.Some? && GatewayDomain(WithObject(read.value, "installation")) == Find(values, "TOWBAR_GATEWAY_DOMAIN")
  {
  }
}
