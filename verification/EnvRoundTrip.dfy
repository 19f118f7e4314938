/** Parsing a rendered environment file gives back the settings, exactly when no value
    contains a character at which texts are split into lines. */
module EnvRoundTrip {
  import opened Dictionary
  import opened EnvFile
  import opened JsonText
  import opened Options

  // ---------- quotes ----------

  lemma {:induction false} UnescapeInvertsEscape(v: string)
    ensures UnescapeQuotes(EscapeQuotes(v)) == v
  {
    if v != "" {
      var e, more := EscapeQuotes(v), EscapeQuotes(v[1..]);
      UnescapeInvertsEscape(v[1..]);
      if v[0] == '\'' {
        assert e[2..] == more;
      } else {
        assert e[1..] == more;
        NoLeadingQuote(v[1..]);
      }
    }
  }

  lemma NoLeadingQuote(v: string)
    ensures EscapeQuotes(v) != "" ==> EscapeQuotes(v)[0] != '\''
  {
  }

  lemma {:induction false} EscapeKeepsBreaks(v: string)
    ensures Unbroken(EscapeQuotes(v)) <==> Unbroken(v)
  {
    if v != "" {
      EscapeKeepsBreaks(v[1..]);
      var head := if v[0] == '\'' then "\\'" else [v[0]];
      JoinUnbroken(head, EscapeQuotes(v[1..]));
      JoinUnbroken([v[0]], v[1..]);
      assert v == [v[0]] + v[1..];
    }
  }

  lemma JoinUnbroken(a: string, b: string)
    ensures Unbroken(a + b) <==> Unbroken(a) && Unbroken(b)
  {
    if Unbroken(a + b) {
      forall i | 0 <= i < |a| ensures !LineBreak(a[i]) { assert (a + b)[i] == a[i]; }
      forall i | 0 <= i < |b| ensures !LineBreak(b[i]) { assert (a + b)[|a| + i] == b[i]; }
    }
  }

  lemma {:induction false} UnescapeKeepsUnbroken(s: string)
    requires Unbroken(s)
    ensures Unbroken(UnescapeQuotes(s))
  {
    if |s| >= 2 && s[0] == '\\' && s[1] == '\'' { UnescapeKeepsUnbroken(s[2..]); }
    else if s != "" { UnescapeKeepsUnbroken(s[1..]); }
  }

  // ---------- lines ----------

  lemma {:induction false} LengthOfLine(line: string, rest: string)
    requires Unbroken(line) && (rest == "" || LineBreak(rest[0]))
    ensures LineLength(line + rest) == |line|
  {
    if line == "" {
      assert line + rest == rest;
    } else {
      assert (line + rest)[1..] == line[1..] + rest;
      LengthOfLine(line[1..], rest);
    }
  }

  lemma FirstLine(line: string, rest: string)
    requires Unbroken(line)
    ensures Lines(line + "\n" + rest) == [line] + Lines(rest)
  {
    var s := line + "\n" + rest;
    assert s == line + ("\n" + rest);
    LengthOfLine(line, "\n" + rest);
    assert s[|line|] == '\n' && s[..|line|] == line && s[|line| + 1..] == rest;
  }

  // ---------- one rendered line ----------

  lemma {:induction false} LengthOfKey(k: string, rest: string)
    requires forall i | 0 <= i < |k| :: KeyChar(k[i])
    requires rest != "" && !KeyChar(rest[0])
    ensures KeyLength(k + rest) == |k|
  {
    if k == "" {
      assert k + rest == rest;
    } else {
      assert (k + rest)[1..] == k[1..] + rest;
      LengthOfKey(k[1..], rest);
    }
  }

  lemma MatchesKey(k: string, raw: string)
    requires IsKey(k) && (raw != "" ==> !Space(raw[0]))
    ensures MatchLine(k + "=" + raw) == Some((k, raw))
    ensures SpaceLength(k + "=" + raw) == 0
  {
    var tail := "=" + raw;
    assert k + "=" + raw == k + tail;
    LengthOfKey(k, tail);
    assert (k + tail)[|k|..] == tail && (k + tail)[..|k|] == k;
    assert SpaceLength(tail) == 0 && tail[1..] == raw;
    assert SpaceLength(raw) == 0 && raw[0..] == raw;
    assert KeyChar(k[0]) && !Space(k[0]);
  }

  lemma ReadsSetting(reader: Reader, k: string, raw: string)
    requires IsKey(k) && reader.known(k) && !(reader.dropObsolete && k == OBSOLETE)
    requires raw != "" ==> !Space(raw[0])
    ensures ReadLine(reader, k + "=" + raw)
            == if ParseRaw(reader, raw).None? then Refused else Setting(k, ParseRaw(reader, raw).value)
  {
    MatchesKey(k, raw);
    assert (k + "=" + raw)[0] == k[0] && KeyChar(k[0]);
  }

  lemma {:induction false} CutNothing(raw: string, i: nat)
    requires i <= |raw| && '#' !in raw
    ensures CutComment(raw, i) == raw
    decreases |raw| - i
  {
    if i < |raw| {
      assert raw[i] in raw;
      CutNothing(raw, i + 1);
    }
  }

  lemma PlainParses(reader: Reader, v: string)
    requires Plain(v)
    ensures ParseRaw(reader, v) == Some(v)
  {
    assert '#' !in v && '$' !in v;
    CutNothing(v, 0);
    if v != "" { assert PlainChar(v[0]) && PlainChar(v[|v| - 1]); }
    assert v[SpaceLength(v)..] == v;
    assert StripEnd(v) == v;
  }

  lemma QuotedParses(reader: Reader, middle: string)
    ensures ParseRaw(reader, "'" + middle + "'") == Some(UnescapeQuotes(middle))
  {
    var raw := "'" + middle + "'";
    assert raw[1..|raw| - 1] == middle;
  }

  /** Any value without a line break, whatever quotes and backslashes it has, is read back. */
  lemma LineReadsBack(reader: Reader, k: string, v: string)
    requires IsKey(k) && reader.known(k) && !(reader.dropObsolete && k == OBSOLETE)
    ensures ReadLine(reader, RenderedLine(k, v)) == Setting(k, v)
  {
    var raw := if Plain(v) then v else "'" + EscapeQuotes(v) + "'";
    assert RenderedLine(k, v) == k + "=" + raw;
    if Plain(v) {
      PlainParses(reader, v);
      if v != "" { assert PlainChar(v[0]); }
    } else {
      QuotedParses(reader, EscapeQuotes(v));
      UnescapeInvertsEscape(v);
    }
    ReadsSetting(reader, k, raw);
  }

  lemma KeyUnbroken(k: string)
    requires IsKey(k)
    ensures Unbroken(k + "=")
  {
  }

  lemma PlainIsUnbroken(v: string)
    ensures Plain(v) ==> Unbroken(v)
  {
    if Plain(v) {
      forall i | 0 <= i < |v| ensures !LineBreak(v[i]) { assert PlainChar(v[i]); }
    }
  }

  lemma LineUnbroken(k: string, v: string)
    requires IsKey(k)
    ensures Unbroken(RenderedLine(k, v)) <==> Unbroken(v)
  {
    KeyUnbroken(k);
    EscapeKeepsBreaks(v);
    var e := EscapeQuotes(v);
    JoinUnbroken("'", e);
    JoinUnbroken("'" + e, "'");
    JoinUnbroken(k + "=", if Plain(v) then v else "'" + e + "'");
    PlainIsUnbroken(v);
  }

  lemma {:induction false} FirstPiece(whole: string, rest: string)
    requires !Unbroken(whole)
    ensures LineLength(whole + rest) == LineLength(whole) < |whole|
  {
    if !LineBreak(whole[0]) {
      assert (whole + rest)[1..] == whole[1..] + rest;
      assert whole == [whole[0]] + whole[1..];
      FirstPiece(whole[1..], rest);
    }
  }

  lemma PieceLength(start: string, more: string)
    requires Unbroken(start)
    ensures LineLength(start + more) >= |start|
  {
    forall i | 0 <= i < |start| ensures !LineBreak((start + more)[i]) {}
  }

  /** The first line of a broken value ends within its quotes. */
  lemma BrokenPiece(k: string, v: string, rest: string) returns (raw: string)
    requires IsKey(k) && !Unbroken(v)
    ensures raw != "" && raw[0] == '\'' && Unbroken(raw)
    ensures var lines := Lines(RenderedLine(k, v) + "\n" + rest); lines != [] && lines[0] == k + "=" + raw
  {
    LineUnbroken(k, v);
    PlainIsUnbroken(v);
    KeyUnbroken(k);
    var whole, start := RenderedLine(k, v), k + "=" + "'";
    JoinUnbroken(k + "=", "'");
    assert whole == start + (EscapeQuotes(v) + "'");
    PieceLength(start, EscapeQuotes(v) + "'");
    FirstPiece(whole, "\n" + rest);
    assert whole + "\n" + rest == whole + ("\n" + rest);
    var n := LineLength(whole);
    raw := whole[|k| + 1..n];
    assert whole[..n] == k + "=" + raw;
    JoinUnbroken(k + "=", raw);
  }

  lemma UnbrokenParses(reader: Reader, raw: string)
    requires raw != "" && raw[0] == '\'' && Unbroken(raw) && ParseRaw(reader, raw).Some?
    ensures Unbroken(ParseRaw(reader, raw).value)
  {
    var middle := raw[1..|raw| - 1];
    assert Unbroken(middle);
    UnescapeKeepsUnbroken(middle);
  }

  /** The first line of a broken value is refused or gives the key another value. */
  lemma BrokenLineReadsElse(reader: Reader, k: string, v: string, rest: string)
    requires IsKey(k) && reader.known(k) && !(reader.dropObsolete && k == OBSOLETE) && !Unbroken(v)
    ensures var lines := Lines(RenderedLine(k, v) + "\n" + rest);
            && lines != []
            && var line := ReadLine(reader, lines[0]);
               line.Refused? || (line.Setting? && line.key == k && line.value != v)
  {
    var raw := BrokenPiece(k, v, rest);
    ReadsSetting(reader, k, raw);
    if ParseRaw(reader, raw).Some? { UnbrokenParses(reader, raw); }
  }

  // ---------- the whole file ----------

  predicate Settings(reader: Reader, d: Entries<string>) {
    d.Entry? ==> && IsKey(d.key) && reader.known(d.key) && !(reader.dropObsolete && d.key == OBSOLETE)
                 && Settings(reader, d.rest)
  }

  predicate AllUnbroken(d: Entries<string>) {
    d.Entry? ==> Unbroken(d.value) && AllUnbroken(d.rest)
  }

  lemma FirstSetting(reader: Reader, d: Entries<string>, found: Entries<string>)
    requires d.Entry? && Settings(reader, d) && Unbroken(d.value) && d.key !in Keys(found)
    ensures ReadLines(reader, Lines(Rendered(d)), found) == ReadLines(reader, Lines(Rendered(d.rest)), Put(found, d.key, d.value))
  {
    var line := RenderedLine(d.key, d.value);
    LineUnbroken(d.key, d.value);
    FirstLine(line, Rendered(d.rest));
    LineReadsBack(reader, d.key, d.value);
    assert ([line] + Lines(Rendered(d.rest)))[1..] == Lines(Rendered(d.rest));
  }

  lemma PutThenAppend(found: Entries<string>, d: Entries<string>)
    requires d.Entry? && d.key !in Keys(found)
    ensures Append(found, d) == Append(Put(found, d.key, d.value), d.rest)
    ensures Keys(Put(found, d.key, d.value)) == Keys(found) + {d.key}
  {
    var one := Entry(d.key, d.value, NoEntry);
    PutAbsentAppends(found, d.key, d.value);
    AppendIsAssociative(found, one, d.rest);
    AppendKeys(found, one);
    assert Append(one, d.rest) == d;
  }

  lemma {:induction false} ReadsBack(reader: Reader, d: Entries<string>, found: Entries<string>)
    requires Settings(reader, d) && OneValueEach(d) && AllUnbroken(d) && Keys(d) !! Keys(found)
    ensures ReadLines(reader, Lines(Rendered(d)), found) == Some(Append(found, d))
    decreases d
  {
    if d.NoEntry? {
      AppendKeys(found, d);
    } else {
      FirstSetting(reader, d, found);
      PutThenAppend(found, d);
      ReadsBack(reader, d.rest, Put(found, d.key, d.value));
    }
  }

  lemma {:induction false} FindInAppend(a: Entries<string>, b: Entries<string>, k: string)
    requires k !in Keys(a)
    ensures Find(Append(a, b), k) == Find(b, k)
  {
    if a.Entry? { FindInAppend(a.rest, b, k); }
  }

  lemma {:induction false} ReadingKeepsFound(reader: Reader, lines: seq<string>, found: Entries<string>, k: string)
    requires k in Keys(found) && ReadLines(reader, lines, found).Some?
    ensures Find(ReadLines(reader, lines, found).value, k) == Find(found, k)
    decreases |lines|
  {
    if lines != [] {
      var line := ReadLine(reader, lines[0]);
      if line.Setting? {
        FindAfterPut(found, line.key, line.value, k);
        FindsKeys(Put(found, line.key, line.value), k);
        FindsKeys(found, k);
        ReadingKeepsFound(reader, lines[1..], Put(found, line.key, line.value), k);
      } else {
        ReadingKeepsFound(reader, lines[1..], found, k);
      }
    }
  }

  lemma BrokenFirst(reader: Reader, d: Entries<string>, found: Entries<string>)
    requires d.Entry? && Settings(reader, d) && !Unbroken(d.value) && d.key !in Keys(found)
    ensures ReadLines(reader, Lines(Rendered(d)), found) != Some(Append(found, d))
  {
    BrokenLineReadsElse(reader, d.key, d.value, Rendered(d.rest));
    var lines := Lines(Rendered(d));
    var line := ReadLine(reader, lines[0]);
    FindInAppend(found, d, d.key);
    if line.Setting? && ReadLines(reader, lines, found).Some? {
      var next := Put(found, line.key, line.value);
      FindAfterPut(found, line.key, line.value, d.key);
      FindsKeys(next, d.key);
      ReadingKeepsFound(reader, lines[1..], next, d.key);
    }
  }

  lemma {:induction false} ReadsSomethingElse(reader: Reader, d: Entries<string>, found: Entries<string>)
    requires Settings(reader, d) && OneValueEach(d) && !AllUnbroken(d) && Keys(d) !! Keys(found)
    ensures ReadLines(reader, Lines(Rendered(d)), found) != Some(Append(found, d))
    decreases d
  {
    if !Unbroken(d.value) {
      BrokenFirst(reader, d, found);
    } else {
      FirstSetting(reader, d, found);
      PutThenAppend(found, d);
      ReadsSomethingElse(reader, d.rest, Put(found, d.key, d.value));
    }
  }

  /** The round trip: for any settings, parsing what was rendered gives them back, in their
      order, if and only if no value has a line break in it. */
  lemma ParseInvertsRender(reader: Reader, d: Entries<string>)
    requires Settings(reader, d) && OneValueEach(d)
    ensures Parsed(reader, Rendered(d)) == Some(d) <==> AllUnbroken(d)
  {
    if AllUnbroken(d) { ReadsBack(reader, d, NoEntry); }
    else { ReadsSomethingElse(reader, d, NoEntry); }
  }
}
