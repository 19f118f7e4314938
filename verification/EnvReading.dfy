/** How a line of an environment file is read and written, said of its characters. */
module EnvReading {
  import opened EnvFile
  import opened EnvRoundTrip
  import opened JsonText
  import opened Options

  // ---------- lines ----------

  /** Every line break ends a line, a carriage return together with a newline after it; the last line needs none. */
  lemma LinesAreSplit(line: string, c: char, rest: string)
    requires Unbroken(line)
    ensures Lines(line) == if line == "" then [] else [line]
    ensures Lines(line + ("\r\n" + rest)) == [line] + Lines(rest)
    ensures LineBreak(c) && !(c == '\r' && rest != "" && rest[0] == '\n') ==> Lines(line + ([c] + rest)) == [line] + Lines(rest)
  {
    LengthOfLine(line, "");
    assert line + "" == line;
    LengthOfLine(line, "\r\n" + rest);
    var both := line + ("\r\n" + rest);
    assert both[..|line|] == line && both[|line| + 2..] == rest;
    if LineBreak(c) {
      LengthOfLine(line, [c] + rest);
      var one := line + ([c] + rest);
      assert one[..|line|] == line && one[|line| + 1..] == rest;
    }
  }

  // ---------- lines that say nothing ----------

  predicate Blank(s: string) {
    forall i | 0 <= i < |s| :: Space(s[i])
  }

  lemma {:induction false} BlankLength(s: string, rest: string)
    requires Blank(s) && (rest == "" || !Space(rest[0]))
    ensures SpaceLength(s + rest) == |s|
  {
    if s == "" {
      assert s + rest == rest;
    } else {
      assert (s + rest)[1..] == s[1..] + rest;
      BlankLength(s[1..], rest);
    }
  }

  /** Blank lines and lines that begin with a number sign, after white space or not, are skipped. */
  lemma SkipsComments(reader: Reader, blank: string, note: string)
    requires Blank(blank)
    ensures ReadLine(reader, blank) == Skipped && ReadLine(reader, blank + "#" + note) == Skipped
  {
    BlankLength(blank, "");
    assert blank + "" == blank;
    BlankLength(blank, "#" + note);
    assert blank + "#" + note == blank + ("#" + note);
  }

  // ---------- settings ----------

  /** A setting that this reader takes. */
  predicate Taken(reader: Reader, k: string) {
    IsKey(k) && reader.known(k) && !(reader.dropObsolete && k == "TOWBAR_TRUSTED_PROXY_HOPS")
  }

  /** An unknown key is refused, and the obsolete one is dropped where that is asked for, whatever their values. */
  lemma OtherKeys(reader: Reader, k: string, raw: string)
    requires IsKey(k) && (raw != "" ==> !Space(raw[0]))
    ensures reader.dropObsolete && k == "TOWBAR_TRUSTED_PROXY_HOPS" ==> ReadLine(reader, k + "=" + raw) == Skipped
    ensures !reader.known(k) && !(reader.dropObsolete && k == "TOWBAR_TRUSTED_PROXY_HOPS") ==> ReadLine(reader, k + "=" + raw) == Refused
  {
    MatchesKey(k, raw);
    LineBegins(k, raw);
    ReadsOther(reader, k + "=" + raw, k, raw);
  }

  lemma ReadsOther(reader: Reader, line: string, k: string, raw: string)
    requires MatchLine(line) == Some((k, raw)) && SpaceLength(line) == 0 && line != "" && line[0] != '#'
    ensures reader.dropObsolete && k == "TOWBAR_TRUSTED_PROXY_HOPS" ==> ReadLine(reader, line) == Skipped
    ensures !reader.known(k) && !(reader.dropObsolete && k == "TOWBAR_TRUSTED_PROXY_HOPS") ==> ReadLine(reader, line) == Refused
  {
  }

  lemma LineBegins(k: string, raw: string)
    requires IsKey(k)
    ensures k + "=" + raw != "" && (k + "=" + raw)[0] != '#'
  {
  }

  /** White space around the equals sign does not matter. */
  lemma SpacesAroundEquals(k: string, a: string, b: string, raw: string)
    requires IsKey(k) && Blank(a) && Blank(b) && (raw != "" ==> !Space(raw[0]))
    ensures MatchLine(k + (a + ("=" + (b + raw)))) == Some((k, raw))
  {
    var tail := b + raw;
    var equals := "=" + tail;
    var after := a + equals;
    var line := k + after;
    AfterKey(k, a, equals);
    BlankLength(a, equals);
    assert after[|a|] == '=' && after[|a| + 1..] == tail;
    BlankLength(b, raw);
    assert tail[|b|..] == raw;
  }

  lemma AfterKey(k: string, a: string, rest: string)
    requires IsKey(k) && Blank(a) && rest != "" && rest[0] == '='
    ensures var line := k + (a + rest); KeyLength(line) == |k| && line[..|k|] == k && line[|k|..] == a + rest && line[0] == k[0]
  {
    var after := a + rest;
    assert after[0] == if a != "" then a[0] else '=';
    assert !KeyChar(after[0]);
    LengthOfKey(k, after);
  }

  lemma {:induction false} WholeKey(k: string)
    requires forall i | 0 <= i < |k| :: KeyChar(k[i])
    ensures KeyLength(k) == |k|
  {
    if k != "" { WholeKey(k[1..]); }
  }

  /** A key that no equals sign follows is refused. */
  lemma KeyWithoutEquals(reader: Reader, k: string, a: string, rest: string)
    requires IsKey(k) && Blank(a) && (rest == "" || (!Space(rest[0]) && rest[0] != '=' && (a == "" ==> !KeyChar(rest[0]))))
    ensures ReadLine(reader, k + a + rest) == Refused
  {
    var line, after := k + a + rest, a + rest;
    assert line == k + after && KeyChar(line[0]);
    if after == "" { WholeKey(k); } else {
      assert a != "" ==> after[0] == a[0] && Space(after[0]) && !KeyChar(after[0]);
      LengthOfKey(k, after);
    }
    assert line[|k|..] == after;
    BlankLength(a, rest);
  }

  /** So is a line that begins with anything but a letter or an underscore, white space and the number sign excepted. */
  lemma LineWithoutKey(reader: Reader, line: string)
    requires line != "" && !Space(line[0]) && line[0] != '#' && (!KeyChar(line[0]) || '0' <= line[0] <= '9')
    ensures ReadLine(reader, line) == Refused
  {
  }

  /** White space before a key refuses the line too. */
  lemma IndentedKey(reader: Reader, blank: string, rest: string)
    requires blank != "" && Blank(blank) && rest != "" && !Space(rest[0]) && rest[0] != '#'
    ensures ReadLine(reader, blank + rest) == Refused
  {
    BlankLength(blank, rest);
    assert (blank + rest)[0] == blank[0] && !KeyChar(blank[0]);
  }

  /** The value begins without white space or a quote. */
  predicate Bare(v: string) {
    v != "" && !Space(v[0]) && v[0] != '\'' && v[0] != '"'
  }

  /** No number sign follows white space. */
  predicate NoComment(v: string) {
    forall i | 0 < i < |v| :: v[i] == '#' ==> !Space(v[i - 1])
  }

  lemma {:induction false} CutsNothing(v: string, i: nat)
    requires NoComment(v) && i <= |v|
    ensures CutComment(v, i) == v
    decreases |v| - i
  {
    if i < |v| { CutsNothing(v, i + 1); }
  }

  lemma {:induction false} CutsAt(v: string, rest: string, i: nat)
    requires v != "" && NoComment(v) && Space(v[|v| - 1]) && v[0] != '#' && rest != "" && rest[0] == '#' && i <= |v|
    ensures CutComment(v + rest, i) == v
    decreases |v| - i
  {
    var raw := v + rest;
    if i == |v| {
      assert raw[i] == '#' && raw[i - 1] == v[|v| - 1] && raw[..i] == v;
    } else {
      assert raw[i] == v[i] && (i > 0 ==> raw[i - 1] == v[i - 1]);
      CutsAt(v, rest, i + 1);
    }
  }

  /** What follows a number sign after white space is a comment; a number sign elsewhere belongs to the value. */
  lemma CommentIsCut(reader: Reader, k: string, v: string, gap: string, note: string)
    requires Taken(reader, k) && Bare(v) && v[0] != '#' && NoComment(v) && '$' !in Strip(v) && gap != "" && Blank(gap)
    ensures ReadLine(reader, k + "=" + (v + gap + "#" + note)) == Setting(k, Strip(v))
    ensures ReadLine(reader, k + "=" + v) == Setting(k, Strip(v))
  {
    NoCommentWithGap(v, gap);
    CutsAt(v + gap, "#" + note, 0);
    StripsGap(v, gap);
    Regroup(v + gap, "#", note);
    ReadsCut(reader, k, v + gap + "#" + note, v + gap);
    CutsNothing(v, 0);
    ReadsCut(reader, k, v, v);
  }

  lemma ReadsCut(reader: Reader, k: string, raw: string, v: string)
    requires Taken(reader, k) && Bare(raw) && CutComment(raw, 0) == v && '$' !in Strip(v)
    ensures ReadLine(reader, k + "=" + raw) == Setting(k, Strip(v))
  {
    ReadsSetting(reader, k, raw);
  }

  lemma NoCommentWithGap(v: string, gap: string)
    requires NoComment(v) && Blank(gap)
    ensures NoComment(v + gap)
  {
    var s := v + gap;
    forall i | 0 < i < |s| ensures s[i] == '#' ==> !Space(s[i - 1]) {
      assert if i < |v| then s[i] == v[i] && s[i - 1] == v[i - 1] else s[i] == gap[i - |v|];
    }
  }

  lemma {:induction false} StripsGap(v: string, gap: string)
    requires v != "" && !Space(v[0]) && Blank(gap)
    ensures Strip(v + gap) == Strip(v)
    decreases |gap|
  {
    assert SpaceLength(v) == 0 && SpaceLength(v + gap) == 0;
    assert v[0..] == v && (v + gap)[0..] == v + gap;
    if gap == "" {
      assert v + gap == v;
    } else {
      var n := |gap| - 1;
      assert (v + gap)[..|v + gap| - 1] == v + gap[..n] && (v + gap)[|v + gap| - 1] == gap[n];
      StripsGap(v, gap[..n]);
      assert SpaceLength(v + gap[..n]) == 0 && (v + gap[..n])[0..] == v + gap[..n];
    }
  }

  /** Without a value before it a number sign is one. */
  lemma NoValueNoComment(reader: Reader, k: string, note: string)
    requires Taken(reader, k) && NoComment("#" + note) && '$' !in Strip("#" + note)
    ensures ReadLine(reader, k + "=" + ("#" + note)) == Setting(k, Strip("#" + note))
  {
    var raw := "#" + note;
    CutsNothing(raw, 0);
    ReadsSetting(reader, k, raw);
  }

  /** A dollar sign in an unquoted value refuses the line. */
  lemma InterpolationIsRefused(reader: Reader, k: string, v: string)
    requires Taken(reader, k) && Bare(v) && NoComment(v) && '$' in Strip(v)
    ensures ReadLine(reader, k + "=" + v) == Refused
  {
    CutsNothing(v, 0);
    ReadsSetting(reader, k, v);
  }

  // ---------- quotes ----------

  /** In single quotes nothing but a backslash before a single quote is special. */
  lemma SingleQuotes(reader: Reader, k: string, q: string)
    requires Taken(reader, k)
    ensures ReadLine(reader, k + "=" + ("'" + q + "'")) == Setting(k, UnescapeQuotes(q))
  {
    var raw := "'" + q + "'";
    Quoted(reader, q);
    assert raw[0] == '\'';
    ReadsSetting(reader, k, raw);
  }

  /** A quote that is not closed refuses the line. */
  lemma OpenQuote(reader: Reader, k: string, q: string)
    requires Taken(reader, k) && (q == "" || q[|q| - 1] != '\'')
    ensures ReadLine(reader, k + "=" + ("'" + q)) == Refused
  {
    var raw := "'" + q;
    Quoted(reader, q);
    assert raw[0] == '\'';
    ReadsSetting(reader, k, raw);
  }

  lemma Quoted(reader: Reader, q: string)
    ensures ParseRaw(reader, "'" + q + "'") == Some(UnescapeQuotes(q))
    ensures (q == "" || q[|q| - 1] != '\'') ==> ParseRaw(reader, "'" + q).None?
  {
    var raw := "'" + q + "'";
    assert raw[1..|raw| - 1] == q;
  }

  /** No backslash stands before a single quote. */
  predicate NoEscape(s: string) {
    forall i | 0 < i < |s| :: !(s[i - 1] == '\\' && s[i] == '\'')
  }

  lemma {:induction false} UnescapesAt(p: string, rest: string)
    requires NoEscape(p) && (p == "" || p[|p| - 1] != '\\')
    ensures UnescapeQuotes(p + "\\'" + rest) == p + "'" + UnescapeQuotes(rest)
  {
    var s := p + "\\'" + rest;
    if p == "" {
      assert s[2..] == rest;
    } else {
      assert s[1..] == p[1..] + "\\'" + rest && s[0] == p[0];
      if |p| > 1 { assert s[1] == p[1]; } else { assert s[1] == '\\'; }
      UnescapesAt(p[1..], rest);
      assert p == [p[0]] + p[1..];
    }
  }

  lemma {:induction false} UnescapesNothing(p: string)
    requires NoEscape(p)
    ensures UnescapeQuotes(p) == p
  {
    if p != "" {
      if |p| > 1 { assert !(p[1 - 1] == '\\' && p[1] == '\''); }
      UnescapesNothing(p[1..]);
    }
  }

  /** In double quotes the value is what the decoder of such texts says, unless it has a dollar sign. */
  lemma DoubleQuotes(reader: Reader, k: string, q: string)
    requires Taken(reader, k)
    ensures var raw, v := "\"" + q + "\"", reader.unquote("\"" + q + "\"");
            ReadLine(reader, k + "=" + raw) == if v.None? || '$' in v.value then Refused else Setting(k, v.value)
    ensures (q == "" || q[|q| - 1] != '"') ==> ReadLine(reader, k + "=" + ("\"" + q)) == Refused
  {
    ReadsSetting(reader, k, "\"" + q + "\"");
    ReadsSetting(reader, k, "\"" + q);
  }

  // ---------- writing ----------

  /** The characters of a value that needs no quotes. */
  predicate Unquoted(c: char) {
    c in "ABCDEFGHIJKLMNOPQRSTUVWXYZ" || c in "abcdefghijklmnopqrstuvwxyz" || c in "0123456789" || c in "_./:@%+=-"
  }

  /** A value is written as it is when all of its characters are letters, digits or one of a few others; a quote
      in any other value gets a backslash. */
  lemma WrittenPlain(k: string, v: string)
    ensures (forall i | 0 <= i < |v| :: Unquoted(v[i])) ==> RenderedLine(k, v) == k + "=" + v
    ensures (exists i | 0 <= i < |v| :: !Unquoted(v[i])) ==> RenderedLine(k, v) == k + "=" + ("'" + EscapeQuotes(v) + "'")
  {
    forall i | 0 <= i < |v| ensures Unquoted(v[i]) <==> PlainChar(v[i]) { PlainCharacters(v[i]); }
  }

  lemma PlainCharacters(c: char)
    ensures Unquoted(c) <==> PlainChar(c)
  {
    LettersListed(c);
  }

  lemma LettersListed(c: char)
    ensures c in "ABCDEFGHIJKLMNOPQRSTUVWXYZ" <==> 'A' <= c <= 'Z'
    ensures c in "abcdefghijklmnopqrstuvwxyz" <==> 'a' <= c <= 'z'
    ensures c in "0123456789" <==> '0' <= c <= '9'
  {
  }

  lemma EscapesNext(c: char, rest: string)
    requires c != '\''
    ensures EscapeQuotes([c] + rest) == [c] + EscapeQuotes(rest)
  {
    assert ([c] + rest)[1..] == rest;
  }

  lemma {:induction false} EscapesAt(p: string, rest: string)
    requires '\'' !in p
    ensures EscapeQuotes(p + "'" + rest) == p + "\\'" + EscapeQuotes(rest) && EscapeQuotes(p) == p
  {
    var s := p + "'" + rest;
    if p == "" {
      assert s[1..] == rest;
    } else {
      var tail := p[1..];
      assert p[0] in p && '\'' !in tail;
      assert s == [p[0]] + (tail + "'" + rest) && p == [p[0]] + tail;
      EscapesAt(tail, rest);
      EscapesNext(p[0], tail + "'" + rest);
      EscapesNext(p[0], tail);
    }
  }
}
