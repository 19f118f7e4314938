/** The environment file that the installer renders, and the reader that parses it back. */
module EnvFile {
  import opened Dictionary
  import opened JsonText
  import opened Options

  // ---------- characters and lines ----------

  /** The characters at which a text is split into lines. */
  predicate LineBreak(c: char) {
    '\n' <= c <= '\r' || '\U{001C}' <= c <= '\U{001E}' || c == '\U{0085}' || c == '\U{2028}' || c == '\U{2029}'
  }

  predicate Space(c: char) {
    || LineBreak(c) || c == '\t' || c == '\U{001F}' || c == ' ' || c == '\U{00A0}' || c == '\U{1680}'
    || '\U{2000}' <= c <= '\U{200A}' || c == '\U{202F}' || c == '\U{205F}' || c == '\U{3000}'
  }

  predicate Unbroken(s: string) {
    forall i | 0 <= i < |s| :: !LineBreak(s[i])
  }

  /** The length of the first line. */
  function LineLength(s: string): (n: nat)
    ensures n <= |s| && Unbroken(s[..n]) && (n < |s| ==> LineBreak(s[n]))
  {
    if s == "" || LineBreak(s[0]) then 0
    else
      var n := 1 + LineLength(s[1..]);
      assert s[..n] == [s[0]] + s[1..][..n - 1];
      n
  }

  function Lines(s: string): seq<string>
    decreases |s|
  {
    if s == "" then []
    else
      var n := LineLength(s);
      if n == |s| then [s]
      else if s[n] == '\r' && n + 1 < |s| && s[n + 1] == '\n' then [s[..n]] + Lines(s[n + 2..])
      else [s[..n]] + Lines(s[n + 1..])
  }

  predicate KeyChar(c: char) {
    'A' <= c <= 'Z' || 'a' <= c <= 'z' || '0' <= c <= '9' || c == '_'
  }

  predicate IsKey(k: string) {
    k != "" && !('0' <= k[0] <= '9') && forall i | 0 <= i < |k| :: KeyChar(k[i])
  }

  function KeyLength(s: string): (n: nat)
    ensures n <= |s|
  {
    if s == "" || !KeyChar(s[0]) then 0 else 1 + KeyLength(s[1..])
  }

  function SpaceLength(s: string): (n: nat)
    ensures n <= |s|
    ensures n < |s| ==> !Space(s[n])
  {
    if s == "" || !Space(s[0]) then 0 else 1 + SpaceLength(s[1..])
  }

  function Strip(s: string): string {
    StripEnd(s[SpaceLength(s)..])
  }

  function StripEnd(s: string): (r: string)
    ensures r <= s
  {
    if s != "" && Space(s[|s| - 1]) then StripEnd(s[..|s| - 1]) else s
  }

  // ---------- rendering ----------

  predicate PlainChar(c: char) {
    KeyChar(c) || c in "./:@%+=-"
  }

  predicate Plain(v: string) {
    forall i | 0 <= i < |v| :: PlainChar(v[i])
  }

  function EscapeQuotes(v: string): string {
    if v == "" then "" else (if v[0] == '\'' then "\\'" else [v[0]]) + EscapeQuotes(v[1..])
  }

  function RenderedLine(k: string, v: string): string {
    k + "=" + if Plain(v) then v else "'" + EscapeQuotes(v) + "'"
  }

  function Rendered(values: Entries<string>): string {
    if values.NoEntry? then "" else RenderedLine(values.key, values.value) + "\n" + Rendered(values.rest)
  }

  // ---------- parsing ----------

  /** Which keys are settings, how a text in double quotes is read, and whether the obsolete
      proxy setting is dropped. */
  datatype Reader = Reader(known: string -> bool, unquote: string -> Option<string>, dropObsolete: bool)

  const OBSOLETE := "TOWBAR_TRUSTED_PROXY_HOPS"

  /** The key of a line and what stands after the equals sign. */
  function MatchLine(line: string): Option<(string, string)> {
    var n := KeyLength(line);
    if n == 0 || '0' <= line[0] <= '9' then None
    else
      var after := line[n..];
      var m := SpaceLength(after);
      if m == |after| || after[m] != '=' then None
      else
        var tail := after[m + 1..];
        Some((line[..n], tail[SpaceLength(tail)..]))
  }

  function UnescapeQuotes(s: string): string {
    if |s| >= 2 && s[0] == '\\' && s[1] == '\'' then "'" + UnescapeQuotes(s[2..])
    else if s == "" then ""
    else [s[0]] + UnescapeQuotes(s[1..])
  }

  /** An unquoted value ends before a number sign that follows white space. */
  function CutComment(raw: string, i: nat): string
    requires i <= |raw|
    decreases |raw| - i
  {
    if i == |raw| then raw
    else if i > 0 && raw[i] == '#' && Space(raw[i - 1]) then raw[..i]
    else CutComment(raw, i + 1)
  }

  function ParseRaw(reader: Reader, raw: string): Option<string> {
    if raw != "" && raw[0] == '\'' then
      if |raw| < 2 || raw[|raw| - 1] != '\'' then None else Some(UnescapeQuotes(raw[1..|raw| - 1]))
    else if raw != "" && raw[0] == '"' then
      if |raw| < 2 || raw[|raw| - 1] != '"' then None
      else
        var v := reader.unquote(raw);
        if v.None? || '$' in v.value then None else v
    else
      var v := Strip(CutComment(raw, 0));
      if '$' in v then None else Some(v)
  }

  datatype Line = Skipped | Refused | Setting(key: string, value: string)

  function ReadLine(reader: Reader, line: string): Line {
    var n := SpaceLength(line);
    if n == |line| || line[n] == '#' then Skipped
    else
      var m := MatchLine(line);
      if m.None? then Refused
      else
        var (key, raw) := m.value;
        if reader.dropObsolete && key == OBSOLETE then Skipped
        else if !reader.known(key) then Refused
        else
          var v := ParseRaw(reader, raw);
          if v.None? then Refused else Setting(key, v.value)
  }

  /** One line after the other; a refused line or a repeated key refuses the file. */
  function ReadLines(reader: Reader, lines: seq<string>, found: Entries<string>): Option<Entries<string>>
    decreases |lines|
  {
    if lines == [] then Some(found)
    else
      match ReadLine(reader, lines[0])
      case Skipped => ReadLines(reader, lines[1..], found)
      case Refused => None
      case Setting(key, value) =>
        if key in Keys(found) then None else ReadLines(reader, lines[1..], Put(found, key, value))
  }

  function Parsed(reader: Reader, text: string): Option<Entries<string>> {
    ReadLines(reader, Lines(text), NoEntry)
  }

  method ParseEnv(reader: Reader, text: string) returns (r: Option<Entries<string>>)
    ensures r == Parsed(reader, text)
  {
    var values: Entries<string> := NoEntry;
    var lines := Lines(text);
    for i := 0 to |lines|
      invariant Parsed(reader, text) == ReadLines(reader, lines[i..], values)
    {
      assert lines[i..][0] == lines[i] && lines[i..][1..] == lines[i + 1..];
      match ReadLine(reader, lines[i])
      case Skipped =>
      case Refused => return None;
      case Setting(key, value) =>
        if key in Keys(values) { return None; }
        values := Put(values, key, value);
    }
    return Some(values);
  }

  method Render(values: Entries<string>) returns (text: string)
    ensures text == Rendered(values)
  {
    text := "";
    var rest := values;
    while rest.Entry?
      invariant Rendered(values) == text + Rendered(rest)
      decreases rest
    {
      if Plain(rest.value) {
        text := text + (rest.key + "=" + rest.value + "\n");
      } else {
        text := text + (rest.key + "='" + EscapeQuotes(rest.value) + "'\n");
      }
      LineShape(rest.key, rest.value);
      rest := rest.rest;
    }
  }

  lemma LineShape(k: string, v: string)
    ensures RenderedLine(k, v) + "\n" == if Plain(v) then k + "=" + v + "\n" else k + "='" + EscapeQuotes(v) + "'\n"
  {
    assert "='" == "=" + "'" && "'\n" == "'" + "\n";
  }
}
