/** JSON values, their text in the given order of keys, and a parser that inverts it. */
module JsonText {
  import opened Options

  /** Key-value pairs in some order. */
  datatype Entries<T> = NoEntry | Entry(key: string, value: T, rest: Entries<T>)

  /** A number is known by the text that the language's conversion gives it. */
  datatype Json =
    | Null | Bool(b: bool) | Number(text: string) | Text(s: string)
    | Array(items: Items) | Object(fields: Entries<Json>)
  datatype Items = NoItem | Item(head: Json, tail: Items)

  predicate Numeric(c: char) {
    '0' <= c <= '9' || c == '-' || c == '+' || c == '.' || c == 'e' || c == 'E'
  }

  predicate IsNumber(t: string) {
    t != "" && forall i | 0 <= i < |t| :: Numeric(t[i])
  }

  /** Numbers have numeric text, and no object has two values for a key. */
  predicate WellFormed(v: Json) {
    match v
    case Number(t) => IsNumber(t)
    case Array(items) => WellFormedItems(items)
    case Object(fields) => WellFormedFields(fields)
    case _ => true
  }

  predicate WellFormedItems(items: Items) {
    items.Item? ==> WellFormed(items.head) && WellFormedItems(items.tail)
  }

  predicate WellFormedFields(fields: Entries<Json>) {
    fields.Entry? ==> WellFormed(fields.value) && fields.key !in Keys(fields.rest) && WellFormedFields(fields.rest)
  }

  function Keys<T>(es: Entries<T>): set<string> {
    if es.NoEntry? then {} else {es.key} + Keys(es.rest)
  }

  // ---------- strings, as section 7 of RFC 8259 escapes them ----------

  const HEX := "0123456789abcdef"

  function Escape(c: char): string {
    if c == '"' then "\\\"" else if c == '\\' then "\\\\"
    else if c == '\U{0008}' then "\\b" else if c == '\U{000C}' then "\\f"
    else if c == '\n' then "\\n" else if c == '\r' then "\\r" else if c == '\t' then "\\t"
    else if c < ' ' then "\\u00" + [HEX[c as int / 16], HEX[c as int % 16]]
    else [c]
  }

  function EscapeAll(s: string): string {
    if s == "" then "" else Escape(s[0]) + EscapeAll(s[1..])
  }

  function Quote(s: string): string {
    "\"" + EscapeAll(s) + "\""
  }

  function HexValue(c: char): Option<nat> {
    if '0' <= c <= '9' then Some(c as int - '0' as int)
    else if 'a' <= c <= 'f' then Some(c as int - 'a' as int + 10)
    else None
  }

  /** The character that an escape sequence stands for, and what follows it. */
  function Unescape(s: string): (r: Option<(char, string)>)
    ensures r.Some? ==> |r.value.1| < |s|
  {
    if s == "" then None
    else
      match s[0]
      case '"' => Some(('"', s[1..]))
      case '\\' => Some(('\\', s[1..]))
      case 'b' => Some(('\U{0008}', s[1..]))
      case 'f' => Some(('\U{000C}', s[1..]))
      case 'n' => Some(('\n', s[1..]))
      case 'r' => Some(('\r', s[1..]))
      case 't' => Some(('\t', s[1..]))
      case 'u' =>
        if |s| < 5 || s[1] != '0' || s[2] != '0' || HexValue(s[3]).None? || HexValue(s[4]).None? then None
        else Some(((16 * HexValue(s[3]).value + HexValue(s[4]).value) as char, s[5..]))
      case _ => None
  }

  /** The rest of a quoted string, up to its closing quote. */
  function ParseChars(s: string): (r: Option<(string, string)>)
    ensures r.Some? ==> |r.value.1| < |s|
    decreases |s|
  {
    if s == "" then None
    else if s[0] == '"' then Some(("", s[1..]))
    else if s[0] == '\\' then
      var u := Unescape(s[1..]);
      if u.None? then None
      else
        var r := ParseChars(u.value.1);
        if r.None? then None else Some(([u.value.0] + r.value.0, r.value.1))
    else
      var r := ParseChars(s[1..]);
      if r.None? then None else Some(([s[0]] + r.value.0, r.value.1))
  }

  lemma HexInverts(n: nat)
    requires n < 16
    ensures HexValue(HEX[n]) == Some(n)
  {
  }

  lemma HexUnescapes(n: nat, rest: string)
    requires n < 32
    ensures Unescape("u00" + [HEX[n / 16], HEX[n % 16]] + rest) == Some((n as char, rest))
  {
    var t := "u00" + [HEX[n / 16], HEX[n % 16]] + rest;
    HexInverts(n / 16);
    HexInverts(n % 16);
    assert t[0] == 'u' && t[1] == '0' && t[2] == '0' && t[3] == HEX[n / 16] && t[4] == HEX[n % 16];
    assert t[5..] == rest;
  }

  lemma ShortUnescapes(e: char, rest: string)
    requires e in "\"\\bfnrt"
    ensures var t := [e] + rest; Unescape(t).Some? && Unescape(t).value.1 == rest
  {
    assert ([e] + rest)[1..] == rest;
  }

  lemma UnescapeInverts(c: char, rest: string)
    ensures Escape(c)[0] == '\\' ==> Unescape(Escape(c)[1..] + rest) == Some((c, rest))
    ensures Escape(c)[0] != '\\' ==> Escape(c) == [c] && c != '"'
  {
    var e := Escape(c);
    if |e| == 2 {
      assert e[1..] == [e[1]];
      ShortUnescapes(e[1], rest);
    } else if |e| == 6 {
      HexUnescapes(c as int, rest);
      assert e[1..] == "u00" + [HEX[c as int / 16], HEX[c as int % 16]];
    }
  }

  /** The two-character escapes of a JSON string. */
  predicate ShortEscape(x: char, c: char) {
    || (c == '"' && x == '"') || (c == '\\' && x == '\\') || (c == '/' && x == '/')
    || (c as int == 8 && x == 'b') || (c as int == 12 && x == 'f') || (c as int == 10 && x == 'n')
    || (c as int == 13 && x == 'r') || (c as int == 9 && x == 't')
  }

  function HexDigit(c: char): Option<nat> {
    if '0' <= c <= '9' then Some(c as int - 48)
    else if 'a' <= c <= 'f' then Some(c as int - 87)
    else if 'A' <= c <= 'F' then Some(c as int - 55)
    else None
  }

  predicate HexEscape(e: string, c: char) {
    && |e| == 6 && e[0] == '\\' && e[1] == 'u'
    && (forall i | 2 <= i < 6 :: HexDigit(e[i]).Some?)
    && c as int == 4096 * HexDigit(e[2]).value + 256 * HexDigit(e[3]).value + 16 * HexDigit(e[4]).value + HexDigit(e[5]).value
  }

  /** What may stand for a character in a JSON string. */
  predicate Legal(e: string, c: char) {
    || (|e| == 1 && e[0] == c && c >= ' ' && c != '"' && c != '\\')
    || (|e| == 2 && e[0] == '\\' && ShortEscape(e[1], c))
    || HexEscape(e, c)
  }

  /** Every character gets the shortest text that may stand for it, hexadecimal digits in lower case. */
  lemma EscapeIsShortest(c: char)
    ensures Legal(Escape(c), c)
    ensures forall e: string | Legal(e, c) :: |Escape(c)| <= |e|
    ensures forall x | x in Escape(c) :: |Escape(c)| == 6 ==> !('A' <= x <= 'F')
  {
    var n := c as int;
    if c < ' ' && |Escape(c)| == 6 {
      assert HexDigit(HEX[n / 16]) == Some(n / 16) && HexDigit(HEX[n % 16]) == Some(n % 16);
      assert HexDigit('0') == Some(0);
    }
  }

  lemma ParseCharsStep(c: char, s: string, more: string, rest: string)
    requires ParseChars(more) == Some((s, rest))
    ensures ParseChars(Escape(c) + more) == Some(([c] + s, rest))
  {
    UnescapeInverts(c, more);
    assert (Escape(c) + more)[1..] == Escape(c)[1..] + more;
  }

  lemma {:induction false} ParseInvertsQuote(s: string, rest: string)
    ensures ParseChars(EscapeAll(s) + ("\"" + rest)) == Some((s, rest))
  {
    var tail := "\"" + rest;
    if s == "" {
      assert EscapeAll(s) + tail == tail && tail[1..] == rest;
    } else {
      ParseInvertsQuote(s[1..], rest);
      ParseCharsStep(s[0], s[1..], EscapeAll(s[1..]) + tail, rest);
      QuoteSplit(s, tail);
    }
  }

  lemma QuoteSplit(s: string, tail: string)
    requires s != ""
    ensures EscapeAll(s) + tail == Escape(s[0]) + (EscapeAll(s[1..]) + tail) && s == [s[0]] + s[1..]
  {
    Regroup(Escape(s[0]), EscapeAll(s[1..]), tail);
  }

  lemma Regroup(a: string, b: string, c: string)
    ensures a + b + c == a + (b + c)
  {
  }

  // ---------- values ----------

  function Raw(v: Json): string {
    match v
    case Null => "null"
    case Bool(b) => if b then "true" else "false"
    case Number(t) => t
    case Text(s) => Quote(s)
    case Array(items) => "[" + RawItems(items) + "]"
    case Object(fields) => "{" + RawFields(fields) + "}"
  }

  function RawItems(items: Items): string {
    match items
    case NoItem => ""
    case Item(head, NoItem) => Raw(head)
    case Item(head, tail) => Raw(head) + "," + RawItems(tail)
  }

  function RawFields(fields: Entries<Json>): string {
    match fields
    case NoEntry => ""
    case Entry(k, x, NoEntry) => Quote(k) + ":" + Raw(x)
    case Entry(k, x, rest) => Quote(k) + ":" + Raw(x) + "," + RawFields(rest)
  }

  function Digits(s: string): (n: nat)
    ensures n <= |s| && (forall i | 0 <= i < n :: Numeric(s[i])) && (n < |s| ==> !Numeric(s[n]))
  {
    if s == "" || !Numeric(s[0]) then 0 else 1 + Digits(s[1..])
  }

  function ParseText(s: string): (r: Option<(Json, string)>)
    ensures r.Some? ==> |r.value.1| < |s|
  {
    var r := ParseChars(s);
    if r.None? then None else Some((Text(r.value.0), r.value.1))
  }

  function ParseWord(s: string): (r: Option<(Json, string)>)
    ensures r.Some? ==> |r.value.1| < |s|
  {
    if "null" <= s then Some((Null, s[4..]))
    else if "true" <= s then Some((Bool(true), s[4..]))
    else if "false" <= s then Some((Bool(false), s[5..]))
    else None
  }

  function ParseNumber(s: string): (r: Option<(Json, string)>)
    ensures r.Some? ==> |r.value.1| < |s|
  {
    var n := Digits(s);
    if n == 0 then None else Some((Number(s[..n]), s[n..]))
  }

  function Parse(s: string): (r: Option<(Json, string)>)
    ensures r.Some? ==> |r.value.1| < |s|
    decreases |s|, 1
  {
    if s == "" then None
    else if s[0] == '"' then ParseText(s[1..])
    else if s[0] == '[' then ParseArray(s[1..])
    else if s[0] == '{' then ParseObject(s[1..])
    else if Numeric(s[0]) then ParseNumber(s)
    else ParseWord(s)
  }

  function ParseArray(s: string): (r: Option<(Json, string)>)
    ensures r.Some? ==> |r.value.1| < |s|
    decreases |s|, 3
  {
    if s != "" && s[0] == ']' then Some((Array(NoItem), s[1..]))
    else
      var r := ParseItems(s);
      if r.None? then None else Some((Array(r.value.0), r.value.1))
  }

  function ParseObject(s: string): (r: Option<(Json, string)>)
    ensures r.Some? ==> |r.value.1| < |s|
    decreases |s|, 3
  {
    if s != "" && s[0] == '}' then Some((Object(NoEntry), s[1..]))
    else
      var r := ParseFields(s);
      if r.None? then None else Some((Object(r.value.0), r.value.1))
  }

  /** One or more values up to the closing bracket. */
  function ParseItems(s: string): (r: Option<(Items, string)>)
    ensures r.Some? ==> |r.value.1| < |s|
    decreases |s|, 2
  {
    var v := Parse(s);
    if v.None? || v.value.1 == "" then None
    else if v.value.1[0] == ']' then Some((Item(v.value.0, NoItem), v.value.1[1..]))
    else if v.value.1[0] != ',' then None
    else
      var r := ParseItems(v.value.1[1..]);
      if r.None? then None else Some((Item(v.value.0, r.value.0), r.value.1))
  }

  function ParseFields(s: string): (r: Option<(Entries<Json>, string)>)
    ensures r.Some? ==> |r.value.1| < |s|
    decreases |s|, 2
  {
    if s == "" || s[0] != '"' then None
    else
      var k := ParseChars(s[1..]);
      if k.None? || k.value.1 == "" || k.value.1[0] != ':' then None
      else
        var v := Parse(k.value.1[1..]);
        if v.None? || v.value.1 == "" then None
        else if v.value.1[0] == '}' then Some((Entry(k.value.0, v.value.0, NoEntry), v.value.1[1..]))
        else if v.value.1[0] != ',' then None
        else
          var r := ParseFields(v.value.1[1..]);
          if r.None? then None else Some((Entry(k.value.0, v.value.0, r.value.0), r.value.1))
  }

  // ---------- the parser inverts the printer ----------

  /** What may follow a value. */
  predicate Stops(rest: string) {
    rest == "" || !Numeric(rest[0])
  }

  lemma {:induction false} DigitsOf(t: string, rest: string)
    requires (forall i | 0 <= i < |t| :: Numeric(t[i])) && Stops(rest)
    ensures Digits(t + rest) == |t|
  {
    if t == "" {
      assert t + rest == rest;
    } else {
      assert (t + rest)[1..] == t[1..] + rest;
      DigitsOf(t[1..], rest);
    }
  }

  lemma RawIsNonempty(v: Json)
    requires WellFormed(v)
    ensures Raw(v) != "" && Raw(v)[0] != ']'
  {
    if v.Number? { assert Numeric(v.text[0]); }
  }

  lemma ParseInvertsNumber(t: string, rest: string)
    requires IsNumber(t) && Stops(rest)
    ensures Parse(t + rest) == Some((Number(t), rest))
  {
    DigitsOf(t, rest);
    assert Numeric(t[0]) && (t + rest)[0] == t[0];
    assert (t + rest)[..|t|] == t && (t + rest)[|t|..] == rest;
  }

  lemma ParseInvertsWord(v: Json, rest: string)
    requires v.Null? || v.Bool?
    ensures Parse(Raw(v) + rest) == Some((v, rest))
  {
    var s := Raw(v) + rest;
    assert s[|Raw(v)|..] == rest && Raw(v) <= s && s[0] == Raw(v)[0];
  }

  lemma ParseInvertsText(x: string, rest: string)
    ensures Parse(Quote(x) + rest) == Some((Text(x), rest))
  {
    var tail := EscapeAll(x) + ("\"" + rest);
    ParseInvertsQuote(x, rest);
    Regroup("\"" + EscapeAll(x), "\"", rest);
    Regroup("\"", EscapeAll(x), "\"" + rest);
    assert ("\"" + tail)[1..] == tail;
  }

  /** Parsing reads back the printed value and leaves what follows it. */
  lemma {:induction false} ParseInverts(v: Json, rest: string)
    requires WellFormed(v) && Stops(rest)
    ensures Parse(Raw(v) + rest) == Some((v, rest))
    decreases v, 1
  {
    match v
    case Null => ParseInvertsWord(v, rest);
    case Bool(_) => ParseInvertsWord(v, rest);
    case Number(t) => ParseInvertsNumber(t, rest);
    case Text(x) => ParseInvertsText(x, rest);
    case Array(items) =>
      if items.Item? { ParseItemsInverts(items, rest); }
      ParseInvertsArray(items, rest);
    case Object(fields) =>
      if fields.Entry? { ParseFieldsInverts(fields, rest); }
      ParseInvertsObject(fields, rest);
  }

  lemma ParseInvertsArray(items: Items, rest: string)
    requires WellFormedItems(items)
    requires items.Item? ==> ParseItems(RawItems(items) + ("]" + rest)) == Some((items, rest))
    ensures Parse(Raw(Array(items)) + rest) == Some((Array(items), rest))
  {
    var t := RawItems(items) + ("]" + rest);
    if items.Item? { ItemsBeginValue(items); }
    ParseArrayStep(items, t, rest);
    ParseBracket("[" + t, t);
    Regroup("[" + RawItems(items), "]", rest);
    Regroup("[", RawItems(items), "]" + rest);
  }

  lemma ParseArrayStep(items: Items, t: string, rest: string)
    requires if items.NoItem? then t == "]" + rest else t != "" && t[0] != ']' && ParseItems(t) == Some((items, rest))
    ensures ParseArray(t) == Some((Array(items), rest))
  {
    if items.NoItem? { assert t[1..] == rest; }
  }

  lemma ParseBracket(s: string, t: string)
    requires s == "[" + t
    ensures Parse(s) == ParseArray(t)
  {
    assert s[1..] == t;
  }

  lemma ParseObjectStep(fields: Entries<Json>, t: string, rest: string)
    requires if fields.NoEntry? then t == "}" + rest else t != "" && t[0] == '"' && ParseFields(t) == Some((fields, rest))
    ensures ParseObject(t) == Some((Object(fields), rest))
  {
    if fields.NoEntry? { assert t[1..] == rest; }
  }

  lemma ParseInvertsObject(fields: Entries<Json>, rest: string)
    requires fields.Entry? ==> ParseFields(RawFields(fields) + ("}" + rest)) == Some((fields, rest))
    ensures Parse(Raw(Object(fields)) + rest) == Some((Object(fields), rest))
  {
    var t := RawFields(fields) + ("}" + rest);
    if fields.Entry? { FieldsBeginKey(fields); }
    ParseObjectStep(fields, t, rest);
    ParseBrace("{" + t, t);
    Regroup("{" + RawFields(fields), "}", rest);
    Regroup("{", RawFields(fields), "}" + rest);
  }

  lemma ParseBrace(s: string, t: string)
    requires s == "{" + t
    ensures Parse(s) == ParseObject(t)
  {
    assert s[1..] == t;
  }

  lemma FieldsBeginKey(fields: Entries<Json>)
    requires fields.Entry?
    ensures RawFields(fields) != "" && RawFields(fields)[0] == '"'
  {
  }

  lemma ItemsBeginValue(items: Items)
    requires items.Item? && WellFormedItems(items)
    ensures RawItems(items) != "" && RawItems(items)[0] != ']'
  {
    RawIsNonempty(items.head);
  }

  lemma {:induction false} ParseItemsInverts(items: Items, rest: string)
    requires items.Item? && WellFormedItems(items)
    ensures ParseItems(RawItems(items) + ("]" + rest)) == Some((items, rest))
    decreases items, 0
  {
    var more := RawItems(items.tail) + ("]" + rest);
    var after := if items.tail.NoItem? then "]" + rest else "," + more;
    assert RawItems(items) + ("]" + rest) == Raw(items.head) + after;
    ParseInverts(items.head, after);
    if items.tail.NoItem? {
      assert after[1..] == rest;
    } else {
      ParseItemsInverts(items.tail, rest);
      assert after[1..] == more;
    }
  }

  lemma RawFieldsSplit(fields: Entries<Json>, rest: string, after: string)
    requires fields.Entry?
    requires after == if fields.rest.NoEntry? then "}" + rest else "," + (RawFields(fields.rest) + ("}" + rest))
    ensures RawFields(fields) + ("}" + rest) == Quote(fields.key) + (":" + (Raw(fields.value) + after))
  {
  }

  lemma ParseKey(k: string, colon: string)
    ensures var s := Quote(k) + colon; s[0] == '"' && ParseChars(s[1..]) == Some((k, colon))
  {
    ParseInvertsQuote(k, colon);
    assert (Quote(k) + colon)[1..] == EscapeAll(k) + ("\"" + colon);
  }

  lemma {:induction false} ParseFieldsInverts(fields: Entries<Json>, rest: string)
    requires fields.Entry? && WellFormedFields(fields)
    ensures ParseFields(RawFields(fields) + ("}" + rest)) == Some((fields, rest))
    decreases fields, 0
  {
    var more := RawFields(fields.rest) + ("}" + rest);
    var after := if fields.rest.NoEntry? then "}" + rest else "," + more;
    RawFieldsSplit(fields, rest, after);
    var colon := ":" + (Raw(fields.value) + after);
    ParseKey(fields.key, colon);
    assert colon[1..] == Raw(fields.value) + after;
    ParseInverts(fields.value, after);
    if fields.rest.Entry? {
      ParseFieldsInverts(fields.rest, rest);
      assert after[1..] == more;
    } else {
      assert after[1..] == rest;
    }
  }
}
