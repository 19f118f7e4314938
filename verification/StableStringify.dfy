/** The canonical text of a JSON value: equal texts exactly for values that are equal up
    to the order of object keys. */
module StableStringify {
  import opened JsonText
  import opened KeyOrder
  import opened Options

  function Insert<T>(lt: Order, k: string, x: T, es: Entries<T>): Entries<T> {
    if es.NoEntry? || lt(k, es.key) then Entry(k, x, es)
    else Entry(es.key, es.value, Insert(lt, k, x, es.rest))
  }

  function Sort<T>(lt: Order, es: Entries<T>): Entries<T> {
    if es.NoEntry? then NoEntry else Insert(lt, es.key, es.value, Sort(lt, es.rest))
  }

  // ---------- the printer of the source ----------

  function Stringify(lt: Order, v: Json): string {
    match v
    case Null => "null"
    case Bool(b) => if b then "true" else "false"
    case Number(t) => t
    case Text(s) => Quote(s)
    case Array(items) => "[" + StringifyItems(lt, items) + "]"
    case Object(fields) => "{" + JoinFields(Sort(lt, Texts(lt, fields))) + "}"
  }

  function StringifyItems(lt: Order, items: Items): string {
    match items
    case NoItem => ""
    case Item(head, NoItem) => Stringify(lt, head)
    case Item(head, tail) => Stringify(lt, head) + "," + StringifyItems(lt, tail)
  }

  /** Every value of an object with its text. */
  function Texts(lt: Order, fields: Entries<Json>): Entries<string> {
    match fields
    case NoEntry => NoEntry
    case Entry(k, x, rest) => Entry(k, Stringify(lt, x), Texts(lt, rest))
  }

  function JoinFields(texts: Entries<string>): string {
    match texts
    case NoEntry => ""
    case Entry(k, x, NoEntry) => Quote(k) + ":" + x
    case Entry(k, x, rest) => Quote(k) + ":" + x + "," + JoinFields(rest)
  }

  /** The punctuation of the text, and its words. */
  lemma Punctuation(lt: Order, a: Json, b: Json, rest: Items, k: string, s: string)
    ensures Stringify(lt, Null) == "null" && Stringify(lt, Bool(true)) == "true" && Stringify(lt, Bool(false)) == "false"
    ensures Stringify(lt, Number(s)) == s && Stringify(lt, Text(s)) == "\"" + EscapeAll(s) + "\""
    ensures Stringify(lt, Array(NoItem)) == "[]" && Stringify(lt, Array(Item(a, NoItem))) == "[" + Stringify(lt, a) + "]"
    ensures StringifyItems(lt, Item(a, Item(b, rest))) == Stringify(lt, a) + "," + StringifyItems(lt, Item(b, rest))
    ensures Stringify(lt, Object(NoEntry)) == "{}"
    ensures Stringify(lt, Object(Entry(k, a, NoEntry))) == "{" + ("\"" + EscapeAll(k) + "\"" + ":" + Stringify(lt, a)) + "}"
  {
    var none: Entries<Json> := NoEntry;
    assert Sort(lt, Texts(lt, none)) == NoEntry;
    var one := Entry(k, a, none);
    assert Texts(lt, one) == Entry(k, Stringify(lt, a), NoEntry);
    assert Sort(lt, Texts(lt, one)) == Texts(lt, one);
  }

  /** Members are joined by commas. */
  lemma MembersJoined(k: string, x: string, rest: Entries<string>)
    requires rest.Entry?
    ensures JoinFields(Entry(k, x, rest)) == "\"" + EscapeAll(k) + "\"" + ":" + x + "," + JoinFields(rest)
  {
  }

  // ---------- what a value means: objects are maps ----------

  datatype Value =
    | VNull | VBool(b: bool) | VNumber(text: string) | VText(s: string)
    | VArray(items: seq<Value>) | VObject(fields: map<string, Value>)

  function Meaning(v: Json): Value {
    match v
    case Null => VNull
    case Bool(b) => VBool(b)
    case Number(t) => VNumber(t)
    case Text(s) => VText(s)
    case Array(items) => VArray(MeaningOfItems(items))
    case Object(fields) => VObject(MeaningOfFields(fields))
  }

  function MeaningOfItems(items: Items): seq<Value> {
    match items
    case NoItem => []
    case Item(head, tail) => [Meaning(head)] + MeaningOfItems(tail)
  }

  function MeaningOfFields(fields: Entries<Json>): map<string, Value> {
    match fields
    case NoEntry => map[]
    case Entry(k, x, rest) => MeaningOfFields(rest)[k := Meaning(x)]
  }

  // ---------- the normal form that the printer prints ----------

  function Normal(lt: Order, v: Json): Json {
    match v
    case Array(items) => Array(NormalItems(lt, items))
    case Object(fields) => Object(Sort(lt, NormalFields(lt, fields)))
    case _ => v
  }

  function NormalItems(lt: Order, items: Items): Items {
    match items
    case NoItem => NoItem
    case Item(head, tail) => Item(Normal(lt, head), NormalItems(lt, tail))
  }

  function NormalFields(lt: Order, fields: Entries<Json>): Entries<Json> {
    match fields
    case NoEntry => NoEntry
    case Entry(k, x, rest) => Entry(k, Normal(lt, x), NormalFields(lt, rest))
  }

  /** Both have the same keys in the same order, and the texts are those of the values. */
  predicate TextsOf(texts: Entries<string>, fields: Entries<Json>) {
    match (texts, fields)
    case (NoEntry, NoEntry) => true
    case (Entry(k, t, ts), Entry(j, x, fs)) => k == j && t == Raw(x) && TextsOf(ts, fs)
    case _ => false
  }

  lemma {:induction false} InsertKeepsTexts(lt: Order, k: string, x: Json, texts: Entries<string>, fields: Entries<Json>)
    requires TextsOf(texts, fields)
    ensures TextsOf(Insert(lt, k, Raw(x), texts), Insert(lt, k, x, fields))
  {
    if fields.Entry? && !lt(k, fields.key) { InsertKeepsTexts(lt, k, x, texts.rest, fields.rest); }
  }

  lemma {:induction false} SortKeepsTexts(lt: Order, texts: Entries<string>, fields: Entries<Json>)
    requires TextsOf(texts, fields)
    ensures TextsOf(Sort(lt, texts), Sort(lt, fields))
  {
    if fields.Entry? {
      SortKeepsTexts(lt, texts.rest, fields.rest);
      InsertKeepsTexts(lt, fields.key, fields.value, Sort(lt, texts.rest), Sort(lt, fields.rest));
    }
  }

  lemma {:induction false} JoinIsRaw(texts: Entries<string>, fields: Entries<Json>)
    requires TextsOf(texts, fields)
    ensures JoinFields(texts) == RawFields(fields)
  {
    if fields.Entry? { JoinIsRaw(texts.rest, fields.rest); }
  }

  /** The source's printer prints the normal form. */
  lemma {:induction false} StringifyIsRawNormal(lt: Order, v: Json)
    ensures Stringify(lt, v) == Raw(Normal(lt, v))
  {
    match v
    case Array(items) => StringifyItemsIsRaw(lt, items);
    case Object(fields) =>
      TextsAreRaw(lt, fields);
      SortKeepsTexts(lt, Texts(lt, fields), NormalFields(lt, fields));
      JoinIsRaw(Sort(lt, Texts(lt, fields)), Sort(lt, NormalFields(lt, fields)));
    case _ =>
  }

  lemma {:induction false} StringifyItemsIsRaw(lt: Order, items: Items)
    ensures StringifyItems(lt, items) == RawItems(NormalItems(lt, items))
  {
    if items.Item? {
      StringifyIsRawNormal(lt, items.head);
      StringifyItemsIsRaw(lt, items.tail);
    }
  }

  lemma {:induction false} TextsAreRaw(lt: Order, fields: Entries<Json>)
    ensures TextsOf(Texts(lt, fields), NormalFields(lt, fields))
  {
    if fields.Entry? {
      StringifyIsRawNormal(lt, fields.value);
      TextsAreRaw(lt, fields.rest);
    }
  }

  // ---------- the normal form is well-formed and means the same ----------

  lemma {:induction false} InsertKeepsFields(lt: Order, k: string, x: Json, fields: Entries<Json>)
    requires WellFormed(x) && WellFormedFields(fields) && k !in Keys(fields)
    ensures WellFormedFields(Insert(lt, k, x, fields)) && Keys(Insert(lt, k, x, fields)) == Keys(fields) + {k}
    ensures MeaningOfFields(Insert(lt, k, x, fields)) == MeaningOfFields(fields)[k := Meaning(x)]
  {
    if fields.Entry? && !lt(k, fields.key) { InsertKeepsFields(lt, k, x, fields.rest); }
  }

  lemma {:induction false} SortKeepsFields(lt: Order, fields: Entries<Json>)
    requires WellFormedFields(fields)
    ensures WellFormedFields(Sort(lt, fields)) && Keys(Sort(lt, fields)) == Keys(fields)
    ensures MeaningOfFields(Sort(lt, fields)) == MeaningOfFields(fields)
  {
    if fields.Entry? {
      SortKeepsFields(lt, fields.rest);
      InsertKeepsFields(lt, fields.key, fields.value, Sort(lt, fields.rest));
    }
  }

  lemma {:induction false} NormalKeepsMeaning(lt: Order, v: Json)
    requires WellFormed(v)
    ensures WellFormed(Normal(lt, v)) && Meaning(Normal(lt, v)) == Meaning(v)
  {
    match v
    case Array(items) => NormalItemsKeepMeaning(lt, items);
    case Object(fields) =>
      NormalFieldsKeepMeaning(lt, fields);
      SortKeepsFields(lt, NormalFields(lt, fields));
    case _ =>
  }

  lemma {:induction false} NormalItemsKeepMeaning(lt: Order, items: Items)
    requires WellFormedItems(items)
    ensures WellFormedItems(NormalItems(lt, items)) && MeaningOfItems(NormalItems(lt, items)) == MeaningOfItems(items)
  {
    if items.Item? {
      NormalKeepsMeaning(lt, items.head);
      NormalItemsKeepMeaning(lt, items.tail);
    }
  }

  lemma {:induction false} NormalFieldsKeepMeaning(lt: Order, fields: Entries<Json>)
    requires WellFormedFields(fields)
    ensures WellFormedFields(NormalFields(lt, fields)) && Keys(NormalFields(lt, fields)) == Keys(fields)
    ensures MeaningOfFields(NormalFields(lt, fields)) == MeaningOfFields(fields)
  {
    if fields.Entry? {
      NormalKeepsMeaning(lt, fields.value);
      NormalFieldsKeepMeaning(lt, fields.rest);
    }
  }

  // ---------- equal meaning, equal normal form ----------

  function ToMap<T>(es: Entries<T>): map<string, T> {
    if es.NoEntry? then map[] else ToMap(es.rest)[es.key := es.value]
  }

  predicate Distinct<T>(es: Entries<T>) {
    es.Entry? ==> es.key !in Keys(es.rest) && Distinct(es.rest)
  }

  predicate Ascending<T>(lt: Order, es: Entries<T>) {
    es.Entry? ==> Ascending(lt, es.rest) && forall k | k in Keys(es.rest) :: lt(es.key, k)
  }

  lemma {:induction false} MapKeys<T>(es: Entries<T>)
    ensures ToMap(es).Keys == Keys(es)
  {
    if es.Entry? { MapKeys(es.rest); }
  }

  lemma {:induction false} InsertSorts<T>(lt: Order, k: string, x: T, es: Entries<T>)
    requires StrictTotal(lt) && Ascending(lt, es) && k !in Keys(es)
    ensures Ascending(lt, Insert(lt, k, x, es)) && Keys(Insert(lt, k, x, es)) == Keys(es) + {k}
    ensures ToMap(Insert(lt, k, x, es)) == ToMap(es)[k := x]
  {
    if es.Entry? && !lt(k, es.key) { InsertSorts(lt, k, x, es.rest); }
  }

  lemma {:induction false} SortSorts<T>(lt: Order, es: Entries<T>)
    requires StrictTotal(lt) && Distinct(es)
    ensures Ascending(lt, Sort(lt, es)) && Keys(Sort(lt, es)) == Keys(es) && ToMap(Sort(lt, es)) == ToMap(es)
  {
    if es.Entry? {
      SortSorts(lt, es.rest);
      InsertSorts(lt, es.key, es.value, Sort(lt, es.rest));
    }
  }

  lemma NoKeys<T>(es: Entries<T>)
    ensures Keys(es) == {} <==> es.NoEntry?
  {
    if es.Entry? { assert es.key in Keys(es); }
  }

  /** Ascending entries are determined by what they map. */
  lemma {:induction false} AscendingIsUnique<T>(lt: Order, a: Entries<T>, b: Entries<T>)
    requires StrictTotal(lt) && Ascending(lt, a) && Ascending(lt, b) && ToMap(a) == ToMap(b)
    ensures a == b
  {
    MapKeys(a);
    MapKeys(b);
    if a.NoEntry? || b.NoEntry? {
      NoKeys(a);
      NoKeys(b);
    } else {
      assert a.key in Keys(b) && b.key in Keys(a);
      assert a.key == b.key;
      MapKeys(a.rest);
      MapKeys(b.rest);
      assert ToMap(a.rest) == ToMap(a) - {a.key};
      assert ToMap(b.rest) == ToMap(b) - {b.key};
      AscendingIsUnique(lt, a.rest, b.rest);
    }
  }

  function Size(v: Json): nat {
    match v
    case Array(items) => 1 + SizeOfItems(items)
    case Object(fields) => 1 + SizeOfFields(fields)
    case _ => 1
  }

  function SizeOfItems(items: Items): nat {
    if items.NoItem? then 0 else Size(items.head) + SizeOfItems(items.tail)
  }

  function SizeOfFields(fields: Entries<Json>): nat {
    if fields.NoEntry? then 0 else Size(fields.value) + SizeOfFields(fields.rest)
  }

  function Lookup(fields: Entries<Json>, k: string): (x: Json)
    requires k in Keys(fields)
    ensures Size(x) <= SizeOfFields(fields)
    ensures WellFormedFields(fields) ==> WellFormed(x)
  {
    if fields.key == k then fields.value else Lookup(fields.rest, k)
  }

  lemma {:induction false} MeaningAt(fields: Entries<Json>, k: string)
    requires k in Keys(fields)
    ensures k in MeaningOfFields(fields) && MeaningOfFields(fields)[k] == Meaning(Lookup(fields, k))
  {
    if fields.key != k { MeaningAt(fields.rest, k); }
  }

  lemma {:induction false} MeaningKeys(fields: Entries<Json>)
    ensures MeaningOfFields(fields).Keys == Keys(fields)
  {
    if fields.Entry? { MeaningKeys(fields.rest); }
  }

  lemma {:induction false} NormalAt(lt: Order, fields: Entries<Json>, k: string)
    requires k in Keys(fields)
    ensures k in ToMap(NormalFields(lt, fields)) && ToMap(NormalFields(lt, fields))[k] == Normal(lt, Lookup(fields, k))
  {
    if fields.key != k { NormalAt(lt, fields.rest, k); }
  }

  lemma {:induction false} NormalKeys(lt: Order, fields: Entries<Json>)
    ensures Keys(NormalFields(lt, fields)) == Keys(fields)
    ensures WellFormedFields(fields) ==> Distinct(NormalFields(lt, fields))
  {
    if fields.Entry? { NormalKeys(lt, fields.rest); }
  }

  lemma {:induction false} SameMeaningSameNormal(lt: Order, a: Json, b: Json)
    requires StrictTotal(lt) && WellFormed(a) && WellFormed(b) && Meaning(a) == Meaning(b)
    ensures Normal(lt, a) == Normal(lt, b)
    decreases Size(a), 1
  {
    match a
    case Array(items) => SameItemsSameNormal(lt, items, b.items);
    case Object(fields) => SameFieldsSameNormal(lt, fields, b.fields);
    case _ =>
  }

  lemma {:induction false} SameItemsSameNormal(lt: Order, a: Items, b: Items)
    requires StrictTotal(lt) && WellFormedItems(a) && WellFormedItems(b) && MeaningOfItems(a) == MeaningOfItems(b)
    ensures NormalItems(lt, a) == NormalItems(lt, b)
    decreases SizeOfItems(a), 2, a
  {
    if a.Item? {
      assert b.Item?;
      assert MeaningOfItems(a)[0] == MeaningOfItems(b)[0] && MeaningOfItems(a)[1..] == MeaningOfItems(b)[1..];
      SameMeaningSameNormal(lt, a.head, b.head);
      SameItemsSameNormal(lt, a.tail, b.tail);
    }
  }

  lemma {:induction false} SameFieldsSameNormal(lt: Order, a: Entries<Json>, b: Entries<Json>)
    requires StrictTotal(lt) && WellFormedFields(a) && WellFormedFields(b) && MeaningOfFields(a) == MeaningOfFields(b)
    ensures Sort(lt, NormalFields(lt, a)) == Sort(lt, NormalFields(lt, b))
    decreases SizeOfFields(a), 2
  {
    MeaningKeys(a);
    MeaningKeys(b);
    NormalKeys(lt, a);
    NormalKeys(lt, b);
    var na, nb := NormalFields(lt, a), NormalFields(lt, b);
    MapKeys(na);
    MapKeys(nb);
    forall k | k in Keys(a) ensures ToMap(na)[k] == ToMap(nb)[k] {
      MeaningAt(a, k);
      MeaningAt(b, k);
      NormalAt(lt, a, k);
      NormalAt(lt, b, k);
      SameMeaningSameNormal(lt, Lookup(a, k), Lookup(b, k));
    }
    assert ToMap(na) == ToMap(nb);
    SortSorts(lt, na);
    SortSorts(lt, nb);
    AscendingIsUnique(lt, Sort(lt, na), Sort(lt, nb));
  }

  // ---------- the theorem ----------

  /** Reading the canonical text back gives the normal form of the value. */
  lemma ParseInvertsStringify(lt: Order, v: Json)
    requires WellFormed(v)
    ensures Parse(Stringify(lt, v)) == Some((Normal(lt, v), "")) && Meaning(Normal(lt, v)) == Meaning(v)
  {
    StringifyIsRawNormal(lt, v);
    NormalKeepsMeaning(lt, v);
    ParseInverts(Normal(lt, v), "");
    assert Raw(Normal(lt, v)) + "" == Raw(Normal(lt, v));
  }

  /** Canonical and injective: the texts are equal if and only if the values are, up to the
      order of object keys at every level. */
  lemma EqualTextsIffEqualValues(lt: Order, a: Json, b: Json)
    requires StrictTotal(lt) && WellFormed(a) && WellFormed(b)
    ensures Stringify(lt, a) == Stringify(lt, b) <==> Meaning(a) == Meaning(b)
  {
    ParseInvertsStringify(lt, a);
    ParseInvertsStringify(lt, b);
    if Meaning(a) == Meaning(b) {
      SameMeaningSameNormal(lt, a, b);
      StringifyIsRawNormal(lt, a);
      StringifyIsRawNormal(lt, b);
    }
  }
}
