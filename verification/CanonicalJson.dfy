/**
 Canonical JSON (canonicalJson in scripts/provider-ingestion/digest.ts) and the gate's `stable`
 (scripts/prepublication-preview/evaluate.ts). A number prints as its own token; strings are escaped as in
 section 7 of RFC 8259, the way JSON.stringify does it.
 */
module CanonicalJson {
  import opened Prelude
  import opened Text
  import opened JsonValues

  // ---- JSON.stringify of a string. ----

  function Hex(n: nat): char
    requires n < 16
  {
    if n < 10 then ('0' as int + n) as char else ('a' as int + n - 10) as char
  }

  function EscapeChar(c: char): string {
    if c == '"' then "\\\""
    else if c == '\\' then "\\\\"
    else if c == '\U{0008}' then "\\b"
    else if c == '\U{0009}' then "\\t"
    else if c == '\U{000a}' then "\\n"
    else if c == '\U{000c}' then "\\f"
    else if c == '\U{000d}' then "\\r"
    else if c < ' ' then "\\u00" + [Hex(c as int / 16), Hex(c as int % 16)]
    else [c]
  }

  /** Five controls, the quote and the backslash have a two-character escape, every other control a six-character one. */
  lemma EscapeTable(c: char)
    ensures EscapeChar('"') == ['\\', '"'] && EscapeChar('\\') == ['\\', '\\']
    ensures EscapeChar('\U{0008}') == ['\\', 'b'] && EscapeChar('\U{0009}') == ['\\', 't']
    ensures EscapeChar('\U{000a}') == ['\\', 'n'] && EscapeChar('\U{000c}') == ['\\', 'f']
    ensures EscapeChar('\U{000d}') == ['\\', 'r']
    ensures |EscapeChar(c)| == 1 <==> c >= ' ' && c != '"' && c != '\\'
    ensures |EscapeChar(c)| == 1 ==> EscapeChar(c) == [c]
    ensures |EscapeChar(c)| == 6 <==>
      c < ' ' && c !in {'\U{0008}', '\U{0009}', '\U{000a}', '\U{000c}', '\U{000d}'}
    ensures |EscapeChar(c)| == 6 ==> EscapeChar(c)[..4] == ['\\', 'u', '0', '0']
  {
  }

  function Escape(s: string): string { if s == "" then "" else EscapeChar(s[0]) + Escape(s[1..]) }

  function Quote(s: string): string { "\"" + Escape(s) + "\"" }

  // ---- canonicalJson ----

  function Join(parts: seq<string>): string {
    if parts == [] then "" else if |parts| == 1 then parts[0] else parts[0] + "," + Join(parts[1..])
  }

  datatype Entry = Entry(key: string, text: string)

  const ByKey: Entry -> string := (e: Entry) => e.key

  function Pair(e: Entry): string { Quote(e.key) + ":" + e.text }

  function Pairs(es: seq<Entry>): seq<string> { if es == [] then [] else [Pair(es[0])] + Pairs(es[1..]) }

  /** Keys sorted at every depth; an undefined property is dropped, any other undefined prints as null. */
  function CanonicalText(v: Json): string
    decreases v
  {
    match v
    case Undefined => "null"
    case Null => "null"
    case Bool(b) => if b then "true" else "false"
    case Num(token) => token
    case Str(s) => Quote(s)
    case Arr(items) => "[" + Join(Texts(items)) + "]"
    case Obj(fields) => "{" + Join(Pairs(SortBy(ByKey, Entries(fields)))) + "}"
  }

  function Texts(items: seq<Json>): (ts: seq<string>)
    decreases items
  {
    if items == [] then [] else [CanonicalText(items[0])] + Texts(items[1..])
  }

  /** The entries that are not undefined, each value already canonical; sorting reads the key alone. */
  function Entries(fields: seq<Field>): (es: seq<Entry>)
    decreases fields
  {
    if fields == [] then []
    else (if fields[0].value.Undefined? then [] else [Entry(fields[0].key, CanonicalText(fields[0].value))]) + Entries(fields[1..])
  }

  // ---- stable ----

  /** JSON.stringify(undefined) is undefined: nothing in a joined array, the word itself in a template. */
  function Stable(v: Json): Option<string>
    decreases v
  {
    match v
    case Undefined => None
    case Null => Some("null")
    case Bool(b) => Some(if b then "true" else "false")
    case Num(token) => Some(token)
    case Str(s) => Some(Quote(s))
    case Arr(items) => Some("[" + Join(StableTexts(items)) + "]")
    case Obj(fields) => Some("{" + Join(Pairs(SortBy(ByKey, StableEntries(fields)))) + "}")
  }

  function StableTexts(items: seq<Json>): seq<string>
    decreases items
  {
    if items == [] then [] else [Stable(items[0]).GetOr("")] + StableTexts(items[1..])
  }

  function StableEntries(fields: seq<Field>): seq<Entry>
    decreases fields
  {
    if fields == [] then []
    else [Entry(fields[0].key, Stable(fields[0].value).GetOr("undefined"))] + StableEntries(fields[1..])
  }

  predicate UndefinedFree(v: Json)
    decreases v
  {
    match v
    case Undefined => false
    case Arr(items) => forall i | i in items :: UndefinedFree(i)
    case Obj(fields) => forall f | f in fields :: UndefinedFree(f.value)
    case _ => true
  }

  /** On undefined-free values the gate's serialiser and the digest's give the same text. */
  lemma {:induction false} StableIsCanonical(v: Json)
    requires UndefinedFree(v)
    ensures Stable(v) == Some(CanonicalText(v))
    decreases v
  {
    match v
    case Arr(items) => StableItems(items);
    case Obj(fields) => StableFields(fields);
    case _ =>
  }

  lemma {:induction false} StableItems(items: seq<Json>)
    requires forall i | i in items :: UndefinedFree(i)
    ensures StableTexts(items) == Texts(items)
    decreases items
  {
    if items != [] {
      StableIsCanonical(items[0]);
      StableItems(items[1..]);
    }
  }

  lemma {:induction false} StableFields(fields: seq<Field>)
    requires forall f | f in fields :: UndefinedFree(f.value)
    ensures StableEntries(fields) == Entries(fields)
    decreases fields
  {
    if fields != [] {
      assert fields[0] in fields;
      StableIsCanonical(fields[0].value);
      StableFields(fields[1..]);
    }
  }

  // ---- The canonical value: what the text spells, in the order it spells it. ----

  const FieldKey: Field -> string := (f: Field) => f.key

  function Canon(v: Json): Json
    decreases v
  {
    match v
    case Undefined => Null
    case Arr(items) => Arr(CanonItems(items))
    case Obj(fields) => Obj(SortBy(FieldKey, CanonFields(fields)))
    case _ => v
  }

  function CanonItems(items: seq<Json>): (r: seq<Json>)
    ensures |r| == |items| && forall i | 0 <= i < |items| :: r[i] == Canon(items[i])
    decreases items
  {
    if items == [] then [] else [Canon(items[0])] + CanonItems(items[1..])
  }

  function CanonFields(fields: seq<Field>): seq<Field>
    decreases fields
  {
    if fields == [] then []
    else (if fields[0].value.Undefined? then [] else [Field(fields[0].key, Canon(fields[0].value))]) + CanonFields(fields[1..])
  }

  /** Print a value in the order it has. */
  function Print(v: Json): string
    decreases v
  {
    match v
    case Undefined => "null"
    case Null => "null"
    case Bool(b) => if b then "true" else "false"
    case Num(token) => token
    case Str(s) => Quote(s)
    case Arr(items) => "[" + PrintItems(items) + "]"
    case Obj(fields) => "{" + PrintFields(fields) + "}"
  }

  function PrintItems(items: seq<Json>): string
    decreases items
  {
    if items == [] then "" else if |items| == 1 then Print(items[0]) else Print(items[0]) + "," + PrintItems(items[1..])
  }

  function PrintFields(fields: seq<Field>): string
    decreases fields
  {
    if fields == [] then ""
    else if |fields| == 1 then Quote(fields[0].key) + ":" + Print(fields[0].value)
    else Quote(fields[0].key) + ":" + Print(fields[0].value) + "," + PrintFields(fields[1..])
  }

  function Printed(fields: seq<Field>): (es: seq<Entry>)
    ensures |es| == |fields| && forall i | 0 <= i < |fields| :: es[i] == Entry(fields[i].key, Print(fields[i].value))
  {
    seq(|fields|, i requires 0 <= i < |fields| => Entry(fields[i].key, Print(fields[i].value)))
  }

  lemma {:induction false} CanonicalIsPrintedCanon(v: Json)
    ensures CanonicalText(v) == Print(Canon(v))
    decreases v
  {
    match v
    case Arr(items) =>
      ItemsPrint(items);
    case Obj(fields) =>
      FieldsPrint(fields);
      SortPrinted(CanonFields(fields));
      JoinPrinted(SortBy(FieldKey, CanonFields(fields)));
    case _ =>
  }

  lemma {:induction false} ItemsPrint(items: seq<Json>)
    ensures Join(Texts(items)) == PrintItems(CanonItems(items))
    ensures |Texts(items)| == |items|
    decreases items
  {
    if items != [] {
      CanonicalIsPrintedCanon(items[0]);
      ItemsPrint(items[1..]);
      assert Texts(items)[1..] == Texts(items[1..]);
      assert CanonItems(items)[1..] == CanonItems(items[1..]);
    }
  }

  lemma {:induction false} FieldsPrint(fields: seq<Field>)
    ensures Entries(fields) == Printed(CanonFields(fields))
    decreases fields
  {
    if fields != [] {
      assert fields[0] in fields;
      CanonicalIsPrintedCanon(fields[0].value);
      FieldsPrint(fields[1..]);
    }
  }

  lemma {:induction false} SortPrinted(fields: seq<Field>)
    ensures SortBy(ByKey, Printed(fields)) == Printed(SortBy(FieldKey, fields))
  {
    hide Print;
    if fields != [] {
      SortPrinted(fields[1..]);
      assert Printed(fields)[1..] == Printed(fields[1..]);
      InsertPrinted(fields[0], SortBy(FieldKey, fields[1..]));
    } else {
      assert Printed(fields) == [];
    }
  }

  lemma {:induction false} InsertPrinted(f: Field, sorted: seq<Field>)
    ensures Insert(ByKey, Entry(f.key, Print(f.value)), Printed(sorted)) == Printed(Insert(FieldKey, f, sorted))
  {
    hide Print, Less;
    if sorted == [] || !Less(sorted[0].key, f.key) {
      assert Printed([f] + sorted) == [Entry(f.key, Print(f.value))] + Printed(sorted);
    } else {
      InsertPrinted(f, sorted[1..]);
      assert Printed(sorted)[1..] == Printed(sorted[1..]);
      var rest := Insert(FieldKey, f, sorted[1..]);
      assert Printed([sorted[0]] + rest) == [Entry(sorted[0].key, Print(sorted[0].value))] + Printed(rest);
    }
  }

  lemma {:induction false} JoinPrinted(fields: seq<Field>)
    ensures Join(Pairs(Printed(fields))) == PrintFields(fields)
    ensures |Pairs(Printed(fields))| == |fields|
  {
    hide Quote;
    if fields != [] {
      JoinPrinted(fields[1..]);
      assert Printed(fields)[1..] == Printed(fields[1..]);
      var ps := Pairs(Printed(fields));
      assert ps[1..] == Pairs(Printed(fields[1..]));
    }
  }

  // ---- Equal up to key order. ----

  predicate UniqueKeys(fields: seq<Field>) { forall i, j | 0 <= i < j < |fields| :: fields[i].key != fields[j].key }

  predicate NumChar(c: char) { '0' <= c <= '9' || c == '+' || c == '-' || c == '.' || c == 'e' || c == 'E' }

  /** Every token is made of number characters (section 6 of RFC 8259), and an object has each key once. */
  predicate WellFormed(v: Json)
    decreases v
  {
    match v
    case Num(token) => token != "" && forall i | 0 <= i < |token| :: NumChar(token[i])
    case Arr(items) => forall i | i in items :: WellFormed(i)
    case Obj(fields) => UniqueKeys(fields) && forall f | f in fields :: WellFormed(f.value)
    case _ => true
  }

  lemma {:induction false} GetFieldIs(fields: seq<Field>, key: string)
    ensures GetField(fields, key).Undefined? || Field(key, GetField(fields, key)) in fields
    ensures UniqueKeys(fields) ==> forall f | f in fields && f.key == key :: f.value == GetField(fields, key)
    ensures fields == [] || GetField(fields, key).Undefined? || GetField(fields, key) < Obj(fields)
  {
    if fields != [] && fields[0].key != key {
      GetFieldIs(fields[1..], key);
      assert UniqueKeys(fields) ==> UniqueKeys(fields[1..]);
    } else if fields != [] {
      assert fields[0] in fields;
      forall f | f in fields && f.key == key && UniqueKeys(fields) ensures f == fields[0] {
        var i :| 0 <= i < |fields| && fields[i] == f;
      }
    }
  }

  /** Each property of one side is a property of the other with an equal value, undefined counting as absent. */
  predicate Same(v: Json, w: Json)
    decreases v
  {
    match (v, w)
    case (Arr(xs), Arr(ys)) => |xs| == |ys| && forall i | 0 <= i < |xs| :: Same(xs[i], ys[i])
    case (Obj(fs), Obj(gs)) =>
      && (forall f | f in fs && !f.value.Undefined? :: !GetField(gs, f.key).Undefined? && Same(f.value, GetField(gs, f.key)))
      && (forall g | g in gs && !g.value.Undefined? :: !GetField(fs, g.key).Undefined?)
    case (Undefined, Null) => true
    case (Null, Undefined) => true
    case _ => v == w
  }

  lemma {:induction false} CanonFieldsMembers(fields: seq<Field>)
    ensures forall f | f in fields && !f.value.Undefined? :: Field(f.key, Canon(f.value)) in CanonFields(fields)
    ensures forall c | c in CanonFields(fields) ::
              exists f | f in fields :: !f.value.Undefined? && c == Field(f.key, Canon(f.value))
  {
    hide Canon;
    if fields != [] {
      CanonFieldsMembers(fields[1..]);
    }
  }

  lemma {:induction false} CanonFieldsUnique(fields: seq<Field>)
    requires UniqueKeys(fields)
    ensures UniqueKeys(CanonFields(fields))
  {
    hide Canon;
    if fields != [] {
      assert UniqueKeys(fields[1..]);
      CanonFieldsUnique(fields[1..]);
      CanonFieldsMembers(fields[1..]);
      forall c | c in CanonFields(fields[1..]) ensures c.key != fields[0].key {
        var f :| f in fields[1..] && !f.value.Undefined? && c == Field(f.key, Canon(f.value));
        var i :| 0 <= i < |fields[1..]| && fields[1..][i] == f;
        assert fields[i + 1] == f;
      }
    }
  }

  lemma {:induction false} UniqueCount(fields: seq<Field>, c: Field)
    requires UniqueKeys(fields)
    ensures multiset(fields)[c] == if c in fields then 1 else 0
  {
    if fields != [] {
      assert UniqueKeys(fields[1..]);
      UniqueCount(fields[1..], c);
      assert fields == [fields[0]] + fields[1..];
    }
  }

  /** Sorted lists with unique keys are equal iff they hold the same fields. */
  lemma SortedEqualIffSameFields(a: seq<Field>, b: seq<Field>)
    requires UniqueKeys(a) && UniqueKeys(b)
    ensures SortBy(FieldKey, a) == SortBy(FieldKey, b) <==> forall c :: c in a <==> c in b
  {
    SortByContract(FieldKey, a);
    SortByContract(FieldKey, b);
    assert forall c :: c in a <==> c in multiset(a);
    assert forall c :: c in b <==> c in multiset(b);
    if forall c :: c in a <==> c in b {
      forall c ensures multiset(a)[c] == multiset(b)[c] {
        UniqueCount(a, c);
        UniqueCount(b, c);
      }
      assert multiset(a) == multiset(b);
      assert KeysSeparate(FieldKey, a) by {
        forall i, j | 0 <= i < |a| && 0 <= j < |a| && FieldKey(a[i]) == FieldKey(a[j]) ensures a[i] == a[j] {
        }
      }
      SortForgetsOrder(FieldKey, a, b);
    }
  }

  lemma {:induction false} CanonEqualIffSame(v: Json, w: Json)
    requires WellFormed(v) && WellFormed(w)
    ensures Canon(v) == Canon(w) <==> Same(v, w)
    decreases v
  {
    match (v, w)
    case (Arr(xs), Arr(ys)) =>
      if |xs| == |ys| {
        forall i | 0 <= i < |xs| ensures Canon(xs[i]) == Canon(ys[i]) <==> Same(xs[i], ys[i]) {
          CanonEqualIffSame(xs[i], ys[i]);
        }
        assert CanonItems(xs) == CanonItems(ys) <==> forall i | 0 <= i < |xs| :: Canon(xs[i]) == Canon(ys[i]);
      }
    case (Obj(fs), Obj(gs)) =>
      forall f | f in fs && !f.value.Undefined?
        ensures Canon(f.value) == Canon(GetField(gs, f.key)) <==> Same(f.value, GetField(gs, f.key))
      {
        GetFieldIs(gs, f.key);
        CanonEqualIffSame(f.value, GetField(gs, f.key));
      }
      FieldsEqualIffSame(fs, gs);
    case _ =>
  }

  predicate FieldsMatch(fs: seq<Field>, gs: seq<Field>) {
    && (forall f | f in fs && !f.value.Undefined? :: !GetField(gs, f.key).Undefined? && Canon(f.value) == Canon(GetField(gs, f.key)))
    && (forall g | g in gs && !g.value.Undefined? :: !GetField(fs, g.key).Undefined?)
  }

  lemma FieldsEqualIffSame(fs: seq<Field>, gs: seq<Field>)
    requires UniqueKeys(fs) && UniqueKeys(gs)
    ensures SortBy(FieldKey, CanonFields(fs)) == SortBy(FieldKey, CanonFields(gs)) <==> FieldsMatch(fs, gs)
  {
    hide Canon, SortBy;
    var a, b := CanonFields(fs), CanonFields(gs);
    CanonFieldsUnique(fs);
    CanonFieldsUnique(gs);
    SortedEqualIffSameFields(a, b);
    if forall c :: c in a <==> c in b {
      SameFieldsMatch(fs, gs);
    }
    if FieldsMatch(fs, gs) {
      MatchingFieldsAreSame(fs, gs);
    }
  }

  lemma SameFieldsMatch(fs: seq<Field>, gs: seq<Field>)
    requires UniqueKeys(fs) && UniqueKeys(gs)
    requires forall c :: c in CanonFields(fs) <==> c in CanonFields(gs)
    ensures FieldsMatch(fs, gs)
  {
    hide Canon;
    CanonFieldsMembers(fs);
    CanonFieldsMembers(gs);
    forall f | f in fs && !f.value.Undefined?
      ensures !GetField(gs, f.key).Undefined? && Canon(f.value) == Canon(GetField(gs, f.key))
    {
      assert Field(f.key, Canon(f.value)) in CanonFields(gs);
      GetFieldIs(gs, f.key);
    }
    forall g | g in gs && !g.value.Undefined? ensures !GetField(fs, g.key).Undefined? {
      assert Field(g.key, Canon(g.value)) in CanonFields(fs);
      GetFieldIs(fs, g.key);
    }
  }

  lemma MatchingFieldsAreSame(fs: seq<Field>, gs: seq<Field>)
    requires UniqueKeys(fs) && UniqueKeys(gs) && FieldsMatch(fs, gs)
    ensures forall c :: c in CanonFields(fs) <==> c in CanonFields(gs)
  {
    hide Canon;
    CanonFieldsMembers(fs);
    CanonFieldsMembers(gs);
    forall c | c in CanonFields(fs) ensures c in CanonFields(gs) {
      var f :| f in fs && !f.value.Undefined? && c == Field(f.key, Canon(f.value));
      GetFieldIs(gs, f.key);
    }
    forall c | c in CanonFields(gs) ensures c in CanonFields(fs) {
      var g :| g in gs && !g.value.Undefined? && c == Field(g.key, Canon(g.value));
      GetFieldIs(fs, g.key);
      GetFieldIs(gs, g.key);
      assert Field(g.key, GetField(fs, g.key)) in fs;
    }
  }
}
