/**
 A parser that inverts the canonical text, and with it the law the digests rest on: canonical texts are
 equal exactly when the values are equal up to object key order.
 */
module JsonParser {
  import opened Prelude
  import opened JsonValues
  import opened CanonicalJson
  import T = Text

  // ---- Strings (section 7 of RFC 8259). ----

  function HexValue(c: char): (n: Option<nat>)
    ensures n.Some? ==> n.value < 16
  {
    if '0' <= c <= '9' then Some(c as int - '0' as int)
    else if 'a' <= c <= 'f' then Some(c as int - 'a' as int + 10)
    else None
  }

  /** The character an escape stands for, and the text after it; `s` starts after the backslash. */
  function Unescape(s: string): (r: Option<(char, string)>)
    ensures r.Some? ==> |r.value.1| < |s|
  {
    if s == "" then None
    else if s[0] == '"' then Some(('"', s[1..]))
    else if s[0] == '\\' then Some(('\\', s[1..]))
    else if s[0] == 'b' then Some(('\U{0008}', s[1..]))
    else if s[0] == 't' then Some(('\U{0009}', s[1..]))
    else if s[0] == 'n' then Some(('\U{000a}', s[1..]))
    else if s[0] == 'f' then Some(('\U{000c}', s[1..]))
    else if s[0] == 'r' then Some(('\U{000d}', s[1..]))
    else if s[0] == 'u' && |s| >= 5 && s[1] == '0' && s[2] == '0' && HexValue(s[3]).Some? && HexValue(s[4]).Some? then
      Some(((HexValue(s[3]).value * 16 + HexValue(s[4]).value) as char, s[5..]))
    else None
  }

  /** The rest of a string literal, after its opening quote. */
  function ParseChars(s: string): (r: Option<(string, string)>)
    ensures r.Some? ==> |r.value.1| < |s|
    decreases |s|
  {
    if s == "" then None
    else if s[0] == '"' then Some(("", s[1..]))
    else if s[0] == '\\' then
      match Unescape(s[1..])
      case None => None
      case Some((c, rest)) =>
        (match ParseChars(rest)
         case None => None
         case Some((t, after)) => Some(([c] + t, after)))
    else if s[0] < ' ' then None
    else
      match ParseChars(s[1..])
      case None => None
      case Some((t, after)) => Some(([s[0]] + t, after))
  }

  lemma HexReads(n: nat)
    requires n < 16
    ensures HexValue(Hex(n)) == Some(n)
  {
  }

  lemma UnescapeReads(c: char, rest: string)
    requires |EscapeChar(c)| > 1
    ensures EscapeChar(c)[0] == '\\' && Unescape(EscapeChar(c)[1..] + rest) == Some((c, rest))
  {
    var e := EscapeChar(c)[1..];
    var s := e + rest;
    if |e| == 1 {
      assert s[1..] == rest;
    } else {
      HexReads(c as int / 16);
      HexReads(c as int % 16);
      assert s[5..] == rest;
    }
  }

  lemma {:induction false} ParseCharsReads(t: string, rest: string)
    ensures ParseChars(Escape(t) + "\"" + rest) == Some((t, rest))
  {
    hide Unescape, EscapeChar;
    if t == "" {
      assert (Escape(t) + "\"" + rest)[1..] == rest;
    } else {
      ParseCharsReads(t[1..], rest);
      var tail := Escape(t[1..]) + "\"" + rest;
      assert Escape(t) + "\"" + rest == EscapeChar(t[0]) + tail;
      ReadOneChar(t[0], tail);
      assert [t[0]] + t[1..] == t;
    }
  }

  lemma ReadOneChar(c: char, tail: string)
    requires ParseChars(tail).Some?
    ensures ParseChars(EscapeChar(c) + tail) == Some(([c] + ParseChars(tail).value.0, ParseChars(tail).value.1))
  {
    hide Unescape;
    var s := EscapeChar(c) + tail;
    if |EscapeChar(c)| > 1 {
      UnescapeReads(c, tail);
      assert s[1..] == EscapeChar(c)[1..] + tail;
    } else {
      assert EscapeChar(c) == [c] && s[1..] == tail;
    }
  }

  // ---- Values. ----

  function NumberSpan(s: string): (n: nat)
    ensures n <= |s| && (forall i | 0 <= i < n :: NumChar(s[i])) && (n < |s| ==> !NumChar(s[n]))
  {
    if s == "" || !NumChar(s[0]) then 0 else 1 + NumberSpan(s[1..])
  }

  function ParseValue(s: string): (r: Option<(Json, string)>)
    ensures r.Some? ==> |r.value.1| < |s|
    decreases |s|, 1
  {
    if s == "" then None
    else if "null" <= s then Some((Null, s[4..]))
    else if "true" <= s then Some((Bool(true), s[4..]))
    else if "false" <= s then Some((Bool(false), s[5..]))
    else if s[0] == '"' then
      match ParseChars(s[1..])
      case None => None
      case Some((t, rest)) => Some((Str(t), rest))
    else if s[0] == '[' then
      if "]" <= s[1..] then Some((Arr([]), s[2..]))
      else
        match ParseItems(s[1..])
        case None => None
        case Some((items, rest)) => Some((Arr(items), rest))
    else if s[0] == '{' then
      if "}" <= s[1..] then Some((Obj([]), s[2..]))
      else
        match ParseFields(s[1..])
        case None => None
        case Some((fields, rest)) => Some((Obj(fields), rest))
    else
      var n := NumberSpan(s);
      if n == 0 then None else Some((Num(s[..n]), s[n..]))
  }

  /** One value, then a comma and more, or the closing bracket. */
  function ParseItems(s: string): (r: Option<(seq<Json>, string)>)
    ensures r.Some? ==> |r.value.1| < |s|
    decreases |s|, 2
  {
    match ParseValue(s)
    case None => None
    case Some((v, rest)) =>
      if "]" <= rest then Some(([v], rest[1..]))
      else if "," <= rest then
        (match ParseItems(rest[1..])
         case None => None
         case Some((vs, after)) => Some(([v] + vs, after)))
      else None
  }

  function ParseFields(s: string): (r: Option<(seq<Field>, string)>)
    ensures r.Some? ==> |r.value.1| < |s|
    decreases |s|, 2
  {
    match ParseField(s)
    case None => None
    case Some((f, rest)) =>
      if "}" <= rest then Some(([f], rest[1..]))
      else if "," <= rest then
        (match ParseFields(rest[1..])
         case None => None
         case Some((fs, after)) => Some(([f] + fs, after)))
      else None
  }

  function ParseField(s: string): (r: Option<(Field, string)>)
    ensures r.Some? ==> |r.value.1| < |s|
    decreases |s|, 1
  {
    if !("\"" <= s) then None
    else
      match ParseChars(s[1..])
      case None => None
      case Some((key, rest)) =>
        if !(":" <= rest) then None
        else
          match ParseValue(rest[1..])
          case None => None
          case Some((v, after)) => Some((Field(key, v), after))
  }

  // ---- The parser inverts the printer. ----

  predicate Printable(v: Json)
    decreases v
  {
    match v
    case Undefined => false
    case Num(token) => token != "" && forall i | 0 <= i < |token| :: NumChar(token[i])
    case Arr(items) => forall i | i in items :: Printable(i)
    case Obj(fields) => forall f | f in fields :: Printable(f.value)
    case _ => true
  }

  /** What may follow a value: nothing, or a character no number token continues with. */
  predicate Ends(rest: string) { rest == "" || !NumChar(rest[0]) }

  lemma {:induction false} SpanReads(token: string, rest: string)
    requires (forall i | 0 <= i < |token| :: NumChar(token[i])) && Ends(rest)
    ensures NumberSpan(token + rest) == |token|
  {
    if token == "" {
      assert token + rest == rest;
    } else {
      assert (token + rest)[1..] == token[1..] + rest;
      SpanReads(token[1..], rest);
    }
  }

  lemma PrefixOf(word: string, rest: string)
    ensures word <= word + rest && (word + rest)[|word|..] == rest
  {
  }

  lemma NotAPrefix(word: string, s: string)
    requires word != "" && s != "" && s[0] != word[0]
    ensures !(word <= s)
  {
  }

  lemma NumberReads(token: string, rest: string)
    requires token != "" && (forall i | 0 <= i < |token| :: NumChar(token[i])) && Ends(rest)
    ensures ParseValue(token + rest) == Some((Num(token), rest))
  {
    hide ParseChars, ParseItems, ParseFields;
    var s := token + rest;
    assert s[0] == token[0] && NumChar(s[0]);
    NotAPrefix("null", s);
    NotAPrefix("true", s);
    NotAPrefix("false", s);
    SpanReads(token, rest);
    assert s[..|token|] == token && s[|token|..] == rest;
  }

  lemma StringReads(t: string, rest: string)
    ensures ParseValue(Quote(t) + rest) == Some((Str(t), rest))
  {
    hide ParseItems, ParseFields, NumberSpan, Escape, ParseChars;
    var s := Quote(t) + rest;
    assert s[0] == '"';
    NotAPrefix("null", s);
    NotAPrefix("true", s);
    NotAPrefix("false", s);
    assert s[1..] == Escape(t) + "\"" + rest;
    ParseCharsReads(t, rest);
  }

  lemma WordReads(rest: string)
    ensures ParseValue("null" + rest) == Some((Null, rest))
    ensures ParseValue("true" + rest) == Some((Bool(true), rest))
    ensures ParseValue("false" + rest) == Some((Bool(false), rest))
  {
    hide ParseItems, ParseFields, NumberSpan, ParseChars;
    PrefixOf("null", rest);
    PrefixOf("true", rest);
    PrefixOf("false", rest);
    NotAPrefix("null", "true" + rest);
    NotAPrefix("null", "false" + rest);
    NotAPrefix("true", "false" + rest);
  }

  /** A printed value starts with no closing bracket. */
  lemma FirstChar(v: Json)
    requires Printable(v)
    ensures Print(v) != "" && Print(v)[0] != ']' && Print(v)[0] != '}'
  {
    hide PrintItems, PrintFields, Escape;
  }

  lemma {:induction false} ValueReads(v: Json, rest: string)
    requires Printable(v) && Ends(rest)
    ensures ParseValue(Print(v) + rest) == Some((v, rest))
    decreases v
  {
    hide ParseItems, ParseFields, ParseChars, NumberSpan, Quote, ParseValue;
    match v
    case Null => WordReads(rest);
    case Bool(b) => WordReads(rest);
    case Num(token) => NumberReads(token, rest);
    case Str(t) => StringReads(t, rest);
    case Arr(items) =>
      if items != [] {
        ItemsRead(items, rest);
      }
      ArrayReads(items, rest);
    case Obj(fields) =>
      if fields != [] {
        FieldsRead(fields, rest);
      }
      ObjectReads(fields, rest);
  }

  lemma ArrayReads(items: seq<Json>, rest: string)
    requires items != [] ==> Printable(items[0]) && ParseItems(PrintItems(items) + "]" + rest) == Some((items, rest))
    ensures ParseValue("[" + PrintItems(items) + "]" + rest) == Some((Arr(items), rest))
  {
    hide ParseFields, ParseItems, ParseChars, NumberSpan, Print;
    var s := "[" + PrintItems(items) + "]" + rest;
    assert s[0] == '[';
    NotAPrefix("null", s);
    NotAPrefix("true", s);
    NotAPrefix("false", s);
    assert s[1..] == PrintItems(items) + "]" + rest;
    if items == [] {
      assert s[1..] == "]" + rest && s[2..] == rest;
    } else {
      FirstChar(items[0]);
      assert s[1] == Print(items[0])[0];
      NotAPrefix("]", s[1..]);
    }
  }

  lemma ObjectReads(fields: seq<Field>, rest: string)
    requires fields != [] ==> ParseFields(PrintFields(fields) + "}" + rest) == Some((fields, rest))
    ensures ParseValue("{" + PrintFields(fields) + "}" + rest) == Some((Obj(fields), rest))
  {
    hide ParseFields, ParseItems, ParseChars, NumberSpan, Print, Escape;
    var s := "{" + PrintFields(fields) + "}" + rest;
    assert s[0] == '{';
    NotAPrefix("null", s);
    NotAPrefix("true", s);
    NotAPrefix("false", s);
    assert s[1..] == PrintFields(fields) + "}" + rest;
    if fields == [] {
      assert s[1..] == "}" + rest && s[2..] == rest;
    } else {
      assert s[1] == '"';
      NotAPrefix("}", s[1..]);
    }
  }

  lemma LastItem(text: string, v: Json, rest: string)
    requires ParseValue(text + ("]" + rest)) == Some((v, "]" + rest))
    ensures ParseItems(text + ("]" + rest)) == Some(([v], rest))
  {
    hide ParseValue;
    PrefixOf("]", rest);
  }

  lemma OneMoreItem(text: string, v: Json, more: string, vs: seq<Json>, rest: string)
    requires ParseValue(text + ("," + more)) == Some((v, "," + more)) && ParseItems(more) == Some((vs, rest))
    ensures ParseItems(text + ("," + more)) == Some(([v] + vs, rest))
  {
    hide ParseValue;
    PrefixOf(",", more);
    NotAPrefix("]", "," + more);
  }

  lemma {:induction false} ItemsRead(items: seq<Json>, rest: string)
    requires items != [] && (forall i | i in items :: Printable(i)) && Ends(rest)
    ensures ParseItems(PrintItems(items) + "]" + rest) == Some((items, rest))
    decreases items
  {
    hide ParseItems, Print, ParseValue, Printable;
    var text := Print(items[0]);
    assert items[0] in items;
    if |items| == 1 {
      ValueReads(items[0], "]" + rest);
      LastItem(text, items[0], rest);
      assert PrintItems(items) + "]" + rest == text + ("]" + rest);
      assert [items[0]] == items;
    } else {
      var more := PrintItems(items[1..]) + "]" + rest;
      ValueReads(items[0], "," + more);
      ItemsRead(items[1..], rest);
      OneMoreItem(text, items[0], more, items[1..], rest);
      assert PrintItems(items) + "]" + rest == text + ("," + more);
      assert [items[0]] + items[1..] == items;
    }
  }

  lemma FieldReads(f: Field, rest: string)
    requires ParseValue(Print(f.value) + rest) == Some((f.value, rest))
    ensures ParseField(Quote(f.key) + ":" + Print(f.value) + rest) == Some((f, rest))
  {
    hide ParseFields, ParseItems, ParseChars, NumberSpan, Print, ParseValue, Escape;
    var s := Quote(f.key) + ":" + Print(f.value) + rest;
    var after := ":" + Print(f.value) + rest;
    assert s[1..] == Escape(f.key) + "\"" + after;
    ParseCharsReads(f.key, after);
    assert after[1..] == Print(f.value) + rest;
    assert s[0] == '"';
  }

  lemma LastField(text: string, f: Field, rest: string)
    requires ParseField(text + ("}" + rest)) == Some((f, "}" + rest))
    ensures ParseFields(text + ("}" + rest)) == Some(([f], rest))
  {
    hide ParseField;
    PrefixOf("}", rest);
  }

  lemma OneMoreField(text: string, f: Field, more: string, fs: seq<Field>, rest: string)
    requires ParseField(text + ("," + more)) == Some((f, "," + more)) && ParseFields(more) == Some((fs, rest))
    ensures ParseFields(text + ("," + more)) == Some(([f] + fs, rest))
  {
    hide ParseField;
    PrefixOf(",", more);
    NotAPrefix("}", "," + more);
  }

  lemma FieldsPrint(fields: seq<Field>, rest: string)
    requires fields != []
    ensures var text := Quote(fields[0].key) + ":" + Print(fields[0].value);
            PrintFields(fields) + "}" + rest ==
              text + if |fields| == 1 then "}" + rest else "," + (PrintFields(fields[1..]) + "}" + rest)
  {
    hide Print, Quote;
  }

  lemma {:induction false} FieldsRead(fields: seq<Field>, rest: string)
    requires fields != [] && (forall f | f in fields :: Printable(f.value)) && Ends(rest)
    ensures ParseFields(PrintFields(fields) + "}" + rest) == Some((fields, rest))
    decreases fields
  {
    hide ParseFields, ParseField, Print, PrintFields, ParseValue, Printable, Quote;
    FieldsPrint(fields, rest);
    var f := fields[0];
    var text := Quote(f.key) + ":" + Print(f.value);
    assert f in fields;
    if |fields| == 1 {
      ValueReads(f.value, "}" + rest);
      FieldReads(f, "}" + rest);
      LastField(text, f, rest);
      assert [f] == fields;
    } else {
      var more := PrintFields(fields[1..]) + "}" + rest;
      ValueReads(f.value, "," + more);
      FieldReads(f, "," + more);
      FieldsRead(fields[1..], rest);
      OneMoreField(text, f, more, fields[1..], rest);
      assert [f] + fields[1..] == fields;
    }
  }

  // ---- Canonical values are printable. ----

  lemma {:induction false} CanonIsPrintable(v: Json)
    requires WellFormed(v)
    ensures Printable(Canon(v))
    decreases v
  {
    hide CanonItems, CanonFields, T.SortBy, UniqueKeys;
    match v
    case Arr(items) =>
      forall k | 0 <= k < |items| ensures Printable(Canon(items[k])) {
        CanonIsPrintable(items[k]);
      }
      assert forall i | i in CanonItems(items) :: Printable(i);
    case Obj(fields) =>
      forall f | f in fields ensures Printable(Canon(f.value)) {
        CanonIsPrintable(f.value);
      }
      SortedFieldsPrintable(fields);
    case _ =>
  }

  lemma SortedFieldsPrintable(fields: seq<Field>)
    requires forall f | f in fields :: Printable(Canon(f.value))
    ensures forall c | c in T.SortBy(FieldKey, CanonFields(fields)) :: Printable(c.value)
  {
    hide Canon, Printable;
    var cs := CanonFields(fields);
    CanonFieldsMembers(fields);
    T.SortByContract(FieldKey, cs);
    forall c | c in T.SortBy(FieldKey, cs) ensures Printable(c.value) {
      assert c in multiset(T.SortBy(FieldKey, cs));
      assert c in cs;
    }
  }

  /** Parsing the canonical text gives back the canonical value. */
  lemma ParseInvertsCanonical(v: Json)
    requires WellFormed(v)
    ensures ParseValue(CanonicalText(v)) == Some((Canon(v), ""))
  {
    hide ParseValue, Canon, Print, CanonicalText, WellFormed, Printable;
    CanonicalIsPrintedCanon(v);
    CanonIsPrintable(v);
    ValueReads(Canon(v), "");
    assert Print(Canon(v)) + "" == Print(Canon(v));
  }

  /** Two values serialise equally iff they are equal up to object key order (undefined properties absent). */
  lemma EqualTextIffSame(v: Json, w: Json)
    requires WellFormed(v) && WellFormed(w)
    ensures CanonicalText(v) == CanonicalText(w) <==> Same(v, w)
  {
    hide ParseValue, Canon, Print, CanonicalText, WellFormed, Same;
    ParseInvertsCanonical(v);
    ParseInvertsCanonical(w);
    CanonEqualIffSame(v, w);
    CanonicalIsPrintedCanon(v);
    CanonicalIsPrintedCanon(w);
  }
}
