/**
 What a provider's issue entry says, read off the JSON itself (scripts/lifecycle/extract.ts): which values are an
 identifier, a date, an order or a text, and which entry is refused for what.
 */
module IssueMeaning {
  import opened Prelude
  import opened JsonValues
  import opened IssueExtraction
  import opened Checklist
  import CN = CanonicalNumeric

  /** A non-empty string, or an object whose `code` is one or a number; never trimmed. */
  predicate Identifies(v: Json, s: string) {
    || (v == Str(s) && s != "")
    || (v.Obj? && (Get(v, "code") == Str(s) && s != ""))
    || (v.Obj? && Get(v, "code") == Num(s))
  }

  /** A string with something in it, trimmed; or a number as it prints. */
  predicate Tells(v: Json, s: string) { (v.Str? && !IsBlank(v.text) && s == CN.Trim(v.text)) || v == Num(s) }

  /** Nothing for an absent or null date, and the whole string for a string. */
  predicate Dates(v: Json, d: Option<string>) { ((v.Undefined? || v.Null?) && d.None?) || (v.Str? && d == Some(v.text)) }

  predicate Spells(t: string, n: int) {
    || (t != "" && CN.AllDigits(t) && n == CN.IntValue(t))
    || (|t| > 1 && t[0] == '-' && CN.AllDigits(t[1..]) && n + CN.IntValue(t[1..]) == 0)
  }

  /** A whole number, or a string that spells one. */
  predicate Orders(v: Json, n: int) { (v.Num? && Spells(v.token, n)) || (v.Str? && Spells(CN.Trim(v.text), n)) }

  /** `entry[a] ?? entry[b]` */
  function Either(entry: Json, a: string, b: string): Json {
    if Get(entry, a).Undefined? || Get(entry, a).Null? then Get(entry, b) else Get(entry, a)
  }

  lemma CodeMeaning(v: Json)
    ensures forall s :: Identifies(v, s) <==> ProviderCode(v) == Some(s)
  {
    hide Get;
  }

  lemma TextMeaning(v: Json)
    ensures forall s :: Tells(v, s) <==> AsString(v) == Some(s)
  {
    hide IsBlank;
  }

  lemma DateMeaning(v: Json)
    ensures forall d :: Dates(v, d) <==> ProviderDateRaw(v) == Ok(d)
  {
  }

  lemma SpellsMeaning(t: string)
    ensures forall n :: Spells(t, n) <==> IntegerText(t) == Some(n)
  {
    hide CN.IntValue;
    assert t != "" && t[0] == '-' ==> !CN.AllDigits(t);
  }

  lemma OrderMeaning(v: Json)
    ensures forall n :: Orders(v, n) <==> AsInteger(v) == Some(n)
  {
    hide Spells, IntegerText;
    if v.Num? { SpellsMeaning(v.token); }
    if v.Str? { SpellsMeaning(CN.Trim(v.text)); }
  }

  /** Which check of an entry comes first. */
  ghost function EntryChecks(entry: Json): seq<Check<FailureReason>> {
    [Check(UnreadableIssueEntry, entry.Obj? || entry.Arr?),
     Check(UnreadableIssueCode, exists s :: Identifies(Either(entry, "issueCode", "code"), s)),
     Check(UnreadableIssueType, exists s :: Identifies(Either(entry, "issueType", "type"), s)),
     Check(UnreadableIssueDateFrom, exists d :: Dates(Get(entry, "dateFrom"), d)),
     Check(UnreadableIssueDateTo, exists d :: Dates(Get(entry, "dateTo"), d))]
  }

  /** The row says what the entry says, column by column. */
  ghost predicate Restates(i: Issue, entry: Json) {
    && Identifies(Either(entry, "issueCode", "code"), i.issueCode)
    && Identifies(Either(entry, "issueType", "type"), i.issueType)
    && Dates(Get(entry, "dateFrom"), i.dateFromRaw) && Dates(Get(entry, "dateTo"), i.dateToRaw)
    && (forall n :: i.providerOrder == Some(n) <==> Orders(Get(entry, "order"), n))
    && (forall b :: i.alternative == Some(b) <==> Get(entry, "alternative") == Bool(b))
    && (forall s :: i.description == Some(s) <==> Tells(Get(entry, "description"), s))
  }

  /** An entry becomes the row that restates it, or is refused for the first check it breaks, quoting its order if it has one. */
  lemma ReadIssueMeaning(entry: Json)
    ensures ReadIssue(entry).Ok? <==> AllHold(EntryChecks(entry))
    ensures ReadIssue(entry).Ok? ==> Restates(ReadIssue(entry).value, entry)
    ensures ReadIssue(entry).Err? ==> FirstBroken(EntryChecks(entry), ReadIssue(entry).error.0)
    ensures ReadIssue(entry).Err? ==> forall n ::
      ReadIssue(entry).error.1 == Some(n) <==> (entry.Obj? || entry.Arr?) && Orders(Get(entry, "order"), n)
  {
    hide Get, ProviderCode, AsString, AsInteger, ProviderDateRaw, Identifies, Tells, Dates, Orders;
    CodeMeaning(Either(entry, "issueCode", "code"));
    CodeMeaning(Either(entry, "issueType", "type"));
    DateMeaning(Get(entry, "dateFrom"));
    DateMeaning(Get(entry, "dateTo"));
    OrderMeaning(Get(entry, "order"));
    TextMeaning(Get(entry, "description"));
    EntryFacts(entry);
    var checks, r := EntryChecks(entry), ReadIssue(entry);
    if !checks[0].holds {
      assert BreaksAt(checks, 0);
    } else if !checks[1].holds {
      assert BreaksAt(checks, 1);
    } else if !checks[2].holds {
      assert BreaksAt(checks, 2);
    } else if !checks[3].holds {
      assert BreaksAt(checks, 3);
    } else if !checks[4].holds {
      assert BreaksAt(checks, 4);
    }
  }

  lemma EntryFacts(entry: Json)
    ensures var checks := EntryChecks(entry);
      && (checks[1].holds <==> ProviderCode(Either(entry, "issueCode", "code")).Some?)
      && (checks[2].holds <==> ProviderCode(Either(entry, "issueType", "type")).Some?)
      && (checks[3].holds <==> ProviderDateRaw(Get(entry, "dateFrom")).Ok?)
      && (checks[4].holds <==> ProviderDateRaw(Get(entry, "dateTo")).Ok?)
  {
    hide Get, ProviderCode, ProviderDateRaw, Identifies, Dates, Either;
    CodeMeaning(Either(entry, "issueCode", "code"));
    CodeMeaning(Either(entry, "issueType", "type"));
    DateMeaning(Get(entry, "dateFrom"));
    DateMeaning(Get(entry, "dateTo"));
    SomeCode(Either(entry, "issueCode", "code"));
    SomeCode(Either(entry, "issueType", "type"));
    SomeDate(Get(entry, "dateFrom"));
    SomeDate(Get(entry, "dateTo"));
  }

  lemma SomeCode(v: Json)
    ensures (exists s :: Identifies(v, s)) <==> ProviderCode(v).Some?
  {
    CodeMeaning(v);
    hide ProviderCode, Identifies;
    if ProviderCode(v).Some? {
      assert Identifies(v, ProviderCode(v).value);
    }
  }

  lemma SomeDate(v: Json)
    ensures (exists d :: Dates(v, d)) <==> ProviderDateRaw(v).Ok?
  {
    DateMeaning(v);
    hide ProviderDateRaw, Dates;
    if ProviderDateRaw(v).Ok? {
      assert Dates(v, ProviderDateRaw(v).value);
    }
  }

  /** Every issue a record lists, and none when it lists no issues at all. */
  function Listed(raw: Json): seq<Json> {
    match Get(raw, "issues")
    case Arr(items) => items
    case _ => []
  }

  /** A record is readable exactly when it is an object with an id, an issue list or none, and no entry breaks a check. */
  lemma ReadableMeaning(raw: Json)
    ensures Readable(raw) <==>
      && (raw.Obj? || raw.Arr?) && (exists id :: Tells(Get(raw, "code"), id))
      && (Get(raw, "issues").Undefined? || Get(raw, "issues").Arr?)
      && forall e | e in Listed(raw) :: AllHold(EntryChecks(e))
  {
    hide Get, AsString, Tells, ReadIssue, EntryChecks;
    TextMeaning(Get(raw, "code"));
    if AsString(Get(raw, "code")).Some? {
      assert Tells(Get(raw, "code"), AsString(Get(raw, "code")).value);
    }
    assert Entries(raw) == Listed(raw);
    forall e | e in Listed(raw) ensures ReadIssue(e).Ok? <==> AllHold(EntryChecks(e)) {
      ReadIssueMeaning(e);
    }
  }

  /** Which check of the record itself comes first. */
  ghost function RecordChecks(raw: Json): seq<Check<FailureReason>> {
    [Check(UnreadableRecord, raw.Obj? || raw.Arr?),
     Check(MissingSourcePropertyId, exists id :: Tells(Get(raw, "code"), id)),
     Check(IssuesNotAnArray, Get(raw, "issues").Undefined? || Get(raw, "issues").Arr?)]
  }

  lemma SomeText(v: Json)
    ensures (exists s :: Tells(v, s)) <==> AsString(v).Some?
  {
    TextMeaning(v);
    hide AsString, Tells;
    if AsString(v).Some? {
      assert Tells(v, AsString(v).value);
    }
  }

  /**
   A record's failure names the first thing wrong with it: the record's own first broken check, or, every record
   check holding, the first listed entry that breaks one, at its index and for its own first reason.
   */
  lemma FailureMeaning(f: Failure, raw: Json)
    requires Describes(f, raw)
    ensures f.issueIndex.None? ==> FirstBroken(RecordChecks(raw), f.reason) && f.providerOrder.None?
    ensures f.issueIndex.Some? ==>
      && AllHold(RecordChecks(raw)) && f.issueIndex.value < |Listed(raw)|
      && FirstBroken(EntryChecks(Listed(raw)[f.issueIndex.value]), f.reason)
      && forall j | 0 <= j < f.issueIndex.value :: AllHold(EntryChecks(Listed(raw)[j]))
    ensures raw.Obj? || raw.Arr? ==> forall id :: f.sourcePropertyId == Some(id) <==> Tells(Get(raw, "code"), id)
  {
    hide Get, AsString, Tells, ReadIssue, EntryChecks;
    TextMeaning(Get(raw, "code"));
    SomeText(Get(raw, "code"));
    assert Entries(raw) == Listed(raw);
    var checks := RecordChecks(raw);
    if f.issueIndex.None? {
      var k := if !checks[0].holds then 0 else if !checks[1].holds then 1 else 2;
      assert BreaksAt(checks, k);
    } else {
      var i := f.issueIndex.value;
      forall j | 0 <= j <= i
        ensures ReadIssue(Listed(raw)[j]).Ok? <==> AllHold(EntryChecks(Listed(raw)[j]))
        ensures ReadIssue(Listed(raw)[j]).Err? ==> FirstBroken(EntryChecks(Listed(raw)[j]), ReadIssue(Listed(raw)[j]).error.0)
      {
        ReadIssueMeaning(Listed(raw)[j]);
      }
      ListedOnlyByObjects(raw);
    }
  }

  lemma ListedOnlyByObjects(raw: Json)
    ensures Listed(raw) != [] ==> raw.Obj? && Get(raw, "issues").Arr?
  {
  }
}
