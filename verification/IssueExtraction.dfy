/**
 Issue extraction (scripts/lifecycle/extract.ts): a record yields either a complete snapshot, one row
 per provider entry, or a failure naming the first entry that could not be read.
 */
module IssueExtraction {
  import opened Prelude
  import opened Sequences
  import opened JsonValues
  import CJ = CanonicalJson
  import CN = CanonicalNumeric
  import JP = JsonParser

  datatype Issue = Issue(
    issueCode: string, issueType: string, dateFromRaw: Option<string>, dateToRaw: Option<string>,
    providerOrder: Option<int>, alternative: Option<bool>, description: Option<string>)

  /** The digest names the whole record: see `DigestValue`. */
  datatype Snapshot = Snapshot(
    sourcePropertyId: string, sourceRunId: Id, providerIssueCount: nat, wholeRecordPayloadDigest: string, issues: seq<Issue>)

  datatype FailureReason =
    | UnreadableRecord
    | MissingSourcePropertyId
    | IssuesNotAnArray
    | UnreadableIssueEntry
    | UnreadableIssueCode
    | UnreadableIssueType
    | UnreadableIssueDateFrom
    | UnreadableIssueDateTo

  datatype Failure = Failure(
    sourcePropertyId: Option<string>, reason: FailureReason, issueIndex: Option<nat>, providerOrder: Option<int>)

  /** digestValue: a hash over the canonical text, taken to be as distinct as the text it hashes. */
  function DigestValue(v: Json): string { CJ.CanonicalText(v) }

  /** Two records carry one digest exactly when they are equal up to object key order. */
  lemma DigestForgetsKeyOrder(a: Json, b: Json)
    requires CJ.WellFormed(a) && CJ.WellFormed(b)
    ensures DigestValue(a) == DigestValue(b) <==> CJ.Same(a, b)
  {
    JP.EqualTextIffSame(a, b);
  }

  function AsString(v: Json): Option<string> {
    match v
    case Str(s) => if IsBlank(s) then None else Some(CN.Trim(s))
    case Num(token) => Some(token)
    case _ => None
  }

  /** Absent, a string kept whole, or unreadable. */
  function ProviderDateRaw(v: Json): Result<Option<string>, ()> {
    match v
    case Undefined => Ok(None)
    case Null => Ok(None)
    case Str(s) => Ok(Some(s))
    case _ => Err(())
  }

  function AsBoolean(v: Json): Option<bool> { if v.Bool? then Some(v.flag) else None }

  /** /^-?\d+$/ and its value. */
  function IntegerText(t: string): Option<int> {
    var digits := if CN.Negative(t) then t[1..] else t;
    if digits != [] && CN.AllDigits(digits) then
      var magnitude: int := CN.IntValue(digits);
      Some(if CN.Negative(t) then -magnitude else magnitude)
    else None
  }

  function AsInteger(v: Json): Option<int> {
    match v
    case Num(token) => IntegerText(token)
    case Str(s) => IntegerText(CN.Trim(s))
    case _ => None
  }

  /** A bare string or a `{ code }` object; an identifier, never trimmed. */
  function ProviderCode(v: Json): Option<string> {
    match v
    case Str(s) => if s == "" then None else Some(s)
    case Obj(_) =>
      (match Get(v, "code")
       case Str(s) => if s == "" then None else Some(s)
       case Num(token) => Some(token)
       case _ => None)
    case _ => None
  }

  /** One entry: a complete row, or why not. */
  function ReadIssue(entry: Json): Result<Issue, (FailureReason, Option<int>)> {
    if !IsObject(entry) then Err((UnreadableIssueEntry, None))
    else
      var order := AsInteger(Get(entry, "order"));
      var code := ProviderCode(OrElse(Get(entry, "issueCode"), Get(entry, "code")));
      var kind := ProviderCode(OrElse(Get(entry, "issueType"), Get(entry, "type")));
      var from := ProviderDateRaw(Get(entry, "dateFrom"));
      var to := ProviderDateRaw(Get(entry, "dateTo"));
      if code.None? then Err((UnreadableIssueCode, order))
      else if kind.None? then Err((UnreadableIssueType, order))
      else if from.Err? then Err((UnreadableIssueDateFrom, order))
      else if to.Err? then Err((UnreadableIssueDateTo, order))
      else Ok(Issue(code.value, kind.value, from.value, to.value, order,
                    AsBoolean(Get(entry, "alternative")), AsString(Get(entry, "description"))))
  }

  /** A string code is an identifier and a string date is evidence: both are kept byte for byte, in their own columns. */
  lemma ReadIssueIsVerbatim(entry: Json, code: string, kind: string, from: string, to: string)
    requires entry.Obj? && code != "" && kind != ""
    requires Get(entry, "issueCode") == Str(code) && Get(entry, "issueType") == Str(kind)
    requires Get(entry, "dateFrom") == Str(from) && Get(entry, "dateTo") == Str(to)
    ensures ReadIssue(entry).Ok?
    ensures var i := ReadIssue(entry).value;
      i.issueCode == code && i.issueType == kind && i.dateFromRaw == Some(from) && i.dateToRaw == Some(to)
  {
    hide Get, AsInteger, AsString;
  }

  predicate Readable(raw: Json) {
    && IsObject(raw) && AsString(Get(raw, "code")).Some?
    && (Get(raw, "issues").Undefined? || Get(raw, "issues").Arr?)
    && forall e | e in Entries(raw) :: ReadIssue(e).Ok?
  }

  function Entries(raw: Json): seq<Json> { if Get(raw, "issues").Arr? then Get(raw, "issues").items else [] }

  /** The failure is this record's: its first unreadable entry, or the record's own defect when none was reached. */
  predicate Describes(f: Failure, raw: Json) {
    match f.issueIndex
    case Some(i) =>
      && f.sourcePropertyId == AsString(Get(raw, "code")) && f.sourcePropertyId.Some?
      && i < |Entries(raw)| && ReadIssue(Entries(raw)[i]) == Err((f.reason, f.providerOrder))
      && forall j | 0 <= j < i :: ReadIssue(Entries(raw)[j]).Ok?
    case None =>
      && !(IsObject(raw) && AsString(Get(raw, "code")).Some? && (Get(raw, "issues").Undefined? || Get(raw, "issues").Arr?))
      && f == Failure(if IsObject(raw) then AsString(Get(raw, "code")) else None,
                      if !IsObject(raw) then UnreadableRecord
                      else if AsString(Get(raw, "code")).None? then MissingSourcePropertyId else IssuesNotAnArray,
                      None, None)
  }

  /** All or nothing: a snapshot exists iff every entry is readable, and then there is one row per entry. */
  method ExtractIssuesFromRecord(raw: Json, sourceRunId: Id) returns (r: Result<Snapshot, Failure>)
    ensures r.Ok? <==> Readable(raw)
    ensures r.Ok? ==> SnapshotOf(r.value, raw, sourceRunId)
    ensures r.Err? ==> Describes(r.error, raw)
  {
    hide AsString, AsInteger, ProviderCode, ProviderDateRaw, Get;
    if !IsObject(raw) {
      return Err(Failure(None, UnreadableRecord, None, None));
    }
    var sourcePropertyId := AsString(Get(raw, "code"));
    if sourcePropertyId.None? {
      return Err(Failure(None, MissingSourcePropertyId, None, None));
    }
    var rawIssues := Get(raw, "issues");
    if !rawIssues.Undefined? && !rawIssues.Arr? {
      return Err(Failure(sourcePropertyId, IssuesNotAnArray, None, None));
    }
    var list := if rawIssues.Arr? then rawIssues.items else [];
    var issues: seq<Issue> := [];
    for index := 0 to |list|
      invariant |issues| == index
      invariant forall i | 0 <= i < index :: ReadIssue(list[i]) == Ok(issues[i])
    {
      var entry := list[index];
      assert entry in list && entry in Entries(raw);
      if !IsObject(entry) {
        return Err(Failure(sourcePropertyId, UnreadableIssueEntry, Some(index), None));
      }
      var order := AsInteger(Get(entry, "order"));
      var issueCode := ProviderCode(OrElse(Get(entry, "issueCode"), Get(entry, "code")));
      if issueCode.None? {
        return Err(Failure(sourcePropertyId, UnreadableIssueCode, Some(index), order));
      }
      var issueType := ProviderCode(OrElse(Get(entry, "issueType"), Get(entry, "type")));
      if issueType.None? {
        return Err(Failure(sourcePropertyId, UnreadableIssueType, Some(index), order));
      }
      var dateFrom := ProviderDateRaw(Get(entry, "dateFrom"));
      if dateFrom.Err? {
        return Err(Failure(sourcePropertyId, UnreadableIssueDateFrom, Some(index), order));
      }
      var dateTo := ProviderDateRaw(Get(entry, "dateTo"));
      if dateTo.Err? {
        return Err(Failure(sourcePropertyId, UnreadableIssueDateTo, Some(index), order));
      }
      issues := issues + [Issue(issueCode.value, issueType.value, dateFrom.value, dateTo.value, order,
                                AsBoolean(Get(entry, "alternative")), AsString(Get(entry, "description")))];
    }
    return Ok(Snapshot(sourcePropertyId.value, sourceRunId, |list|, DigestValue(raw), issues));
  }

  /** Repeated provider ids within one artifact: the first complete record stands. */
  method ExtractDestinationIssues(payloads: seq<Json>, sourceRunId: Id) returns (snapshots: seq<Snapshot>, failures: seq<Failure>)
    ensures forall i, j | 0 <= i < j < |snapshots| :: snapshots[i].sourcePropertyId != snapshots[j].sourcePropertyId
    ensures forall s | s in snapshots :: s.providerIssueCount == |s.issues|
    ensures forall k | 0 <= k < |payloads| && Readable(payloads[k]) ::
              exists s | s in snapshots :: Some(s.sourcePropertyId) == AsString(Get(payloads[k], "code"))
    ensures forall s | s in snapshots :: FirstComplete(payloads, sourceRunId, s)
    ensures |failures| == |Unreadable(payloads)|
    ensures forall n | 0 <= n < |failures| :: Describes(failures[n], Unreadable(payloads)[n])
  {
    hide AsString, Get, Readable, Describes, Unreadable, DigestValue;
    assert Unreadable(payloads[..0]) == [] by { NoneUnreadable(payloads); }
    snapshots, failures := [], [];
    var seen: set<string> := {};
    for n := 0 to |payloads|
      invariant forall i, j | 0 <= i < j < |snapshots| :: snapshots[i].sourcePropertyId != snapshots[j].sourcePropertyId
      invariant forall s | s in snapshots :: s.providerIssueCount == |s.issues| && s.sourcePropertyId in seen
      invariant forall id | id in seen :: exists s | s in snapshots :: s.sourcePropertyId == id
      invariant forall k | 0 <= k < n && Readable(payloads[k]) ::
                  AsString(Get(payloads[k], "code")).Some? && AsString(Get(payloads[k], "code")).value in seen
      invariant forall s | s in snapshots :: FirstComplete(payloads[..n], sourceRunId, s)
      invariant |failures| == |Unreadable(payloads[..n])|
      invariant forall k | 0 <= k < |failures| :: Describes(failures[k], Unreadable(payloads[..n])[k])
    {
      UnreadableStep(payloads, n);
      forall s | s in snapshots ensures FirstComplete(payloads[..n + 1], sourceRunId, s) {
        StillFirst(payloads, n, sourceRunId, s);
      }
      var r := ExtractIssuesFromRecord(payloads[n], sourceRunId);
      if r.Err? {
        failures := failures + [r.error];
      } else if r.value.sourcePropertyId !in seen {
        seen := seen + {r.value.sourcePropertyId};
        BecomesFirst(payloads, n, sourceRunId, r.value);
        snapshots := snapshots + [r.value];
      }
    }
    assert payloads[..|payloads|] == payloads;
  }

  /** The snapshot is this record's, whole: its id, its run, its digest and a row for every entry. */
  predicate SnapshotOf(s: Snapshot, raw: Json, sourceRunId: Id) {
    && Some(s.sourcePropertyId) == AsString(Get(raw, "code")) && s.sourceRunId == sourceRunId
    && s.wholeRecordPayloadDigest == DigestValue(raw) && s.providerIssueCount == |s.issues| == |Entries(raw)|
    && forall i | 0 <= i < |Entries(raw)| :: ReadIssue(Entries(raw)[i]) == Ok(s.issues[i])
  }

  /** The snapshot is the first readable record's that carries its provider id. */
  predicate FirstComplete(payloads: seq<Json>, sourceRunId: Id, s: Snapshot) {
    exists k | 0 <= k < |payloads| ::
      && Readable(payloads[k]) && SnapshotOf(s, payloads[k], sourceRunId)
      && forall j | 0 <= j < k && Readable(payloads[j]) :: AsString(Get(payloads[j], "code")) != Some(s.sourcePropertyId)
  }

  lemma StillFirst(payloads: seq<Json>, n: nat, sourceRunId: Id, s: Snapshot)
    requires n < |payloads| && FirstComplete(payloads[..n], sourceRunId, s)
    ensures FirstComplete(payloads[..n + 1], sourceRunId, s)
  {
    hide AsString, Get, Readable, SnapshotOf;
    var p, q := payloads[..n], payloads[..n + 1];
    var k :| 0 <= k < |p| && Readable(p[k]) && SnapshotOf(s, p[k], sourceRunId)
      && forall j | 0 <= j < k && Readable(p[j]) :: AsString(Get(p[j], "code")) != Some(s.sourcePropertyId);
    assert q[k] == p[k] && forall j | 0 <= j < k :: q[j] == p[j];
  }

  lemma BecomesFirst(payloads: seq<Json>, n: nat, sourceRunId: Id, s: Snapshot)
    requires n < |payloads| && Readable(payloads[n]) && SnapshotOf(s, payloads[n], sourceRunId)
    requires forall k | 0 <= k < n && Readable(payloads[k]) :: AsString(Get(payloads[k], "code")) != Some(s.sourcePropertyId)
    ensures FirstComplete(payloads[..n + 1], sourceRunId, s)
  {
    hide AsString, Get, Readable, SnapshotOf;
    var q := payloads[..n + 1];
    assert q[n] == payloads[n] && forall j | 0 <= j < n :: q[j] == payloads[j];
  }

  function Unreadable(payloads: seq<Json>): seq<Json> { Filter((raw: Json) => !Readable(raw), payloads) }

  lemma NoneUnreadable(payloads: seq<Json>)
    ensures Unreadable(payloads[..0]) == []
  {
  }

  lemma UnreadableStep(payloads: seq<Json>, n: nat)
    requires n < |payloads|
    ensures Unreadable(payloads[..n + 1])
         == Unreadable(payloads[..n]) + if Readable(payloads[n]) then [] else [payloads[n]]
  {
    hide Readable;
    assert payloads[..n + 1] == payloads[..n] + [payloads[n]];
    FilterAppend((raw: Json) => !Readable(raw), payloads[..n], [payloads[n]]);
    assert [payloads[n]][1..] == [];
  }
}
