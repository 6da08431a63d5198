/**
 * The parsed analyzer response and its normalisation (the body of the exit
 * handler). The response is a sequence of validator records; in every group
 * of every THEME_CHECK record each raw line becomes a `{type, message}`
 * diagnostic, and records of every other kind pass through untouched.
 */
module Results {
  import opened Wrappers
  import opened Classifier
  import opened Messages
  import opened JsStrings

  /** The validator identifiers; any other name the analyzer emits is kept as text. */
  datatype ValidatorKind = ThemeMentor | ThemeCheck | OtherKind(id: string)

  /** A parsed JSON value, used for payloads the normaliser does not look into. */
  datatype Json =
    | JNull
    | JBool(b: bool)
    | JNumber(n: int)
    | JString(s: string)
    | JArray(elems: seq<Json>)
    | JObject(members: seq<(string, Json)>)

  /** A JSON value that is not a string. */
  type NonString = j: Json | !j.JString? witness JNull

  /**
   * One element of a group's `items`: a raw diagnostic line (a JSON string),
   * any other JSON value, or a normalised `{type, message}` object whose
   * `type` is `None` where the source leaves it undefined.
   */
  datatype Item =
    | Line(text: string)
    | Opaque(value: NonString)
    | Diagnostic(severity: Option<Severity>, message: string)

  /** A result group: its `items` and the rest of its members. */
  datatype Group = Group(items: seq<Item>, others: seq<(string, Json)>)

  /** A validator record: `name`, `result` and the rest of its members. */
  datatype Record = Record(name: ValidatorKind, result: seq<Group>, others: seq<(string, Json)>)

  /** Calling `indexOf`/`split` on an item that is not a string throws a TypeError. */
  datatype Fault = ItemNotString

  /**
   * The `{type, message}` object built from one raw line: a diagnostic whose
   * message holds no colon and whose type is undefined exactly when no
   * marker qualifies.
   */
  function Classify(line: string): (r: Item)
    ensures r.Diagnostic? && ':' !in r.message
    ensures r.severity == None <==> forall k :: 0 <= k < |Markers| ==> !Qualifies(line, Markers[k].0)
  {
    Diagnostic(SymbolTypeOf(line), Message(line))
  }

  /** Every item is a raw line. */
  predicate AllLines(items: seq<Item>) {
    forall i :: 0 <= i < |items| ==> items[i].Line?
  }

  /** The items of every group of every THEME_CHECK record are raw lines. */
  predicate WellFormed(records: seq<Record>) {
    forall k, g :: 0 <= k < |records| && records[k].name == ThemeCheck && 0 <= g < |records[k].result| ==>
      AllLines(records[k].result[g].items)
  }

  /** `after` is `before` with only `items` replaced, item by item, by its classification. */
  predicate GroupNormalized(before: Group, after: Group) {
    after.others == before.others &&
    |after.items| == |before.items| &&
    forall i :: 0 <= i < |before.items| ==>
      before.items[i].Line? && after.items[i] == Classify(before.items[i].text)
  }

  /** `after` is what normalisation should make of `before`. */
  predicate RecordNormalized(before: Record, after: Record) {
    if before.name == ThemeCheck then
      after.name == before.name && after.others == before.others &&
      |after.result| == |before.result| &&
      forall g :: 0 <= g < |before.result| ==> GroupNormalized(before.result[g], after.result[g])
    else
      after == before
  }

  /** `resultItem.items.map(...)`: classifies every line, failing at a non-string item. */
  function NormalizeItems(items: seq<Item>): (r: Result<seq<Item>, Fault>)
    ensures r.Success? <==> AllLines(items)
    ensures r.Success? ==> (|r.value| == |items| &&
      forall i :: 0 <= i < |items| ==> r.value[i] == Classify(items[i].text))
    decreases |items|
  {
    if |items| == 0 then Success([])
    else if !items[0].Line? then Failure(ItemNotString)
    else
      match NormalizeItems(items[1..])
      case Failure(e) => Failure(e)
      case Success(rest) => Success([Classify(items[0].text)] + rest)
  }

  /** The callback of `validator.result.map(...)`: only `items` is reassigned. */
  function NormalizeGroup(group: Group): (r: Result<Group, Fault>)
    ensures r.Success? <==> AllLines(group.items)
    ensures r.Success? ==> GroupNormalized(group, r.value)
  {
    match NormalizeItems(group.items)
    case Failure(e) => Failure(e)
    case Success(items) => Success(group.(items := items))
  }

  /** `validator.result.map(...)` over the groups of a THEME_CHECK record. */
  function NormalizeGroups(groups: seq<Group>): (r: Result<seq<Group>, Fault>)
    ensures r.Success? <==> forall g :: 0 <= g < |groups| ==> AllLines(groups[g].items)
    ensures r.Success? ==> (|r.value| == |groups| &&
      forall g :: 0 <= g < |groups| ==> GroupNormalized(groups[g], r.value[g]))
    decreases |groups|
  {
    if |groups| == 0 then Success([])
    else
      match NormalizeGroup(groups[0])
      case Failure(e) => Failure(e)
      case Success(first) =>
        match NormalizeGroups(groups[1..])
        case Failure(e) => Failure(e)
        case Success(rest) => Success([first] + rest)
  }

  /** The callback of the outer `.map`: rewrites THEME_CHECK records only. */
  function NormalizeRecord(record: Record): (r: Result<Record, Fault>)
    ensures r.Success? <==>
      (record.name == ThemeCheck ==> forall g :: 0 <= g < |record.result| ==> AllLines(record.result[g].items))
    ensures r.Success? ==> RecordNormalized(record, r.value)
  {
    if record.name == ThemeCheck then
      match NormalizeGroups(record.result)
      case Failure(e) => Failure(e)
      case Success(groups) => Success(record.(result := groups))
    else
      Success(record)
  }

  /**
   * The normalisation of the parsed response: it succeeds exactly when the
   * response is well formed, and then keeps the number and order of the
   * records, normalising each one.
   */
  function Normalize(records: seq<Record>): (r: Result<seq<Record>, Fault>)
    ensures r.Success? <==> WellFormed(records)
    ensures r.Success? ==> (|r.value| == |records| &&
      forall k :: 0 <= k < |records| ==> RecordNormalized(records[k], r.value[k]))
    decreases |records|
  {
    if |records| == 0 then Success([])
    else
      match NormalizeRecord(records[0])
      case Failure(e) =>
        assert !WellFormed(records) by {
          var g :| 0 <= g < |records[0].result| && !AllLines(records[0].result[g].items);
        }
        Failure(e)
      case Success(first) =>
        match Normalize(records[1..])
        case Failure(e) =>
          assert !WellFormed(records) by {
            var k, g :| 0 <= k < |records[1..]| && records[1..][k].name == ThemeCheck &&
              0 <= g < |records[1..][k].result| && !AllLines(records[1..][k].result[g].items);
            assert records[k + 1] == records[1..][k];
          }
          Failure(e)
        case Success(rest) =>
          assert WellFormed(records) by {
            forall k, g | 0 <= k < |records| && records[k].name == ThemeCheck && 0 <= g < |records[k].result|
              ensures AllLines(records[k].result[g].items)
            {
              if k > 0 { assert records[k] == records[1..][k - 1]; }
            }
          }
          Success([first] + rest)
  }

  /** Records of kinds other than THEME_CHECK come out exactly as they went in. */
  lemma OtherKindsUnchanged(records: seq<Record>, k: nat)
    requires Normalize(records).Success? && k < |records| && records[k].name != ThemeCheck
    ensures Normalize(records).value[k] == records[k]
  {
  }

  /** A response without THEME_CHECK records is returned as it is. */
  lemma {:induction false} NoThemeCheckIsIdentity(records: seq<Record>)
    requires forall k :: 0 <= k < |records| ==> records[k].name != ThemeCheck
    ensures Normalize(records) == Success(records)
  {
    var r := Normalize(records);
    assert r.Success?;
    assert r.value == records by {
      forall k | 0 <= k < |records| ensures r.value[k] == records[k] {}
    }
  }

  /** Normalisation keeps every record's kind, so it filters nothing out by kind. */
  lemma NamesPreserved(records: seq<Record>)
    requires Normalize(records).Success?
    ensures forall k :: 0 <= k < |records| ==> Normalize(records).value[k].name == records[k].name
  {
  }

  /** A THEME_CHECK group whose items are not all lines makes the normalisation fail. */
  lemma NonStringItemFails(records: seq<Record>, k: nat, g: nat, i: nat)
    requires k < |records| && records[k].name == ThemeCheck
    requires g < |records[k].result| && i < |records[k].result[g].items|
    requires !records[k].result[g].items[i].Line?
    ensures Normalize(records) == Failure(ItemNotString)
  {
    assert !AllLines(records[k].result[g].items);
    assert !WellFormed(records);
    var r := Normalize(records);
    assert r.error.ItemNotString?;
  }

  /** The marker and the text of the sample diagnostic line used below. */
  const SampleMarker: string := "tc-required"
  const SampleText: string := " Missing file X"

  /**
   * The line `tc-required: Missing file X` starts with its marker, so it is
   * left unclassified.
   */
  lemma SampleLineUnclassified()
    ensures SymbolTypeOf(SampleMarker + ":" + SampleText) == None
  {
    var line := SampleMarker + ":" + SampleText;
    assert line[..|SampleMarker|] == SampleMarker;
    assert 'w' !in line && 'o' !in line by {
      assert 'w' !in SampleMarker && 'o' !in SampleMarker;
      assert 'w' !in SampleText && 'o' !in SampleText;
    }
    AbsentCharNotFound(line, "tc-warning", 'w');
    AbsentCharNotFound(line, "tc-info", 'o');
    AbsentCharNotFound(line, "tc-recommended", 'o');
  }

  /** Normalising a one-line THEME_CHECK response: no severity, and the message keeps the space after the colon. */
  lemma SampleLineNormalized()
    ensures Normalize([Record(ThemeCheck, [Group([Line(SampleMarker + ":" + SampleText)], [])], [])])
         == Success([Record(ThemeCheck, [Group([Diagnostic(None, SampleText)], [])], [])])
  {
    var line := SampleMarker + ":" + SampleText;
    SampleLineUnclassified();
    MessageOfTwoFieldLine(SampleMarker, SampleText);
    var input := [Record(ThemeCheck, [Group([Line(line)], [])], [])];
    assert WellFormed(input);
    var out := Normalize(input).value;
    assert RecordNormalized(input[0], out[0]);
    assert GroupNormalized(input[0].result[0], out[0].result[0]);
    assert out[0].result[0].items == [Diagnostic(None, SampleText)];
    assert out[0].result == [Group([Diagnostic(None, SampleText)], [])];
    assert out == [Record(ThemeCheck, [Group([Diagnostic(None, SampleText)], [])], [])];
  }
}
