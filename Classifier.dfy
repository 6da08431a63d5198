/**
 * Severity classification of one raw diagnostic line (`getSymbolType`).
 * A fixed, ordered table maps four marker tokens to severities; the first
 * marker whose first occurrence in the line lies strictly after position 0
 * decides the severity, and a line no marker qualifies for is unclassified.
 */
module Classifier {
  import opened Wrappers
  import opened JsStrings

  datatype Severity = Error | Warning | Info

  /** The marker table, in the order its keys are enumerated. */
  const Markers: seq<(string, Severity)> :=
    [("tc-required", Error), ("tc-warning", Warning), ("tc-info", Info), ("tc-recommended", Info)]

  /**
   * The source's test `str.indexOf(id) > 0`: it holds exactly when the marker
   * does not occur at position 0 but does occur at some later position.
   */
  predicate Qualifies(line: string, marker: string)
    ensures Qualifies(line, marker) <==>
      !OccursAt(line, marker, 0) && exists i :: 0 < i && OccursAt(line, marker, i)
  {
    assert (exists i :: 0 < i && OccursAt(line, marker, i)) ==> IndexOf(line, marker) != -1 by {
      if exists i :: 0 < i && OccursAt(line, marker, i) {
        var i :| 0 < i && OccursAt(line, marker, i);
      }
    }
    IndexOf(line, marker) > 0
  }

  /** Entry `k` of `table` is the first entry whose marker qualifies for `line`. */
  predicate FirstQualifying(table: seq<(string, Severity)>, line: string, k: int) {
    0 <= k < |table| && Qualifies(line, table[k].0) &&
    forall j :: 0 <= j < k ==> !Qualifies(line, table[j].0)
  }

  /** The severity of the first qualifying entry of `table`, or `None` (undefined). */
  function FirstMatch(table: seq<(string, Severity)>, line: string): Option<Severity> {
    if |table| == 0 then None
    else if Qualifies(line, table[0].0) then Some(table[0].1)
    else FirstMatch(table[1..], line)
  }

  /**
   * The severity `getSymbolType` gives a line: undefined exactly when none of
   * the four markers qualifies (`SymbolTypeOrder` says which one decides otherwise).
   */
  function SymbolTypeOf(line: string): (r: Option<Severity>)
    ensures r == None <==> forall k :: 0 <= k < |Markers| ==> !Qualifies(line, Markers[k].0)
  {
    FirstMatchNone(Markers, line);
    FirstMatch(Markers, line)
  }

  /** `getSymbolType`: the loop over the marker table with its early return. */
  method GetSymbolType(str: string) returns (t: Option<Severity>)
    ensures t == SymbolTypeOf(str)
  {
    for k := 0 to |Markers|
      invariant FirstMatch(Markers[k..], str) == SymbolTypeOf(str)
    {
      assert Markers[k..][1..] == Markers[k + 1..];
      if IndexOf(str, Markers[k].0) > 0 {
        return Some(Markers[k].1);
      }
    }
    return None;
  }

  /** A line that begins with a marker never takes that marker's severity from it. */
  lemma LeadingMarkerIgnored(line: string, marker: string)
    requires OccursAt(line, marker, 0)
    ensures !Qualifies(line, marker)
  {
  }

  /** The result is some severity exactly when it is that of the first qualifying entry. */
  lemma {:induction false} FirstMatchSome(table: seq<(string, Severity)>, line: string, s: Severity)
    ensures FirstMatch(table, line) == Some(s) <==>
      exists k :: FirstQualifying(table, line, k) && table[k].1 == s
    decreases |table|
  {
    if |table| > 0 && !Qualifies(line, table[0].0) {
      FirstMatchSome(table[1..], line, s);
      if FirstMatch(table, line) == Some(s) {
        var k :| FirstQualifying(table[1..], line, k) && table[1..][k].1 == s;
        assert FirstQualifying(table, line, k + 1);
      }
      if exists k :: FirstQualifying(table, line, k) && table[k].1 == s {
        var k :| FirstQualifying(table, line, k) && table[k].1 == s;
        assert k > 0;
        assert FirstQualifying(table[1..], line, k - 1);
      }
    } else if |table| > 0 {
      if exists k :: FirstQualifying(table, line, k) && table[k].1 == s {
        var k :| FirstQualifying(table, line, k) && table[k].1 == s;
        assert k == 0;
      }
    }
  }

  /** The result is undefined exactly when no entry of the table qualifies. */
  lemma {:induction false} FirstMatchNone(table: seq<(string, Severity)>, line: string)
    ensures FirstMatch(table, line) == None <==>
      forall k :: 0 <= k < |table| ==> !Qualifies(line, table[k].0)
    decreases |table|
  {
    if |table| > 0 {
      FirstMatchNone(table[1..], line);
      assert forall k :: 1 <= k < |table| ==> table[k] == table[1..][k - 1];
    }
  }

  /** Markers are tried required, warning, info, recommended; the first qualifying one decides. */
  lemma SymbolTypeOrder(line: string, s: Severity)
    ensures SymbolTypeOf(line) == Some(s) <==>
      exists k :: FirstQualifying(Markers, line, k) && Markers[k].1 == s
  {
    FirstMatchSome(Markers, line, s);
  }

  /** `tc-required` after position 0 gives an error, whatever other markers the line holds. */
  lemma RequiredIsError(line: string)
    requires Qualifies(line, "tc-required")
    ensures SymbolTypeOf(line) == Some(Error)
  {
  }

  /** Without a qualifying `tc-required`, a qualifying `tc-warning` gives a warning. */
  lemma WarningIsWarning(line: string)
    requires !Qualifies(line, "tc-required") && Qualifies(line, "tc-warning")
    ensures SymbolTypeOf(line) == Some(Warning)
  {
    assert FirstQualifying(Markers, line, 1);
    SymbolTypeOrder(line, Warning);
  }

  /** Both `tc-info` and `tc-recommended` give info when neither earlier marker qualifies. */
  lemma InfoMarkersAreInfo(line: string)
    requires !Qualifies(line, "tc-required") && !Qualifies(line, "tc-warning")
    requires Qualifies(line, "tc-info") || Qualifies(line, "tc-recommended")
    ensures SymbolTypeOf(line) == Some(Info)
  {
    if Qualifies(line, "tc-info") {
      assert FirstQualifying(Markers, line, 2);
    } else {
      assert FirstQualifying(Markers, line, 3);
    }
    SymbolTypeOrder(line, Info);
  }

  /** A line whose marker is preceded by one space is an error. */
  lemma {:induction false} IndentedRequiredIsError()
    ensures SymbolTypeOf(" tc-required: Missing file X") == Some(Error)
  {
    var rest := "tc-required: Missing file X";
    var line := " " + rest;
    assert line == " tc-required: Missing file X";
    assert rest[0..11] == "tc-required";
    assert line[1..12] == rest[0..11];
    assert line[0..11][0] != "tc-required"[0];
  }
}
