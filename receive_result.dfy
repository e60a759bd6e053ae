/**
 * ReceiveResult: an activity that launches a picker with request code GET_CODE and appends one
 * line per returned result to an editable text log.
 */
module ReceiveResult {
  import opened Common
  import Decimal

  /** The one request code this activity launches with. */
  const GET_CODE: int := 0
  /** `Activity.RESULT_CANCELED`. */
  const RESULT_CANCELED: int := 0

  /** The result intent; the picker always sets an action string. */
  datatype Intent = Intent(action: string)

  /** One activity result as the framework hands it to `onActivityResult`. */
  datatype ActivityResult = ActivityResult(requestCode: int, resultCode: int, data: Option<Intent>)

  /** What a result with request code GET_CODE appends to the log. */
  function ResultLine(resultCode: int, data: Option<Intent>): (line: string)
    ensures |line| > 0 && line[|line| - 1] == '\n'
  {
    (if resultCode == RESULT_CANCELED then "(cancelled)"
     else "(okay " + Decimal.IntToString(resultCode) + ") " + (if data.Some? then data.value.action else ""))
    + "\n"
  }

  /** What any result appends: nothing unless it answers GET_CODE. */
  function Appended(r: ActivityResult): string {
    if r.requestCode == GET_CODE then ResultLine(r.resultCode, r.data) else ""
  }

  /** The log after a series of results, handled in order. */
  function LogAfter(text: string, results: seq<ActivityResult>): string
    decreases |results|
  {
    if results == [] then text else LogAfter(text + Appended(results[0]), results[1..])
  }

  /** The number of results in the series that this activity handles. */
  function HandledCount(results: seq<ActivityResult>): nat {
    if results == [] then 0
    else (if results[0].requestCode == GET_CODE then 1 else 0) + HandledCount(results[1..])
  }

  function CountNewlines(s: string): nat {
    if s == [] then 0 else (if s[0] == '\n' then 1 else 0) + CountNewlines(s[1..])
  }

  predicate NewlineFree(data: Option<Intent>) {
    data.Some? ==> '\n' !in data.value.action
  }

  lemma {:induction false} CountNewlinesAppend(a: string, b: string)
    ensures CountNewlines(a + b) == CountNewlines(a) + CountNewlines(b)
  {
    if a != [] {
      var ab := a + b;
      assert ab[0] == a[0] && ab[1..] == a[1..] + b;
      CountNewlinesAppend(a[1..], b);
      assert CountNewlines(ab) == (if a[0] == '\n' then 1 else 0) + CountNewlines(a[1..] + b);
    } else {
      assert a + b == b;
    }
  }

  lemma {:induction false} NoNewlineCountsZero(s: string)
    requires '\n' !in s
    ensures CountNewlines(s) == 0
  {
    if s != [] {
      NoNewlineCountsZero(s[1..]);
    }
  }

  /** A cancelled result adds exactly "(cancelled)" and a line break, whatever data came with it. */
  lemma CancelledLine(data: Option<Intent>)
    ensures ResultLine(RESULT_CANCELED, data) == "(cancelled)\n"
  {
  }

  /**
   * Any other result adds "(okay ", a decimal code that reads back as the result code, ") ", the
   * action (nothing at all when there is no data) and a line break.
   */
  lemma OkayLine(resultCode: int, data: Option<Intent>)
    requires resultCode != RESULT_CANCELED
    ensures exists code: string ::
              && Decimal.ParseInt(code) == Some(resultCode)
              && ResultLine(resultCode, data)
                 == "(okay " + code + ") " + (if data.Some? then data.value.action else "") + "\n"
  {
    Decimal.ParseIntOfIntToString(resultCode);
    var code := Decimal.IntToString(resultCode);
    assert ResultLine(resultCode, data)
      == "(okay " + code + ") " + (if data.Some? then data.value.action else "") + "\n";
  }

  /** Each handled line holds exactly one line break, its last character. */
  lemma {:induction false} ResultLineHasOneNewline(resultCode: int, data: Option<Intent>)
    requires NewlineFree(data)
    ensures CountNewlines(ResultLine(resultCode, data)) == 1
  {
    var line := ResultLine(resultCode, data);
    var body := line[..|line| - 1];
    assert line == body + "\n";
    Decimal.IntToStringHasNoNewline(resultCode);
    assert '\n' !in body;
    NoNewlineCountsZero(body);
    CountNewlinesAppend(body, "\n");
  }

  /**
   * The log is append-only: after any series of results the old text is a prefix of the new one,
   * and (with newline-free actions) it has gained exactly one line per handled result.
   */
  lemma {:induction false} LogGrowsByOneLinePerHandledResult(text: string, results: seq<ActivityResult>)
    requires forall i :: 0 <= i < |results| ==> NewlineFree(results[i].data)
    ensures text <= LogAfter(text, results)
    ensures CountNewlines(LogAfter(text, results)) == CountNewlines(text) + HandledCount(results)
    decreases |results|
  {
    if results != [] {
      var r := results[0];
      var next := text + Appended(r);
      if r.requestCode == GET_CODE {
        ResultLineHasOneNewline(r.resultCode, r.data);
      }
      CountNewlinesAppend(text, Appended(r));
      LogGrowsByOneLinePerHandledResult(next, results[1..]);
      assert text <= next;
    }
  }

  class ReceiveResultActivity {
    /** The editable text of the results view. */
    var text: string

    constructor (initial: string)
      ensures text == initial
    {
      text := initial;
    }

    /** `onActivityResult`: append the result's line through successive `append` calls. */
    method OnActivityResult(requestCode: int, resultCode: int, data: Option<Intent>)
      modifies this
      ensures text == old(text) + Appended(ActivityResult(requestCode, resultCode, data))
      ensures requestCode != GET_CODE ==> text == old(text)
    {
      if requestCode == GET_CODE {
        ghost var added: string := "";
        if resultCode == RESULT_CANCELED {
          text := text + "(cancelled)";
          added := "(cancelled)";
        } else {
          var code := Decimal.IntToString(resultCode);
          text := text + "(okay ";
          text := text + code;
          added := "(okay " + code;
          assert text == old(text) + added;
          text := text + ") ";
          added := added + ") ";
          assert text == old(text) + added;
          if data.Some? {
            text := text + data.value.action;
            added := added + data.value.action;
          }
          assert text == old(text) + added;
        }
        text := text + "\n";
        added := added + "\n";
        assert added == ResultLine(resultCode, data);
      }
    }
  }
}
