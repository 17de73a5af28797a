/**
 * `iso_date`: the calendar date of the export's `create_time`, or the empty
 * text. The timestamp parser it calls (`datetime.fromisoformat` followed by
 * `.date().isoformat()`) belongs to the Python library and is a parameter
 * here: it gives `None` where the library raises.
 */
module Dates {

  import opened Wrappers

  predicate IsDigit(c: char) {
    '0' <= c <= '9'
  }

  /** `YYYY-MM-DD`. */
  predicate IsIsoDate(d: string) {
    |d| == 10 && d[4] == '-' && d[7] == '-'
    && forall i :: 0 <= i < 10 && i != 4 && i != 7 ==> IsDigit(d[i])
  }

  /** What the library promises: a date it returns is written `YYYY-MM-DD`. */
  ghost predicate IsDateParser(fromIsoFormat: string -> Option<string>) {
    forall s :: fromIsoFormat(s).Some? ==> IsIsoDate(fromIsoFormat(s).value)
  }

  /**
   * `s.replace("Z", "+00:00")`: no `Z` is left, and a text without one is
   * unchanged.
   */
  function ReplaceZulu(s: string): (r: string)
    ensures forall i :: 0 <= i < |r| ==> r[i] != 'Z'
    ensures (forall i :: 0 <= i < |s| ==> s[i] != 'Z') ==> r == s
  {
    if s == [] then []
    else (if s[0] == 'Z' then "+00:00" else [s[0]]) + ReplaceZulu(s[1..])
  }

  /** Replacing works piece by piece: a `Z` never straddles two pieces. */
  lemma {:induction false} ReplaceZuluAppend(a: string, b: string)
    ensures ReplaceZulu(a + b) == ReplaceZulu(a) + ReplaceZulu(b)
  {
    if a == [] {
      assert a + b == b;
    } else {
      assert (a + b)[0] == a[0];
      assert (a + b)[1..] == a[1..] + b;
      ReplaceZuluAppend(a[1..], b);
    }
  }

  /** A trailing `Z` after a text without one becomes `+00:00`. */
  lemma ZuluSuffix(s: string)
    requires forall i :: 0 <= i < |s| ==> s[i] != 'Z'
    ensures ReplaceZulu(s + "Z") == s + "+00:00"
  {
    ReplaceZuluAppend(s, "Z");
    assert ReplaceZulu("Z") == "+00:00";
  }

  /**
   * `iso_date(dt_str)`: empty for an empty timestamp, without asking the
   * parser; otherwise the parser's date for the timestamp with each `Z`
   * written as `+00:00`, or empty where the parser fails. With a parser
   * that keeps its promise, the result is empty or a `YYYY-MM-DD` date.
   */
  function IsoDate(dtStr: string, fromIsoFormat: string -> Option<string>): (r: string)
    ensures dtStr == "" ==> r == ""
    ensures IsDateParser(fromIsoFormat) ==> r == "" || IsIsoDate(r)
    ensures dtStr != "" && fromIsoFormat(ReplaceZulu(dtStr)).None? ==> r == ""
    ensures dtStr != "" && fromIsoFormat(ReplaceZulu(dtStr)).Some? ==> r == fromIsoFormat(ReplaceZulu(dtStr)).value
  {
    if dtStr == "" then ""
    else
      match fromIsoFormat(ReplaceZulu(dtStr))
      case Some(d) => d
      case None => ""
  }

}
