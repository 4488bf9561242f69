/**
 * Splitting a protection value such as "16A/10A" into its input and
 * output parts, as the export, the summary table and the raw-device table
 * of the current summary page all do, each with its own copy of the same
 * expression.
 */
module Suoja {
  import opened Wrappers
  import opened Text

  /** The parts of a protection value; `output` is `None` for JavaScript `null`. `hasSeparator` is only reported by the summary table's copy. */
  datatype SuojaParts = SuojaParts(input: string, output: Option<string>, hasSeparator: bool)

  /**
   * `parseSuoja`: with splitting on and a `/` present, the value is split at
   * every `/`, every piece is trimmed and the first two pieces are kept;
   * otherwise the value is returned unchanged with no output.
   */
  function ParseSuoja(suoja: string, separate: bool): (p: SuojaParts)
    ensures p.hasSeparator <==> separate && '/' in suoja
    ensures !p.hasSeparator ==> p.input == suoja && p.output == None
    ensures p.hasSeparator ==> p.output.Some? && '/' !in p.input && '/' !in p.output.value
  {
    if separate && '/' in suoja then
      var parts := Split(suoja, '/');
      TrimKeepsOut(parts[0], '/');
      TrimKeepsOut(parts[1], '/');
      SuojaParts(TrimJs(parts[0]), Some(TrimJs(parts[1])), true)
    else
      SuojaParts(suoja, None, false)
  }

  lemma TrimKeepsOut(s: string, c: char)
    requires c !in s
    ensures c !in TrimJs(s)
  {
    TrimAvoids(s, IsJsSpace, c);
  }

  /** With splitting off, the value passes through whole. */
  lemma ParseWithoutSplitting(suoja: string)
    ensures ParseSuoja(suoja, false) == SuojaParts(suoja, None, false)
  {
  }

  /** Only the first two slash-separated segments count, each trimmed; whatever follows a second `/` is dropped. */
  lemma {:induction false} ParseFirstTwoSegments(a: string, b: string, rest: string)
    requires '/' !in a && '/' !in b && (rest == [] || rest[0] == '/')
    ensures ParseSuoja(a + "/" + b + rest, true) == SuojaParts(TrimJs(a), Some(TrimJs(b)), true)
  {
    var s := a + "/" + b + rest;
    assert s == a + ['/'] + (b + rest);
    SplitCons(a, '/', b + rest);
    SplitHead(b, '/', rest);
  }

  /** The output cell of the export, `output || ''`: the output text, or empty when there is none. */
  function OutputText(p: SuojaParts): (s: string)
    ensures p.output == None ==> s == ""
    ensures p.output.Some? ==> s == p.output.value
  {
    if p.output.Some? then p.output.value else ""
  }

  /** `separateInputOutput && output` in the two tables: the In/Out pair is shown only for a non-empty output. */
  predicate ShowsInOut(p: SuojaParts, separate: bool) {
    separate && p.output.Some? && p.output.value != ""
  }

  /** The In/Out pair is shown only when splitting is on and the value has a `/`; otherwise the value is shown whole. */
  lemma ShowsInOutOnlyWithSlash(suoja: string, separate: bool)
    ensures ShowsInOut(ParseSuoja(suoja, separate), separate) ==> separate && '/' in suoja
    ensures !separate || '/' !in suoja ==> !ShowsInOut(ParseSuoja(suoja, separate), separate)
  {
  }
}
