/**
 * The header-injection rules of the client interceptor, stated on values:
 * what the request's header map becomes after one gated `setHeader`, after
 * `setIdHeader`, after the six writes of `enrichWithTraceHeaders` and after
 * `doNotSampleThisSpan`. The interceptor's methods are proved to leave exactly
 * these maps behind; the lemmas below state what the rules promise.
 */
module TraceHeaders {
  import opened JavaLang
  import opened Spans

  /** An HTTP header multimap: every name maps to the list of its values. */
  type Headers = map<string, seq<string>>

  /** The six header names the interceptor writes (symbolic, pairwise distinct). */
  const TRACE_ID_NAME: string := "trace-id"
  const SPAN_ID_NAME: string := "span-id"
  const NOT_SAMPLED_NAME: string := "not-sampled"
  const SPAN_NAME_NAME: string := "span-name"
  const PARENT_ID_NAME: string := "parent-id"
  const PROCESS_ID_NAME: string := "process-id"

  const TRACE_HEADER_NAMES: set<string> :=
    {TRACE_ID_NAME, SPAN_ID_NAME, NOT_SAMPLED_NAME, SPAN_NAME_NAME, PARENT_ID_NAME, PROCESS_ID_NAME}

  /** The value of the not-sampled marker. */
  const NOT_SAMPLED_VALUE: string := "true"

  lemma NotSampledValueHasText()
    ensures HasText(Some(NOT_SAMPLED_VALUE))
  {
    HasTextFromFirst(NOT_SAMPLED_VALUE);
  }

  /** `HttpHeaders.add`: append `value` to the list kept under `name`, creating it if absent. */
  function Add(h: Headers, name: string, value: string): (r: Headers)
  {
    h[name := (if name in h then h[name] else []) + [value]]
  }

  /** The gate of `setHeader`: the value has text, the name is absent, the tracer is tracing. */
  predicate Admits(h: Headers, name: string, value: Option<string>, tracing: bool)
  {
    HasText(value) && name !in h && tracing
  }

  /** `setHeader`: one gated write. */
  function WithHeader(h: Headers, name: string, value: Option<string>, tracing: bool): (r: Headers)
  {
    if Admits(h, name, value, tracing) then Add(h, name, value.value) else h
  }

  /** `setIdHeader`: a null id is skipped, any other id goes through the gate in hexadecimal. */
  function WithIdHeader(h: Headers, name: string, id: Option<Long>, tracing: bool): (r: Headers)
  {
    if id.Some? then WithHeader(h, name, Some(IdToHex(id.value)), tracing) else h
  }

  /** `getParentId`: the first entry of the parent list, or null when there is none. */
  function ParentId(span: Span): (parent: Option<Long>)
  {
    if |span.parents| > 0 then Some(span.parents[0]) else None
  }

  /** `doNotSampleThisSpan`: the not-sampled marker through the same gate. */
  function WithNotSampled(h: Headers, tracing: bool): (r: Headers)
  {
    WithHeader(h, NOT_SAMPLED_NAME, Some(NOT_SAMPLED_VALUE), tracing)
  }

  /** `enrichWithTraceHeaders`: the six gated writes, in the order `enrichWithTraceHeaders` makes them. */
  function WithTraceHeaders(h: Headers, span: Span, tracing: bool): (r: Headers)
  {
    var h1 := WithIdHeader(h, TRACE_ID_NAME, Some(span.traceId), tracing);
    var h2 := WithIdHeader(h1, SPAN_ID_NAME, Some(span.spanId), tracing);
    var h3 := if !span.exportable then WithHeader(h2, NOT_SAMPLED_NAME, Some(NOT_SAMPLED_VALUE), tracing) else h2;
    var h4 := WithHeader(h3, SPAN_NAME_NAME, span.name, tracing);
    var h5 := WithIdHeader(h4, PARENT_ID_NAME, ParentId(span), tracing);
    WithHeader(h5, PROCESS_ID_NAME, span.processId, tracing)
  }

  /**
   * What one gated write promises: a header that is already there keeps its
   * values, no name other than `name` appears, `name` is present afterwards
   * exactly when it was before or the gate admitted it, and a newly written
   * header holds the one value. The map changes exactly when the gate admits.
   */
  lemma WithHeaderSpec(h: Headers, name: string, value: Option<string>, tracing: bool)
    ensures var r := WithHeader(h, name, value, tracing);
      && (forall k :: k in h ==> k in r && r[k] == h[k])
      && r.Keys <= h.Keys + {name}
      && (name in r <==> name in h || Admits(h, name, value, tracing))
      && (name in r && name !in h ==> r[name] == [value.value])
      && (r != h <==> Admits(h, name, value, tracing))
  {
    if Admits(h, name, value, tracing) {
      assert name in WithHeader(h, name, value, tracing);
    }
  }

  /** A null id never produces a header; any other id is written, in hexadecimal, when the name is absent and the tracer is tracing. */
  lemma WithIdHeaderSpec(h: Headers, name: string, id: Option<Long>, tracing: bool)
    ensures id.None? ==> WithIdHeader(h, name, id, tracing) == h
    ensures id.Some? && name !in h && tracing ==> WithIdHeader(h, name, id, tracing) == h[name := [IdToHex(id.value)]]
    ensures id.Some? && (name in h || !tracing) ==> WithIdHeader(h, name, id, tracing) == h
  {
    if id.Some? {
      var v := IdToHex(id.value);
      assert HasText(Some(v));
      assert [] + [v] == [v];
    }
  }

  /**
   * The opt-out: while not tracing it changes nothing; while tracing the
   * marker is present afterwards, holding exactly "true" when it was absent,
   * and every other header is kept as it was.
   */
  lemma WithNotSampledSpec(h: Headers, tracing: bool)
    ensures var r := WithNotSampled(h, tracing);
      && (!tracing ==> r == h)
      && (NOT_SAMPLED_NAME in h ==> r == h)
      && (tracing ==> NOT_SAMPLED_NAME in r)
      && (tracing && NOT_SAMPLED_NAME !in h ==> r == h[NOT_SAMPLED_NAME := [NOT_SAMPLED_VALUE]])
  {
    NotSampledValueHasText();
    assert [] + [NOT_SAMPLED_VALUE] == [NOT_SAMPLED_VALUE];
  }

  /** One gated write of the injection: a header name and the (possibly null) value offered for it. */
  datatype HeaderWrite = HeaderWrite(name: string, value: Option<string>)

  /**
   * The six writes of `enrichWithTraceHeaders` in order. An exportable span's
   * marker and a missing parent become a null value, which the gate rejects
   * just as `enrichWithTraceHeaders` and `setIdHeader` skip those writes.
   */
  function TraceHeaderWrites(span: Span): (ws: seq<HeaderWrite>)
  {
    [ HeaderWrite(TRACE_ID_NAME, Some(IdToHex(span.traceId))),
      HeaderWrite(SPAN_ID_NAME, Some(IdToHex(span.spanId))),
      HeaderWrite(NOT_SAMPLED_NAME, if span.exportable then None else Some(NOT_SAMPLED_VALUE)),
      HeaderWrite(SPAN_NAME_NAME, span.name),
      HeaderWrite(PARENT_ID_NAME, if ParentId(span).Some? then Some(IdToHex(ParentId(span).value)) else None),
      HeaderWrite(PROCESS_ID_NAME, span.processId) ]
  }

  function WriteNames(ws: seq<HeaderWrite>): (names: set<string>)
  {
    if ws == [] then {} else {ws[0].name} + WriteNames(ws[1..])
  }

  /** A sequence of gated writes, applied left to right. */
  function ApplyWrites(h: Headers, ws: seq<HeaderWrite>, tracing: bool): (r: Headers)
    decreases |ws|
  {
    if ws == [] then h else ApplyWrites(WithHeader(h, ws[0].name, ws[0].value, tracing), ws[1..], tracing)
  }

  /** Gated writes keep every existing header and add no name outside their own. */
  lemma {:induction false} ApplyWritesPreserves(h: Headers, ws: seq<HeaderWrite>, tracing: bool)
    ensures var r := ApplyWrites(h, ws, tracing);
      (forall k :: k in h ==> k in r && r[k] == h[k]) && r.Keys <= h.Keys + WriteNames(ws)
    decreases |ws|
  {
    if ws != [] {
      WithHeaderSpec(h, ws[0].name, ws[0].value, tracing);
      ApplyWritesPreserves(WithHeader(h, ws[0].name, ws[0].value, tracing), ws[1..], tracing);
    }
  }

  /** While not tracing, gated writes change nothing. */
  lemma {:induction false} ApplyWritesNotTracing(h: Headers, ws: seq<HeaderWrite>)
    ensures ApplyWrites(h, ws, false) == h
    decreases |ws|
  {
    if ws != [] {
      ApplyWritesNotTracing(h, ws[1..]);
    }
  }

  /** `setIdHeader` is the gated write of the id's hexadecimal form, or of null. */
  lemma WithIdHeaderIsWithHeader(h: Headers, name: string, id: Option<Long>, tracing: bool)
    ensures WithIdHeader(h, name, id, tracing)
         == WithHeader(h, name, if id.Some? then Some(IdToHex(id.value)) else None, tracing)
  {
  }

  lemma ApplyWritesStep(h: Headers, ws: seq<HeaderWrite>, tracing: bool, k: nat)
    requires k < |ws|
    ensures ApplyWrites(h, ws[k..], tracing)
         == ApplyWrites(WithHeader(h, ws[k].name, ws[k].value, tracing), ws[k + 1..], tracing)
  {
    assert ws[k..][0] == ws[k];
    assert ws[k..][1..] == ws[k + 1..];
  }

  /** `WithTraceHeaders`, written as `enrichWithTraceHeaders` is, is the fold of its six writes. */
  lemma WithTraceHeadersIsApplyWrites(h: Headers, span: Span, tracing: bool)
    ensures WithTraceHeaders(h, span, tracing) == ApplyWrites(h, TraceHeaderWrites(span), tracing)
  {
    var ws := TraceHeaderWrites(span);
    var h1 := WithIdHeader(h, TRACE_ID_NAME, Some(span.traceId), tracing);
    var h2 := WithIdHeader(h1, SPAN_ID_NAME, Some(span.spanId), tracing);
    var h3 := if !span.exportable then WithHeader(h2, NOT_SAMPLED_NAME, Some(NOT_SAMPLED_VALUE), tracing) else h2;
    var h4 := WithHeader(h3, SPAN_NAME_NAME, span.name, tracing);
    var h5 := WithIdHeader(h4, PARENT_ID_NAME, ParentId(span), tracing);
    var h6 := WithHeader(h5, PROCESS_ID_NAME, span.processId, tracing);
    assert ApplyWrites(h, ws, tracing) == ApplyWrites(h1, ws[1..], tracing) by {
      assert ws[0..] == ws;
      ApplyWritesStep(h, ws, tracing, 0);
    }
    assert ApplyWrites(h1, ws[1..], tracing) == ApplyWrites(h2, ws[2..], tracing) by {
      ApplyWritesStep(h1, ws, tracing, 1);
    }
    assert ApplyWrites(h2, ws[2..], tracing) == ApplyWrites(h3, ws[3..], tracing) by {
      ApplyWritesStep(h2, ws, tracing, 2);
    }
    assert ApplyWrites(h3, ws[3..], tracing) == ApplyWrites(h4, ws[4..], tracing) by {
      ApplyWritesStep(h3, ws, tracing, 3);
    }
    assert ApplyWrites(h4, ws[4..], tracing) == ApplyWrites(h5, ws[5..], tracing) by {
      ApplyWritesStep(h4, ws, tracing, 4);
      WithIdHeaderIsWithHeader(h4, PARENT_ID_NAME, ParentId(span), tracing);
    }
    assert ApplyWrites(h5, ws[5..], tracing) == h6 by {
      ApplyWritesStep(h5, ws, tracing, 5);
      assert ws[6..] == [];
    }
  }

  lemma {:induction false} WriteNamesWithin(ws: seq<HeaderWrite>, names: set<string>)
    requires forall i :: 0 <= i < |ws| ==> ws[i].name in names
    ensures WriteNames(ws) <= names
    decreases |ws|
  {
    if ws != [] {
      WriteNamesWithin(ws[1..], names);
    }
  }

  lemma TraceHeaderWriteNames(span: Span)
    ensures WriteNames(TraceHeaderWrites(span)) <= TRACE_HEADER_NAMES
  {
    WriteNamesWithin(TraceHeaderWrites(span), TRACE_HEADER_NAMES);
  }

  /**
   * The injection keeps every header that was already present with its
   * values, adds no name outside the six trace headers, and changes nothing
   * while the tracer is not tracing.
   */
  lemma WithTraceHeadersPreserves(h: Headers, span: Span, tracing: bool)
    ensures var r := WithTraceHeaders(h, span, tracing);
      && (forall k :: k in h ==> k in r && r[k] == h[k])
      && r.Keys <= h.Keys + TRACE_HEADER_NAMES
      && (!tracing ==> r == h)
  {
    WithTraceHeadersIsApplyWrites(h, span, tracing);
    ApplyWritesPreserves(h, TraceHeaderWrites(span), tracing);
    TraceHeaderWriteNames(span);
    if !tracing {
      ApplyWritesNotTracing(h, TraceHeaderWrites(span));
    }
  }

  /** Every write whose value has text leaves its name present, while tracing. */
  lemma {:induction false} ApplyWritesCovers(h: Headers, ws: seq<HeaderWrite>, tracing: bool, i: nat)
    requires i < |ws| && tracing && HasText(ws[i].value)
    ensures ws[i].name in ApplyWrites(h, ws, tracing)
    decreases |ws|
  {
    var h' := WithHeader(h, ws[0].name, ws[0].value, tracing);
    WithHeaderSpec(h, ws[0].name, ws[0].value, tracing);
    if i > 0 {
      ApplyWritesCovers(h', ws[1..], tracing, i - 1);
    } else {
      ApplyWritesPreserves(h', ws[1..], tracing);
    }
  }

  /** Writes are no-ops on a map that already holds every name they could add. */
  lemma {:induction false} ApplyWritesAbsorbed(g: Headers, ws: seq<HeaderWrite>, tracing: bool)
    requires forall i :: 0 <= i < |ws| && tracing && HasText(ws[i].value) ==> ws[i].name in g
    ensures ApplyWrites(g, ws, tracing) == g
    decreases |ws|
  {
    if ws != [] {
      assert WithHeader(g, ws[0].name, ws[0].value, tracing) == g;
      ApplyWritesAbsorbed(g, ws[1..], tracing);
    }
  }

  /** Running the injection a second time with the same span leaves the headers as the first run did. */
  lemma WithTraceHeadersIdempotent(h: Headers, span: Span, tracing: bool)
    ensures WithTraceHeaders(WithTraceHeaders(h, span, tracing), span, tracing) == WithTraceHeaders(h, span, tracing)
  {
    var ws := TraceHeaderWrites(span);
    var r := WithTraceHeaders(h, span, tracing);
    WithTraceHeadersIsApplyWrites(h, span, tracing);
    WithTraceHeadersIsApplyWrites(r, span, tracing);
    forall i | 0 <= i < |ws| && tracing && HasText(ws[i].value) ensures ws[i].name in r {
      ApplyWritesCovers(h, ws, tracing, i);
    }
    ApplyWritesAbsorbed(r, ws, tracing);
  }

  lemma {:induction false} NotInWriteNames(ws: seq<HeaderWrite>, name: string)
    requires forall i :: 0 <= i < |ws| ==> ws[i].name != name
    ensures name !in WriteNames(ws)
    decreases |ws|
  {
    if ws != [] {
      NotInWriteNames(ws[1..], name);
    }
  }

  /**
   * Among writes with distinct names, one whose name is not yet present lands
   * exactly when its value has text and the tracer is tracing, and then holds
   * just that value.
   */
  lemma {:induction false} ApplyWritesFresh(h: Headers, ws: seq<HeaderWrite>, tracing: bool, i: nat)
    requires forall a, b :: 0 <= a < b < |ws| ==> ws[a].name != ws[b].name
    requires i < |ws| && ws[i].name !in h
    ensures ws[i].name in ApplyWrites(h, ws, tracing) <==> HasText(ws[i].value) && tracing
    ensures ws[i].name in ApplyWrites(h, ws, tracing) ==> ApplyWrites(h, ws, tracing)[ws[i].name] == [ws[i].value.value]
    decreases |ws|
  {
    var h' := WithHeader(h, ws[0].name, ws[0].value, tracing);
    WithHeaderSpec(h, ws[0].name, ws[0].value, tracing);
    if i == 0 {
      ApplyWritesPreserves(h', ws[1..], tracing);
      NotInWriteNames(ws[1..], ws[0].name);
    } else {
      ApplyWritesFresh(h', ws[1..], tracing, i - 1);
    }
  }

  /** The six trace header names are pairwise distinct, and so are the writes' names. */
  lemma TraceHeaderWritesDistinct(span: Span)
    ensures forall a, b :: 0 <= a < b < |TraceHeaderWrites(span)| ==>
      TraceHeaderWrites(span)[a].name != TraceHeaderWrites(span)[b].name
  {
  }

  /**
   * The trace headers a span contributes to a request that has none of them
   * yet: both ids always, the marker for a non-exportable span, the name and
   * the process id when they have text, the parent id when there is a parent.
   */
  function FreshTraceHeaders(span: Span): (r: Headers)
  {
    var ids := map[TRACE_ID_NAME := [IdToHex(span.traceId)], SPAN_ID_NAME := [IdToHex(span.spanId)]];
    var marked := if span.exportable then ids else ids[NOT_SAMPLED_NAME := [NOT_SAMPLED_VALUE]];
    var named := if HasText(span.name) then marked[SPAN_NAME_NAME := [span.name.value]] else marked;
    var parented := if span.parents != [] then named[PARENT_ID_NAME := [IdToHex(span.parents[0])]] else named;
    if HasText(span.processId) then parented[PROCESS_ID_NAME := [span.processId.value]] else parented
  }

  /** What the reference map holds under each of the six names. */
  lemma FreshTraceHeadersAt(span: Span, i: nat)
    requires i < 6
    ensures var w := TraceHeaderWrites(span)[i];
      (w.name in FreshTraceHeaders(span) <==> HasText(w.value))
      && (w.name in FreshTraceHeaders(span) ==> FreshTraceHeaders(span)[w.name] == [w.value.value])
  {
    NotSampledValueHasText();
    assert HasText(Some(IdToHex(span.traceId))) && HasText(Some(IdToHex(span.spanId)));
  }

  /** Each trace header name is the name of one of the six writes. */
  lemma TraceHeaderIndex(span: Span, k: string) returns (i: nat)
    requires k in TRACE_HEADER_NAMES
    ensures i < 6 && TraceHeaderWrites(span)[i].name == k
  {
    i := if k == TRACE_ID_NAME then 0 else if k == SPAN_ID_NAME then 1
      else if k == NOT_SAMPLED_NAME then 2 else if k == SPAN_NAME_NAME then 3
      else if k == PARENT_ID_NAME then 4 else 5;
  }

  lemma FreshHeaderAt(h: Headers, span: Span, i: nat)
    requires h.Keys !! TRACE_HEADER_NAMES && i < 6
    ensures var k := TraceHeaderWrites(span)[i].name;
      var r := ApplyWrites(h, TraceHeaderWrites(span), true);
      var e := h + FreshTraceHeaders(span);
      (k in r <==> k in e) && (k in r ==> r[k] == e[k])
  {
    var ws := TraceHeaderWrites(span);
    assert ws[i].name in TRACE_HEADER_NAMES;
    TraceHeaderWritesDistinct(span);
    ApplyWritesFresh(h, ws, true, i);
    FreshTraceHeadersAt(span, i);
  }

  /** While tracing, a request holding none of the six trace headers receives exactly the span's fresh trace headers. */
  lemma FreshRequestHeaders(h: Headers, span: Span)
    requires h.Keys !! TRACE_HEADER_NAMES
    ensures WithTraceHeaders(h, span, true) == h + FreshTraceHeaders(span)
  {
    var ws := TraceHeaderWrites(span);
    var r := ApplyWrites(h, ws, true);
    var e := h + FreshTraceHeaders(span);
    WithTraceHeadersIsApplyWrites(h, span, true);
    ApplyWritesPreserves(h, ws, true);
    TraceHeaderWriteNames(span);
    assert FreshTraceHeaders(span).Keys <= TRACE_HEADER_NAMES;
    forall k | k in TRACE_HEADER_NAMES
      ensures k in r <==> k in e
      ensures k in r ==> r[k] == e[k]
    {
      var i := TraceHeaderIndex(span, k);
      FreshHeaderAt(h, span, i);
    }
    assert r.Keys == e.Keys;
  }

  /** While tracing, a request without a not-sampled header gets the marker "true" exactly when the span is not exportable. */
  lemma NotSampledMarksNonExportable(h: Headers, span: Span)
    requires NOT_SAMPLED_NAME !in h
    ensures NOT_SAMPLED_NAME in WithTraceHeaders(h, span, true) <==> !span.exportable
    ensures !span.exportable ==> WithTraceHeaders(h, span, true)[NOT_SAMPLED_NAME] == [NOT_SAMPLED_VALUE]
  {
    NotSampledValueHasText();
    WithTraceHeadersIsApplyWrites(h, span, true);
    TraceHeaderWritesDistinct(span);
    ApplyWritesFresh(h, TraceHeaderWrites(span), true, 2);
  }

  /**
   * A request without a parent-id header gets one exactly when the span has a
   * parent and the tracer is tracing, and it holds the first parent's id.
   */
  lemma ParentIdFromFirstParent(h: Headers, span: Span, tracing: bool)
    requires PARENT_ID_NAME !in h
    ensures PARENT_ID_NAME in WithTraceHeaders(h, span, tracing) <==> span.parents != [] && tracing
    ensures PARENT_ID_NAME in WithTraceHeaders(h, span, tracing) ==>
      WithTraceHeaders(h, span, tracing)[PARENT_ID_NAME] == [IdToHex(span.parents[0])]
  {
    WithTraceHeadersIsApplyWrites(h, span, tracing);
    TraceHeaderWritesDistinct(span);
    ApplyWritesFresh(h, TraceHeaderWrites(span), tracing, 4);
  }

  /** A sampled root span with ids 255 and 16 and no name or process id yields exactly {trace-id: "ff", span-id: "10"}. */
  lemma SampledRootSpanExample()
    ensures WithTraceHeaders(map[], Span(255, 16, [], None, None, true), true)
         == map[TRACE_ID_NAME := ["ff"], SPAN_ID_NAME := ["10"]]
  {
    IdToHexExamples();
    FreshRequestHeaders(map[], Span(255, 16, [], None, None, true));
    assert map[] + FreshTraceHeaders(Span(255, 16, [], None, None, true))
        == map[TRACE_ID_NAME := ["ff"], SPAN_ID_NAME := ["10"]];
  }

  /** The opt-out on an empty request while tracing leaves only the not-sampled marker; while not tracing, nothing. */
  lemma DoNotSampleExample(h: Headers)
    ensures WithNotSampled(map[], true) == map[NOT_SAMPLED_NAME := [NOT_SAMPLED_VALUE]]
    ensures WithNotSampled(h, false) == h
  {
    WithNotSampledSpec(map[], true);
    WithNotSampledSpec(h, false);
  }
}
