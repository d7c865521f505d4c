/**
 * The client interceptor itself, in the imperative form of the Java class:
 * the outgoing request's header map is updated in place, the event publisher
 * is a late-bound nullable field, and the tracer is a collaborator object
 * whose state the interceptor drives. Each method is proved to leave behind
 * exactly what the value-level rules of `TraceHeaders` describe.
 */
module Interceptor {
  import opened JavaLang
  import opened Spans
  import opened TraceHeaders

  /** The two parts of `java.net.URI` the interceptor reads; either may be null. */
  datatype Uri = Uri(scheme: Option<string>, path: Option<string>)

  /** The span name of a request: `uri.getScheme() + ":" + uri.getPath()`, a null part rendered as "null". */
  function SpanName(uri: Uri): (name: string)
  {
    Render(uri.scheme) + ":" + Render(uri.path)
  }

  lemma SpanNameExamples()
    ensures SpanName(Uri(Some("https"), Some("/orders/42"))) == "https:/orders/42"
    ensures SpanName(Uri(Some("http"), Some(""))) == "http:"
    ensures SpanName(Uri(None, Some("/a"))) == "null:/a"
  {
  }

  /**
   * The span name keeps scheme and path apart: since a URI scheme never holds
   * a colon, two requests get the same span name only when their rendered
   * schemes and paths agree.
   */
  lemma SpanNameDeterminesUri(u: Uri, v: Uri)
    requires ':' !in Render(u.scheme) && ':' !in Render(v.scheme)
    requires SpanName(u) == SpanName(v)
    ensures Render(u.scheme) == Render(v.scheme) && Render(u.path) == Render(v.path)
  {
    var a, b := Render(u.scheme), Render(v.scheme);
    var n := SpanName(u);
    assert n[|a|] == ':' && n[|b|] == ':';
    assert forall i :: 0 <= i < |a| ==> n[i] == a[i] != ':';
    assert forall i :: 0 <= i < |b| ==> n[i] == b[i] != ':';
    assert |a| == |b|;
    assert a == n[..|a|] == b;
    assert Render(u.path) == n[|a| + 1..] == Render(v.path);
  }

  /** An outgoing HTTP request: its URI and its header map, which injection appends to. */
  class HttpRequest {
    const uri: Uri
    var headers: Headers

    constructor(uri: Uri, headers: Headers)
      ensures this.uri == uri && this.headers == headers
    {
      this.uri := uri;
      this.headers := headers;
    }
  }

  /** The lifecycle events the interceptor publishes, each carrying its span. */
  datatype ClientEvent = ClientSent(span: Span) | ClientReceived(span: Span)

  /** A call the interceptor makes that changes a collaborator's state. */
  datatype Interaction = Started(name: string) | Published(event: ClientEvent) | Closed(span: Span)

  /**
   * The order in which the collaborators were called: the tracer and the
   * publisher each append an entry when they are asked to act, so one journal
   * shared by both records the interleaving of their calls.
   */
  class Journal {
    ghost var entries: seq<Interaction>

    constructor()
      ensures entries == []
    {
      entries := [];
    }
  }

  /** The application's event publisher, seen as the log of events handed to it. */
  class EventPublisher {
    var events: seq<ClientEvent>
    const journal: Journal

    constructor(journal: Journal)
      ensures events == [] && this.journal == journal
    {
      events := [];
      this.journal := journal;
    }

    method PublishEvent(event: ClientEvent)
      modifies this, journal
      ensures events == old(events) + [event]
      ensures journal.entries == old(journal.entries) + [Published(event)]
    {
      events := events + [event];
      journal.entries := journal.entries + [Published(event)];
    }
  }

  /**
   * The tracer collaborator as abstract state: the current span of the
   * calling context (tracing means there is one), the names it was asked to
   * start traces for, and the spans it was asked to close, in order.
   */
  class Tracer {
    var current: Option<Span>
    ghost var startedNames: seq<string>
    ghost var closedSpans: seq<Span>
    const journal: Journal

    constructor(current: Option<Span>, journal: Journal)
      ensures this.current == current && startedNames == [] && closedSpans == []
      ensures this.journal == journal
    {
      this.current := current;
      startedNames := [];
      closedSpans := [];
      this.journal := journal;
    }

    method IsTracing() returns (tracing: bool)
      ensures tracing <==> current.Some?
    {
      tracing := current.Some?;
    }

    method GetCurrentSpan() returns (span: Option<Span>)
      ensures span == current
    {
      span := current;
    }

    /** Starts a span with the given name and makes it current; its ids and parents are the tracer's choice. */
    method StartTrace(name: string) returns (span: Span)
      modifies this, journal
      ensures span.name == Some(name) && current == Some(span)
      ensures startedNames == old(startedNames) + [name] && closedSpans == old(closedSpans)
      ensures journal.entries == old(journal.entries) + [Started(name)]
    {
      assert Span(0, 0, [], Some(name), None, true).name == Some(name);
      span :| span.name == Some(name);
      current := Some(span);
      startedNames := startedNames + [name];
      journal.entries := journal.entries + [Started(name)];
    }

    /** Closes a span; which span becomes current afterwards is the tracer's choice. */
    method Close(span: Span)
      modifies this, journal
      ensures closedSpans == old(closedSpans) + [span] && startedNames == old(startedNames)
      ensures journal.entries == old(journal.entries) + [Closed(span)]
    {
      var next: Option<Span> :| true;
      current := next;
      closedSpans := closedSpans + [span];
      journal.entries := journal.entries + [Closed(span)];
    }
  }

  /**
   * `AbstractTraceHttpRequestInterceptor`. Its tracer and its publisher are
   * taken to write to the same journal (`SharesJournal`), so the journal shows
   * the order of the calls it makes on them.
   */
  class TraceHttpRequestInterceptor {
    var publisher: EventPublisher?
    const tracer: Tracer

    constructor(tracer: Tracer)
      ensures this.tracer == tracer && publisher == null
    {
      this.tracer := tracer;
      publisher := null;
    }

    predicate SharesJournal()
      reads this, publisher
    {
      publisher != null ==> publisher.journal == tracer.journal
    }

    method SetApplicationEventPublisher(publisher: EventPublisher?)
      modifies this`publisher
      ensures this.publisher == publisher
    {
      this.publisher := publisher;
    }

    method IsTracing() returns (tracing: bool)
      ensures tracing <==> tracer.current.Some?
    {
      tracing := tracer.IsTracing();
    }

    method CurrentSpan() returns (span: Option<Span>)
      ensures span == tracer.current
    {
      span := tracer.GetCurrentSpan();
    }

    /** Appends the header when the value has text, the name is absent and the tracer is tracing. */
    method SetHeader(request: HttpRequest, name: string, value: Option<string>)
      modifies request
      ensures request.headers == WithHeader(old(request.headers), name, value, tracer.current.Some?)
    {
      if HasText(value) && name !in request.headers {
        var tracing := tracer.IsTracing();
        if tracing {
          request.headers := Add(request.headers, name, value.value);
        }
      }
    }

    method SetIdHeader(request: HttpRequest, name: string, value: Option<Long>)
      modifies request
      ensures request.headers == WithIdHeader(old(request.headers), name, value, tracer.current.Some?)
    {
      if value.Some? {
        SetHeader(request, name, Some(IdToHex(value.value)));
      }
    }

    method EnrichWithTraceHeaders(request: HttpRequest, span: Span)
      modifies request
      ensures request.headers == WithTraceHeaders(old(request.headers), span, tracer.current.Some?)
    {
      SetIdHeader(request, TRACE_ID_NAME, Some(span.traceId));
      SetIdHeader(request, SPAN_ID_NAME, Some(span.spanId));
      if !span.exportable {
        SetHeader(request, NOT_SAMPLED_NAME, Some(NOT_SAMPLED_VALUE));
      }
      SetHeader(request, SPAN_NAME_NAME, span.name);
      SetIdHeader(request, PARENT_ID_NAME, ParentId(span));
      SetHeader(request, PROCESS_ID_NAME, span.processId);
    }

    method DoNotSampleThisSpan(request: HttpRequest)
      modifies request
      ensures request.headers == WithNotSampled(old(request.headers), tracer.current.Some?)
    {
      SetHeader(request, NOT_SAMPLED_NAME, Some(NOT_SAMPLED_VALUE));
    }

    /** Hands the event to the publisher; without a publisher nothing happens. */
    method Publish(event: ClientEvent)
      requires SharesJournal()
      modifies publisher, tracer.journal
      ensures publisher != null ==> publisher.events == old(publisher.events) + [event]
      ensures tracer.journal.entries == old(tracer.journal.entries) + if publisher != null then [Published(event)] else []
    {
      if publisher != null {
        publisher.PublishEvent(event);
      }
    }

    /**
     * Starts a span named after the request, injects its headers (now that
     * the tracer is tracing) and publishes one sent event carrying it.
     */
    method PublishStartEvent(request: HttpRequest)
      requires SharesJournal()
      modifies request, tracer, publisher, tracer.journal
      ensures tracer.current.Some? && tracer.current.value.name == Some(SpanName(request.uri))
      ensures tracer.startedNames == old(tracer.startedNames) + [SpanName(request.uri)]
      ensures tracer.closedSpans == old(tracer.closedSpans)
      ensures request.headers == WithTraceHeaders(old(request.headers), tracer.current.value, true)
      ensures publisher != null ==> publisher.events == old(publisher.events) + [ClientSent(tracer.current.value)]
      ensures tracer.journal.entries == old(tracer.journal.entries) + [Started(SpanName(request.uri))]
        + if publisher != null then [Published(ClientSent(tracer.current.value))] else []
    {
      var uri := request.uri;
      var spanName := Render(uri.scheme) + ":" + Render(uri.path);
      var newSpan := tracer.StartTrace(spanName);
      EnrichWithTraceHeaders(request, newSpan);
      Publish(ClientSent(newSpan));
    }

    /**
     * When not tracing, touches neither tracer nor publisher. Otherwise
     * publishes one received event carrying the current span and then closes
     * that span, once; the journal shows the publish before the close.
     */
    method Finish()
      requires SharesJournal()
      modifies tracer, publisher, tracer.journal
      ensures old(tracer.current).None? ==>
        unchanged(tracer, tracer.journal) && (publisher != null ==> unchanged(publisher))
      ensures old(tracer.current).Some? ==>
        && tracer.closedSpans == old(tracer.closedSpans) + [old(tracer.current).value]
        && tracer.startedNames == old(tracer.startedNames)
        && (publisher != null ==> publisher.events == old(publisher.events) + [ClientReceived(old(tracer.current).value)])
        && tracer.journal.entries == old(tracer.journal.entries)
             + (if publisher != null then [Published(ClientReceived(old(tracer.current).value))] else [])
             + [Closed(old(tracer.current).value)]
    {
      var tracing := IsTracing();
      if !tracing {
        return;
      }
      var received := CurrentSpan();
      Publish(ClientReceived(received.value));
      var toClose := CurrentSpan();
      tracer.Close(toClose.value);
    }

    /**
     * One traced call as the concrete interceptors make it: start, then
     * finish. The span started for the request is the one closed, exactly
     * once, and the publisher sees its sent event followed by its received one.
     */
    method TracedExchange(request: HttpRequest) returns (ghost span: Span)
      requires SharesJournal()
      modifies request, tracer, publisher, tracer.journal
      ensures span.name == Some(SpanName(request.uri))
      ensures tracer.startedNames == old(tracer.startedNames) + [SpanName(request.uri)]
      ensures tracer.closedSpans == old(tracer.closedSpans) + [span]
      ensures request.headers == WithTraceHeaders(old(request.headers), span, true)
      ensures publisher != null ==> publisher.events == old(publisher.events) + [ClientSent(span), ClientReceived(span)]
      ensures tracer.journal.entries == old(tracer.journal.entries) + [Started(SpanName(request.uri))]
        + (if publisher != null then [Published(ClientSent(span)), Published(ClientReceived(span))] else [])
        + [Closed(span)]
    {
      PublishStartEvent(request);
      span := tracer.current.value;
      Finish();
    }
  }
}
