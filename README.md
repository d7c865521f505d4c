# Client-side trace propagation for outgoing HTTP requests

This project models `AbstractTraceHttpRequestInterceptor` from Spring Cloud Sleuth and proves properties of the model in Dafny. This is the base class of Sleuth's HTTP client interceptors. When an outgoing request starts, it asks the tracer for a new span named `scheme:path`. It then copies that span's identity into six request headers and publishes a "client sent" event. When the request finishes, and only while the tracer is tracing, it publishes a "client received" event and closes the current span.

The files:

- `java_lang.dfy` (module `JavaLang`): nullable values (`Option`), Java's signed `long`, how a null String prints inside a concatenation, `Character.isWhitespace`, and Spring's `StringUtils.hasText`.
- `span.dfy` (module `Spans`): the `Span` fields the interceptor reads, and `IdToHex`, the hexadecimal wire form of ids. `IdToHex` is paired with its inverse `ParseHex`.
- `trace_headers.dfy` (module `TraceHeaders`): the injection rules as functions on the header map (`map<string, seq<string>>`). These are `WithHeader` (`setHeader`), `WithIdHeader` (`setIdHeader`), `ParentId` (`getParentId`), `WithNotSampled` (`doNotSampleThisSpan`) and `WithTraceHeaders` (`enrichWithTraceHeaders`). The module also holds the lemmas about these rules. Two independent descriptions back the lemmas: `ApplyWrites` is a fold over the six writes, and `FreshTraceHeaders` is the header set a clean request receives.
- `interceptor.dfy` (module `Interceptor`): the classes. `HttpRequest` has a header map that is updated in place. `EventPublisher` keeps a log of published events. `Tracer` is the collaborator, kept as abstract state: the current span (tracing means a current span exists), a ghost log of the names passed to `startTrace`, and a ghost log of the spans passed to `close`. A ghost `Journal` shared by the tracer and the publisher records their calls in the order they happen. `startTrace`, `publishEvent` and `close` each append their own entry to it. `TraceHttpRequestInterceptor` has the nullable `publisher` field and the `tracer`. Each interceptor method is proved to leave the request headers equal to the matching `TraceHeaders` function of the old headers. Each is also proved to extend the tracer log, the publisher log and the journal by exactly the calls the Java method makes on the tracer and the publisher, in the order it makes them.

Behaviour worth noting:

- `doNotSampleThisSpan` writes through `setHeader`, so it passes the same gate as every other header. It writes the not-sampled marker only while the tracer is tracing and only when the request does not already carry one.
- Ids are Java `long`s, which are signed. The model assumes that `Span.idToHex` writes an id the way `Long.toHexString` does, so a negative id is written as the hex of its 64-bit two's-complement value.
- The span-name and process-id headers are written only when their value passes `StringUtils.hasText`. A value made only of whitespace is skipped, the same as a null or an empty one.
- The publisher is a nullable field. It is set by `setApplicationEventPublisher`, and `publish` sends nothing while it is null.
- `finish` calls `currentSpan()` twice: once for the event and once for `close`. The model does the same. The two calls return the same span because the model assumes that publishing leaves the tracer alone (see "Left out").

## Model

| member | source | states |
|---|---|---|
| `JavaLang.NoTextWhenBlank` | spring-cloud-sleuth-core/src/main/java/org/springframework/cloud/sleuth/instrument/web/client/AbstractTraceHttpRequestInterceptor.java:74 | a null, empty or all-whitespace value never passes the text test of the gate |
| `Spans.IdToHex` | spring-cloud-sleuth-core/src/main/java/org/springframework/cloud/sleuth/instrument/web/client/AbstractTraceHttpRequestInterceptor.java:82 | an id's header value is a non-empty string of lower-case hex digits, so it always has text |
| `Spans.IdToHexRoundTrip` | spring-cloud-sleuth-core/src/main/java/org/springframework/cloud/sleuth/instrument/web/client/AbstractTraceHttpRequestInterceptor.java:82 | parsing the hex header value gives back the id's unsigned 64-bit value |
| `Spans.IdToHexInjective` | spring-cloud-sleuth-core/src/main/java/org/springframework/cloud/sleuth/instrument/web/client/AbstractTraceHttpRequestInterceptor.java:82 | different ids never produce the same header value |
| `Spans.IdToHexExamples` | spring-cloud-sleuth-core/src/main/java/org/springframework/cloud/sleuth/instrument/web/client/AbstractTraceHttpRequestInterceptor.java:82 | 255 is written "ff", 16 is "10", 0 is "0" |
| `TraceHeaders.WithHeaderSpec` | spring-cloud-sleuth-core/src/main/java/org/springframework/cloud/sleuth/instrument/web/client/AbstractTraceHttpRequestInterceptor.java:73-78 | existing headers keep their values; no name except `name` appears; `name` is present afterwards iff it was before or (value has text, name absent, tracing); a new header holds exactly [value]; the map changes iff all three gate conditions hold |
| `TraceHeaders.WithIdHeaderSpec` | spring-cloud-sleuth-core/src/main/java/org/springframework/cloud/sleuth/instrument/web/client/AbstractTraceHttpRequestInterceptor.java:80-84 | a null id leaves the map unchanged; a non-null id is written as [hex] when the name is absent and the tracer is tracing, otherwise the map is unchanged |
| `TraceHeaders.WithNotSampledSpec` | spring-cloud-sleuth-core/src/main/java/org/springframework/cloud/sleuth/instrument/web/client/AbstractTraceHttpRequestInterceptor.java:69-71 | the opt-out changes nothing when not tracing or when the marker is already set; while tracing on a request without the marker, it adds exactly the marker "true" |
| `TraceHeaders.WithTraceHeadersIsApplyWrites` | spring-cloud-sleuth-core/src/main/java/org/springframework/cloud/sleuth/instrument/web/client/AbstractTraceHttpRequestInterceptor.java:54-63 | the six gated writes, in the order `enrichWithTraceHeaders` makes them, are one fold of `setHeader` over (name, value) pairs; a null id, an exportable span's marker and a missing parent become null values that the gate rejects |
| `TraceHeaders.WithTraceHeadersPreserves` | spring-cloud-sleuth-core/src/main/java/org/springframework/cloud/sleuth/instrument/web/client/AbstractTraceHttpRequestInterceptor.java:54-63 | injection keeps every existing header with its values, adds no name outside the six trace headers, and changes nothing when the tracer is not tracing |
| `TraceHeaders.WithTraceHeadersIdempotent` | spring-cloud-sleuth-core/src/main/java/org/springframework/cloud/sleuth/instrument/web/client/AbstractTraceHttpRequestInterceptor.java:54-63 | injecting the same span twice gives the same header map as injecting it once |
| `TraceHeaders.NotSampledMarksNonExportable` | spring-cloud-sleuth-core/src/main/java/org/springframework/cloud/sleuth/instrument/web/client/AbstractTraceHttpRequestInterceptor.java:57-59 | while tracing, on a request without the marker, the not-sampled header is present iff the span is not exportable, and its value is ["true"] |
| `TraceHeaders.ParentIdFromFirstParent` | spring-cloud-sleuth-core/src/main/java/org/springframework/cloud/sleuth/instrument/web/client/AbstractTraceHttpRequestInterceptor.java:61-67 | on a request without a parent-id header, one is written iff the span has parents and the tracer is tracing, with value [hex(parents[0])] |
| `TraceHeaders.FreshRequestHeaders` | spring-cloud-sleuth-core/src/main/java/org/springframework/cloud/sleuth/instrument/web/client/AbstractTraceHttpRequestInterceptor.java:54-63 | while tracing, a request holding none of the six names ends up with its old headers plus exactly the span's reference header set `FreshTraceHeaders` |
| `TraceHeaders.SampledRootSpanExample` | spring-cloud-sleuth-core/src/main/java/org/springframework/cloud/sleuth/instrument/web/client/AbstractTraceHttpRequestInterceptor.java:54-63 | a sampled root span with trace id 255, span id 16 and no name or process id gives exactly {trace-id: ["ff"], span-id: ["10"]} |
| `TraceHeaders.DoNotSampleExample` | spring-cloud-sleuth-core/src/main/java/org/springframework/cloud/sleuth/instrument/web/client/AbstractTraceHttpRequestInterceptor.java:69-78 | on an empty request while tracing, the opt-out leaves only the not-sampled marker; while not tracing, it changes nothing |
| `Interceptor.SpanNameExamples` | spring-cloud-sleuth-core/src/main/java/org/springframework/cloud/sleuth/instrument/web/client/AbstractTraceHttpRequestInterceptor.java:91-92 | `https` with `/orders/42` names the span "https:/orders/42"; an empty path gives "http:"; a null scheme prints as "null" |
| `Interceptor.SpanNameDeterminesUri` | spring-cloud-sleuth-core/src/main/java/org/springframework/cloud/sleuth/instrument/web/client/AbstractTraceHttpRequestInterceptor.java:92 | when no scheme contains ':', two requests with the same span name have the same rendered scheme and path |
| `Interceptor.EventPublisher.PublishEvent` | spring-cloud-sleuth-core/src/main/java/org/springframework/cloud/sleuth/instrument/web/client/AbstractTraceHttpRequestInterceptor.java:111 | the published event is appended to the publisher's log, and a publish entry for it to the journal |
| `Interceptor.Tracer.IsTracing` | spring-cloud-sleuth-core/src/main/java/org/springframework/cloud/sleuth/instrument/web/client/AbstractTraceHttpRequestInterceptor.java:75 | the tracer is tracing exactly when it has a current span |
| `Interceptor.Tracer.GetCurrentSpan` | spring-cloud-sleuth-core/src/main/java/org/springframework/cloud/sleuth/instrument/web/client/AbstractTraceHttpRequestInterceptor.java:115-117 | returns the current span, if there is one |
| `Interceptor.Tracer.StartTrace` | spring-cloud-sleuth-core/src/main/java/org/springframework/cloud/sleuth/instrument/web/client/AbstractTraceHttpRequestInterceptor.java:93 | the collaborator's contract: it records the requested name, appends a start entry to the journal and makes a span with that name current; the span's ids and parents are its own choice |
| `Interceptor.Tracer.Close` | spring-cloud-sleuth-core/src/main/java/org/springframework/cloud/sleuth/instrument/web/client/AbstractTraceHttpRequestInterceptor.java:106 | the collaborator's contract: it appends the span to the closed log and a close entry to the journal, and chooses the next current span itself |
| `Interceptor.TraceHttpRequestInterceptor.constructor` | spring-cloud-sleuth-core/src/main/java/org/springframework/cloud/sleuth/instrument/web/client/AbstractTraceHttpRequestInterceptor.java:45-47 | the interceptor keeps the given tracer and starts with no publisher |
| `Interceptor.TraceHttpRequestInterceptor.SetApplicationEventPublisher` | spring-cloud-sleuth-core/src/main/java/org/springframework/cloud/sleuth/instrument/web/client/AbstractTraceHttpRequestInterceptor.java:49-52 | the publisher field becomes the given (possibly null) publisher |
| `Interceptor.TraceHttpRequestInterceptor.IsTracing` | spring-cloud-sleuth-core/src/main/java/org/springframework/cloud/sleuth/instrument/web/client/AbstractTraceHttpRequestInterceptor.java:119-121 | reports the tracer's tracing state |
| `Interceptor.TraceHttpRequestInterceptor.CurrentSpan` | spring-cloud-sleuth-core/src/main/java/org/springframework/cloud/sleuth/instrument/web/client/AbstractTraceHttpRequestInterceptor.java:115-117 | returns the tracer's current span |
| `Interceptor.TraceHttpRequestInterceptor.SetHeader` | spring-cloud-sleuth-core/src/main/java/org/springframework/cloud/sleuth/instrument/web/client/AbstractTraceHttpRequestInterceptor.java:73-78 | the request's headers become `WithHeader` of the old headers under the tracer's current tracing state |
| `Interceptor.TraceHttpRequestInterceptor.SetIdHeader` | spring-cloud-sleuth-core/src/main/java/org/springframework/cloud/sleuth/instrument/web/client/AbstractTraceHttpRequestInterceptor.java:80-84 | the request's headers become `WithIdHeader` of the old headers |
| `Interceptor.TraceHttpRequestInterceptor.EnrichWithTraceHeaders` | spring-cloud-sleuth-core/src/main/java/org/springframework/cloud/sleuth/instrument/web/client/AbstractTraceHttpRequestInterceptor.java:54-63 | the request's headers become `WithTraceHeaders` of the old headers, the span and the tracing state |
| `Interceptor.TraceHttpRequestInterceptor.DoNotSampleThisSpan` | spring-cloud-sleuth-core/src/main/java/org/springframework/cloud/sleuth/instrument/web/client/AbstractTraceHttpRequestInterceptor.java:69-71 | the request's headers become `WithNotSampled` of the old headers and the tracing state |
| `Interceptor.TraceHttpRequestInterceptor.Publish` | spring-cloud-sleuth-core/src/main/java/org/springframework/cloud/sleuth/instrument/web/client/AbstractTraceHttpRequestInterceptor.java:109-113 | a non-null publisher gets exactly this event appended, and the journal gets one publish entry for it, the one the publisher writes; with a null publisher neither changes |
| `Interceptor.TraceHttpRequestInterceptor.PublishStartEvent` | spring-cloud-sleuth-core/src/main/java/org/springframework/cloud/sleuth/instrument/web/client/AbstractTraceHttpRequestInterceptor.java:90-96 | the tracer receives exactly the name scheme + ":" + path and its new current span has that name; the headers become the injection of that span with tracing on; exactly one sent event carrying that span is published; no span is closed; the journal grows by the tracer's start entry and then, if a publisher is set, the publisher's entry for the sent event |
| `Interceptor.TraceHttpRequestInterceptor.Finish` | spring-cloud-sleuth-core/src/main/java/org/springframework/cloud/sleuth/instrument/web/client/AbstractTraceHttpRequestInterceptor.java:101-107 | when not tracing, neither tracer nor publisher changes; when tracing, the publisher gets exactly one received event carrying the current span, and that span is appended to the tracer's closed log exactly once; in the journal, the publisher's entry for the received event comes before the tracer's close entry for that span, so closing first does not meet the contract |
| `Interceptor.TraceHttpRequestInterceptor.TracedExchange` | spring-cloud-sleuth-core/src/main/java/org/springframework/cloud/sleuth/instrument/web/client/AbstractTraceHttpRequestInterceptor.java:86-107 | a start followed by a finish closes the span started for the request exactly once; the publisher sees that span's sent event and then its received event; the journal reads start, sent, received, close, in that order |

## Left out

- Tracer internals are not modelled: span creation, sampling, thread-local storage of the current span, and restoring the saved span on close. `StartTrace` and `Close` are given only the contracts above, and the tracer's own choices are made nondeterministically.
- Concurrent use of one interceptor by several in-flight requests is not modelled. Each call runs alone.
- `ApplicationEventPublisher` dispatch and listeners are modelled only as an append to an event log.
- Interceptor.TraceHttpRequestInterceptor.Finish: the model assumes that publishing the received event leaves the tracer's current span alone. In Spring, a listener runs inside `publishEvent` and could change the current span. Then the second `currentSpan()` call in `finish` could return a different span from the one in the event, and the model does not cover that case.
- Interceptor.TraceHttpRequestInterceptor.SharesJournal: the journal is a modelling device. The methods that publish or close require that a non-null publisher writes to the tracer's journal. No Java object corresponds to it; it only lets the contracts speak about the order of calls across the two collaborators.
- Interceptor.Tracer.StartTrace: the model's tracer always makes the new span current. So `PublishStartEvent` and `TracedExchange` are proved only for the case where the tracer is tracing after `startTrace`. A tracer whose `startTrace` leaves no span current would make the header writes in `publishStartEvent` skip through the gate, and that case is not modelled.
- Exceptions are not modelled. A listener or tracer exception would propagate and could, in the source, skip the `close` in `finish`.
- `ClientEvent` does not carry the event source, which is the interceptor reference.
- `java.net.URI` parsing is not modelled: the scheme and the path are given as (possibly null) strings.
- Header names are compared as exact strings. Spring's case-insensitive `HttpHeaders` keys are not modelled.
- The body of `Span.idToHex` is not part of this model. `IdToHex` is assumed to give it the lower-case, no-leading-zero hexadecimal form of the id's unsigned 64-bit value. The interceptor's contracts rely only on that value having text.
- The values of the `Span` header-name constants are not part of this model. Six distinct symbolic names (`trace-id`, `span-id`, `not-sampled`, `span-name`, `parent-id`, `process-id`) stand in for them.
- A null span, a null parent list and a null element in it are not modelled. In the source these raise a `NullPointerException` (or, for a null element, write no parent header). Here a span's parents are a list of non-null ids.
