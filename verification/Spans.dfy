/**
 The span rows every part of the debugger works on, and the order in which
 the store returns them and the tree view shows them.
 */
module Spans {

  datatype Option<+T> = None | Some(value: T)

  // Span and trace ids are fixed-width byte strings shown in hex; two hex
  // strings of one width compare like the numbers they denote.
  type SpanId = nat
  type TraceId = nat

  // Nanoseconds since the epoch.
  type Time = nat

  /** An attribute value; bytes, arrays and nested maps are carried opaquely. */
  datatype AttrVal = S(s: string) | I(i: int) | F(f: real) | B(b: bool) | X(json: string)

  /** An attribute key; one with an index, such as gen_ai.prompt.0.content, is
      kept in its parts. */
  datatype AttrKey = K(name: string) | At(prefix: string, i: nat, field: string)

  /** The attributes column: NULL, text that is no JSON object, or an object. */
  datatype Attrs = NoAttrs | Raw(text: string) | Obj(fields: map<AttrKey, AttrVal>)

  datatype Span = Span(
    id: SpanId,
    trace: TraceId,
    parent: Option<SpanId>,
    kind: string,
    name: string,
    start: Option<Time>,
    end: Option<Time>,
    duration: Option<int>,
    status: string,
    error: Option<string>,
    cost: Option<real>,
    tokensIn: Option<int>,
    tokensOut: Option<int>,
    tokensCached: Option<int>,
    model: Option<string>,
    provider: Option<string>,
    temperature: Option<real>,
    promptHash: Option<string>,
    cacheable: Option<bool>,
    redacted: bool,
    attrs: Attrs)

  /** A missing start sorts before every timestamp, as the empty string does. */
  function StartRank(s: Span): nat {
    match s.start
    case None => 0
    case Some(t) => t + 1
  }

  /** Siblings and rows are ordered by start time, then by id. */
  predicate Before(a: Span, b: Span) {
    StartRank(a) < StartRank(b) || (StartRank(a) == StartRank(b) && a.id < b.id)
  }

  ghost predicate DistinctIds(spans: seq<Span>) {
    forall i, j :: 0 <= i < j < |spans| ==> spans[i].id != spans[j].id
  }

  ghost predicate SortedSpans(spans: seq<Span>) {
    forall i, j :: 0 <= i < j < |spans| ==> Before(spans[i], spans[j])
  }
}
