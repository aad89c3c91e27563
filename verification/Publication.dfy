/** What the client hands to its ingest callback, and how a session's history accounts for it:
    status changes become south events, invalidated points become quality updates, everything
    else publishes nothing. */
module Publication {
  import opened Exchange
  import opened Reception
  import opened Session
  import Supervisor

  datatype QualityDescriptor = Invalid | NonTopical

  /** A call of the ingest callback: a received data point, a quality update, or a south event. */
  datatype Ingested =
    | Value(tag: string, point: Datapoint)
    | Quality(tag: string, definition: Definition, quality: QualityDescriptor)
    | GiEvent(tag: string, gi: GiStatus)
    | ConnectionEvent(tag: string, connection: Supervisor.ConnectionStatus)

  /** One quality update for each of the first `n` points, under its own tag. */
  function QualityUpdates(points: seq<Definition>, n: nat, qd: QualityDescriptor): seq<Ingested>
    requires n <= |points|
  {
    if n == 0 then [] else QualityUpdates(points, n - 1, qd) + [Quality(points[n - 1].tag, points[n - 1], qd)]
  }

  function InvalidUpdates(points: seq<Definition>): seq<Ingested> {
    QualityUpdates(points, |points|, Invalid)
  }

  /** The quality updates among the calls. */
  function QualityCalls(calls: seq<Ingested>): seq<Ingested> {
    if calls == [] then [] else (if calls[0].Quality? then [calls[0]] else []) + QualityCalls(calls[1..])
  }

  /** South events go out under the configured signal, and not at all without one. */
  function SouthEvent(signal: string, event: Ingested): seq<Ingested> {
    if signal == "" then [] else [event]
  }

  /** What one entry of a history stands for. */
  function Output(signal: string, e: Entry): seq<Ingested> {
    match e
    case StatusIs(status) => SouthEvent(signal, GiEvent(signal, status))
    case Invalidated(points) => InvalidUpdates(points)
    case _ => []
  }

  function Emitted(signal: string, h: History): seq<Ingested> {
    match h
    case Nothing => []
    case Then(past, e) => Emitted(signal, past) + Output(signal, e)
  }

  /** What a history that grew from `before` to `after` stands for. */
  function Gained(signal: string, before: History, after: History): seq<Ingested>
    requires Emitted(signal, before) <= Emitted(signal, after)
  {
    Emitted(signal, after)[|Emitted(signal, before)|..]
  }

  /** The calls grew from `i0` to `i1` by exactly what the history gained. */
  predicate Adds(signal: string, before: History, after: History, i0: seq<Ingested>, i1: seq<Ingested>) {
    Emitted(signal, before) <= Emitted(signal, after) && i1 == i0 + Gained(signal, before, after)
  }

  lemma AddsNothing(signal: string, h: History, i: seq<Ingested>)
    ensures Adds(signal, h, h, i, i)
  {
  }

  lemma AddsOne(signal: string, h: History, e: Entry, i: seq<Ingested>)
    ensures Adds(signal, h, History.Then(h, e), i, i + Output(signal, e))
  {
    assert Emitted(signal, History.Then(h, e)) == Emitted(signal, h) + Output(signal, e);
  }

  /** An entry that stands for nothing. */
  lemma AddsSilently(signal: string, h: History, e: Entry, i: seq<Ingested>)
    requires !e.StatusIs? && !e.Invalidated?
    ensures Adds(signal, h, History.Then(h, e), i, i)
  {
    AddsOne(signal, h, e, i);
    assert i + [] == i;
  }

  lemma SuffixesAdd(a: seq<Ingested>, b: seq<Ingested>, c: seq<Ingested>)
    requires a <= b <= c
    ensures a <= c && c[|a|..] == b[|a|..] + c[|b|..]
  {
  }

  lemma AddsCompose(signal: string, h0: History, h1: History, h2: History,
                    i0: seq<Ingested>, i1: seq<Ingested>, i2: seq<Ingested>)
    requires Adds(signal, h0, h1, i0, i1) && Adds(signal, h1, h2, i1, i2)
    ensures Adds(signal, h0, h2, i0, i2)
  {
    hide Emitted;
    SuffixesAdd(Emitted(signal, h0), Emitted(signal, h1), Emitted(signal, h2));
  }
}
