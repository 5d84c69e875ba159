/**
 * The post-processing of `classify_remodnav`: the events REMoDNaV returns are
 * timed from the start of the preprocessed data; they are shifted in place to
 * the caller's time origin `times[0]`, then split into start times and names.
 */
module RemodnavAdapter {
  import opened Wrappers
  import opened Taxonomy
  import opened Outputs

  /** One REMoDNaV event record: `start_time`, `end_time` and its four-letter `label`. */
  datatype Event = Event(startTime: real, endTime: real, code: string)

  function Duration(e: Event): real {
    e.endTime - e.startTime
  }

  /** One event moved by `offset`. */
  function Shift(e: Event, offset: real): (r: Event)
    ensures r.code == e.code && Duration(r) == Duration(e)
    ensures r.startTime - e.startTime == offset && r.endTime - e.endTime == offset
  {
    e.(startTime := e.startTime + offset, endTime := e.endTime + offset)
  }

  /** Every event moved to the time origin `origin`. */
  function Realigned(es: seq<Event>, origin: real): (r: seq<Event>)
    ensures |r| == |es|
    decreases |es|
  {
    if es == [] then [] else [Shift(es[0], origin)] + Realigned(es[1..], origin)
  }

  lemma {:induction false} RealignedAt(es: seq<Event>, origin: real, k: nat)
    requires k < |es|
    ensures Realigned(es, origin)[k] == Shift(es[k], origin)
    decreases |es|
  {
    if k > 0 {
      RealignedAt(es[1..], origin, k - 1);
    }
  }

  /**
   * After re-alignment each event starts and ends `origin` later, keeps its
   * duration and its label, and the event count is unchanged.
   */
  lemma RealignedEvents(es: seq<Event>, origin: real)
    ensures |Realigned(es, origin)| == |es|
    ensures forall k :: 0 <= k < |es| ==>
              Realigned(es, origin)[k].startTime == es[k].startTime + origin &&
              Realigned(es, origin)[k].endTime == es[k].endTime + origin &&
              Duration(Realigned(es, origin)[k]) == Duration(es[k]) &&
              Realigned(es, origin)[k].code == es[k].code
  {
    forall k | 0 <= k < |es|
      ensures Realigned(es, origin)[k] == Shift(es[k], origin)
    {
      RealignedAt(es, origin, k);
    }
  }

  /** Shifting back by the same origin restores the backend's local times. */
  lemma {:induction false} RealignedUndo(es: seq<Event>, origin: real)
    ensures Realigned(Realigned(es, origin), -origin) == es
    decreases |es|
  {
    if es != [] {
      RealignedUndo(es[1..], origin);
      assert Realigned(es, origin)[1..] == Realigned(es[1..], origin);
    }
  }

  /** Two re-alignments are one, by the sum of the offsets. */
  lemma {:induction false} RealignedCompose(es: seq<Event>, a: real, b: real)
    ensures Realigned(Realigned(es, a), b) == Realigned(es, a + b)
    decreases |es|
  {
    if es != [] {
      RealignedCompose(es[1..], a, b);
      assert Realigned(es, a)[1..] == Realigned(es[1..], a);
    }
  }

  /** The loop of `classify_remodnav` that adds `times[0]` to every event's start and end time. */
  method Realign(events: array<Event>, origin: real)
    modifies events
    ensures events[..] == Realigned(old(events[..]), origin)
  {
    var i := 0;
    while i < events.Length
      invariant 0 <= i <= events.Length
      invariant forall k :: 0 <= k < i ==> events[k] == Shift(old(events[k]), origin)
      invariant forall k :: i <= k < events.Length ==> events[k] == old(events[k])
    {
      events[i] := events[i].(startTime := events[i].startTime + origin);
      events[i] := events[i].(endTime := events[i].endTime + origin);
      i := i + 1;
    }
    forall k | 0 <= k < events.Length
      ensures events[..][k] == Realigned(old(events[..]), origin)[k]
    {
      RealignedAt(old(events[..]), origin, k);
    }
  }

  function Starts(es: seq<Event>): (r: seq<real>)
    ensures |r| == |es| && forall i :: 0 <= i < |es| ==> r[i] == es[i].startTime
  {
    seq(|es|, i requires 0 <= i < |es| => es[i].startTime)
  }

  function Codes(es: seq<Event>): (r: seq<string>)
    ensures |r| == |es| && forall i :: 0 <= i < |es| ==> r[i] == es[i].code
  {
    seq(|es|, i requires 0 <= i < |es| => es[i].code)
  }

  /**
   * `zip(*[(ev["start_time"], class_dict[ev["label"]]) for ev in events])`:
   * the start times and the names, in event order. A code outside the table is a
   * KeyError; no events at all leave nothing to unpack, a ValueError.
   */
  function ExtractSegments(events: seq<Event>, simple: bool): (r: Result<(seq<real>, seq<string>), Error>)
    ensures r.Success? <==>
              |events| > 0 && forall i :: 0 <= i < |events| ==> events[i].code in RemodnavCodes
    ensures r.Success? ==>
              |r.value.0| == |events| && |r.value.1| == |events| &&
              forall i :: 0 <= i < |events| ==>
                r.value.0[i] == events[i].startTime &&
                r.value.1[i] == RemodnavTable(simple)[events[i].code]
    ensures r.Success? && simple ==> forall i :: 0 <= i < |events| ==> r.value.1[i] in BaseCategories
    ensures r.Failure? && |events| == 0 ==> r.error == NoEvents
    ensures r.Failure? && |events| > 0 ==>
              r.error.UnknownRemodnavLabel? && r.error.code !in RemodnavCodes &&
              exists i :: 0 <= i < |events| && events[i].code == r.error.code &&
                forall j :: 0 <= j < i ==> events[j].code in RemodnavCodes
  {
    var table := RemodnavTable(simple);
    match Translate(table, Codes(events))
    case Failure(code) => Failure(UnknownRemodnavLabel(code))
    case Success(classes) =>
      if |events| == 0 then Failure(NoEvents) else Success((Starts(events), classes))
  }

  /** What `classify_remodnav` does with the re-aligned events: extraction, format, return shape. */
  function Finish(events: seq<Event>, times: seq<real>, simple: bool, returnDiscrete: bool,
                  returnOrig: bool, toContinuous: Converter<string>)
    : (r: Result<Output<seq<Event>>, Error>)
    // extraction comes first: its failure is the result
    ensures ExtractSegments(events, simple).Failure? ==>
              r == Failure(ExtractSegments(events, simple).error)
    ensures returnDiscrete ==> (r.Success? <==> ExtractSegments(events, simple).Success?)
    ensures r.Success? && returnDiscrete ==>
              r.value.segments == ExtractSegments(events, simple).value.0 &&
              r.value.classes == ExtractSegments(events, simple).value.1
    // continuous format: the converter's result or its exception
    ensures !returnDiscrete && ExtractSegments(events, simple).Success? ==>
              var e := ExtractSegments(events, simple).value;
              var c := toContinuous(times, e.0, e.1);
              (r.Success? <==> c.Success?) &&
              (c.Failure? ==> r == Failure(c.error)) &&
              (c.Success? ==> (r.value.segments, r.value.classes) == c.value)
    ensures r.Success? ==> (r.value.Triple? <==> returnOrig)
    ensures r.Success? && r.value.Triple? ==> r.value.orig == events
  {
    match ExtractSegments(events, simple)
    case Failure(e) => Failure(e)
    case Success(discrete) =>
      var converted := if returnDiscrete then Success(discrete) else toContinuous(times, discrete.0, discrete.1);
      match converted
      case Failure(e) => Failure(e)
      case Success(pair) => Success(Package(pair.0, pair.1, events, returnOrig))
  }

  /**
   * `classify_remodnav` after the backend call, given its events. `times[0]` is
   * read only inside the loop, so with no events an empty `times` is never indexed.
   */
  method ClassifyRemodnav(events: array<Event>, times: seq<real>, simple: bool, returnDiscrete: bool,
                          returnOrig: bool, toContinuous: Converter<string>)
    returns (r: Result<Output<seq<Event>>, Error>)
    modifies events
    ensures events.Length > 0 && |times| == 0 ==>
              r == Failure(EmptyTimes) && events[..] == old(events[..])
    ensures events.Length > 0 && |times| > 0 ==>
              events[..] == Realigned(old(events[..]), times[0])
    ensures events.Length == 0 ==> r == Failure(NoEvents)
    ensures events.Length > 0 && |times| > 0 ==>
              r == Finish(events[..], times, simple, returnDiscrete, returnOrig, toContinuous)
  {
    if events.Length > 0 {
      if |times| == 0 {
        return Failure(EmptyTimes);
      }
      Realign(events, times[0]);
    }
    r := Finish(events[..], times, simple, returnDiscrete, returnOrig, toContinuous);
  }

  /**
   * Discrete output after re-alignment: one segment per event, starting at the
   * event's local start plus the caller's origin.
   */
  lemma RealignedSegments(local: seq<Event>, origin: real, simple: bool)
    requires ExtractSegments(local, simple).Success?
    ensures ExtractSegments(Realigned(local, origin), simple).Success?
    ensures var (segments, classes) := ExtractSegments(Realigned(local, origin), simple).value;
            |segments| == |classes| == |local| &&
            forall i :: 0 <= i < |local| ==>
              segments[i] == local[i].startTime + origin &&
              classes[i] == ExtractSegments(local, simple).value.1[i]
  {
    RealignedEvents(local, origin);
  }

  /**
   * A recording timed from 10.0 whose first local event starts at 0.0 yields a
   * first segment at 10.0, the caller's first time stamp, not at 0.0.
   */
  lemma FirstSegmentAtOrigin(local: seq<Event>, times: seq<real>, simple: bool)
    requires |times| > 0 && ExtractSegments(local, simple).Success?
    requires local[0].startTime == 0.0
    ensures ExtractSegments(Realigned(local, times[0]), simple).Success?
    ensures ExtractSegments(Realigned(local, times[0]), simple).value.0[0] == times[0]
  {
    RealignedSegments(local, times[0], simple);
  }

  /** Asking for the original events changes only the shape of the result. */
  lemma RemodnavReturnShape(events: seq<Event>, times: seq<real>, simple: bool, returnDiscrete: bool,
                            toContinuous: Converter<string>)
    ensures var with := Finish(events, times, simple, returnDiscrete, true, toContinuous);
            var without := Finish(events, times, simple, returnDiscrete, false, toContinuous);
            with.Success? == without.Success? &&
            (with.Success? ==>
               with.value.Triple? && without.value.Pair? &&
               with.value.segments == without.value.segments &&
               with.value.classes == without.value.classes) &&
            (with.Failure? ==> with.error == without.error)
  {
  }
}
