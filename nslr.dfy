/**
 * The post-processing of `classify_nslr_hmm`: what is done with the three values
 * `nslr_hmm.classify_gaze` returns.
 */
module NslrAdapter {
  import opened Wrappers
  import opened Taxonomy
  import opened Outputs

  /** A backend segment; `t` holds its sample times, the first being its start. */
  datatype Segment = Segment(t: seq<real>)

  /** The backend's result `(sample_class, seg, seg_class)`, handed in rather than computed. */
  datatype Classification =
    Classification(sampleClass: seq<NslrId>, segmentation: seq<Segment>, segClass: seq<NslrId>)

  /** `[s.t[0] for s in seg.segments]`; a segment without times raises IndexError. */
  function SegmentStarts(segs: seq<Segment>): (r: Result<seq<real>, Error>)
    ensures r.Success? <==> forall i :: 0 <= i < |segs| ==> |segs[i].t| > 0
    ensures r.Success? ==> |r.value| == |segs|
    ensures r.Success? ==> forall i :: 0 <= i < |segs| ==> r.value[i] == segs[i].t[0]
    ensures r.Failure? ==> r.error == EmptySegment
    decreases |segs|
  {
    if segs == [] then Success([])
    else if |segs[0].t| == 0 then Failure(EmptySegment)
    else
      match SegmentStarts(segs[1..])
      case Success(rest) => Success([segs[0].t[0]] + rest)
      case Failure(e) => Failure(e)
  }

  /** `[CLASSES[i] for i in classes]`: fails on the first id outside the table. */
  function MapClasses(ids: seq<NslrId>): (r: Result<seq<string>, Error>)
    ensures r.Success? <==> forall i :: 0 <= i < |ids| ==> !ids[i].Other?
    ensures r.Success? ==> |r.value| == |ids|
    ensures r.Success? ==> forall i :: 0 <= i < |ids| ==> r.value[i] == Classes[ids[i]]
    ensures r.Failure? ==> r.error.UnknownNslrClass? && r.error.id.Other?
    ensures r.Failure? ==>
              exists i :: 0 <= i < |ids| && ids[i].Other? && ids[i] == r.error.id &&
                forall j :: 0 <= j < i ==> !ids[j].Other?
  {
    match Translate(Classes, ids)
    case Success(names) => Success(names)
    case Failure(id) => Failure(UnknownNslrClass(id))
  }

  /**
   * `classify_nslr_hmm` after the backend call: segment starts, optional conversion
   * to continuous format (on the raw ids), the mapping through `CLASSES`, and the
   * return shape.
   */
  function ClassifyNslrHmm(time: seq<real>, backend: Classification, returnDiscrete: bool,
                           returnOrig: bool, toContinuous: Converter<NslrId>)
    : (r: Result<Output<Classification>, Error>)
    // the starts are taken first, so an empty segment fails before anything else
    ensures (exists i :: 0 <= i < |backend.segmentation| && |backend.segmentation[i].t| == 0)
            ==> r == Failure(EmptySegment)
    // discrete format: one start per segment, one name per backend id
    ensures returnDiscrete && SegmentStarts(backend.segmentation).Success? ==>
              (r.Success? <==> forall i :: 0 <= i < |backend.segClass| ==> !backend.segClass[i].Other?) &&
              (r.Failure? ==> r.error == MapClasses(backend.segClass).error)
    ensures returnDiscrete && r.Success? ==>
              |r.value.segments| == |backend.segmentation| &&
              (forall i :: 0 <= i < |backend.segmentation| ==>
                 r.value.segments[i] == backend.segmentation[i].t[0]) &&
              |r.value.classes| == |backend.segClass| &&
              forall i :: 0 <= i < |backend.segClass| ==> r.value.classes[i] == Classes[backend.segClass[i]]
    // continuous format: a failing converter's exception passes through unchanged
    ensures !returnDiscrete && SegmentStarts(backend.segmentation).Success? ==>
              var c := toContinuous(time, SegmentStarts(backend.segmentation).value, backend.segClass);
              c.Failure? ==> r == Failure(c.error)
    // continuous format: otherwise the converter's ids are what get named
    ensures !returnDiscrete && SegmentStarts(backend.segmentation).Success? ==>
              var c := toContinuous(time, SegmentStarts(backend.segmentation).value, backend.segClass);
              c.Success? ==>
                (r.Success? <==> forall i :: 0 <= i < |c.value.1| ==> !c.value.1[i].Other?) &&
                (r.Failure? ==> r.error == MapClasses(c.value.1).error) &&
                (r.Success? ==>
                   r.value.segments == c.value.0 && |r.value.classes| == |c.value.1| &&
                   forall i :: 0 <= i < |c.value.1| ==>
                     c.value.1[i] in Classes && r.value.classes[i] == Classes[c.value.1[i]])
    // the backend's output is surfaced verbatim iff asked for
    ensures r.Success? ==> (r.value.Triple? <==> returnOrig)
    ensures r.Success? && r.value.Triple? ==> r.value.orig == backend
  {
    match SegmentStarts(backend.segmentation)
    case Failure(e) => Failure(e)
    case Success(starts) =>
      var converted :=
        if returnDiscrete then Success((starts, backend.segClass))
        else toContinuous(time, starts, backend.segClass);
      match converted
      case Failure(e) => Failure(e)
      case Success(discreteOrDense) =>
        match MapClasses(discreteOrDense.1)
        case Failure(e) => Failure(e)
        case Success(classes) => Success(Package(discreteOrDense.0, classes, backend, returnOrig))
  }

  /** Asking for the original output changes only the shape of the result, not its first two parts. */
  lemma NslrReturnShape(time: seq<real>, backend: Classification, returnDiscrete: bool,
                        toContinuous: Converter<NslrId>)
    ensures var with := ClassifyNslrHmm(time, backend, returnDiscrete, true, toContinuous);
            var without := ClassifyNslrHmm(time, backend, returnDiscrete, false, toContinuous);
            with.Success? == without.Success? &&
            (with.Success? ==>
               with.value.Triple? && without.value.Pair? &&
               with.value.segments == without.value.segments &&
               with.value.classes == without.value.classes) &&
            (with.Failure? ==> with.error == without.error)
  {
  }
}
