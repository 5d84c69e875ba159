/**
 * What both classifiers hand back: the failures the post-processing can raise,
 * the 2- or 3-tuple they return, and the continuous-format converter they call.
 */
module Outputs {
  import opened Wrappers
  import opened Taxonomy

  /** The Python exceptions the post-processing can raise. */
  datatype Error =
    | UnknownNslrClass(id: NslrId)         // KeyError from `CLASSES[i]`
    | UnknownRemodnavLabel(code: string)  // KeyError from `class_dict[ev["label"]]`
    | EmptySegment                         // IndexError from `s.t[0]`
    | EmptyTimes                           // IndexError from `times[0]`
    | NoEvents                             // ValueError from unpacking `zip(*[])`
    | MalformedSegmentation                // whatever the continuous-format converter raises

  /** `(segments, classes)` or `(segments, classes, orig)`. */
  datatype Output<O> =
    | Pair(segments: seq<real>, classes: seq<string>)
    | Triple(segments: seq<real>, classes: seq<string>, orig: O)

  /**
   * `discrete_to_continuous(times, segments, classes)`, which lives outside this
   * model: it is passed in, and may return the converted pair or raise; nothing
   * is assumed about which, nor about what it returns.
   */
  type Converter<!L> = (seq<real>, seq<real>, seq<L>) -> Result<(seq<real>, seq<L>), Error>

  /** The return statement: a 3-tuple iff `return_orig_output`, the first two components either way. */
  function Package<O>(segments: seq<real>, classes: seq<string>, orig: O, returnOrig: bool): (r: Output<O>)
    ensures r.segments == segments && r.classes == classes
    ensures r.Triple? <==> returnOrig
    ensures r.Triple? ==> r.orig == orig
  {
    if returnOrig then Triple(segments, classes, orig) else Pair(segments, classes)
  }
}
