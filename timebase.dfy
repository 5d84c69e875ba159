/**
 * The time vector both classifiers build when `time` is a sampling rate rather
 * than a vector of sample times. The rate is a whole number of hertz here.
 */
module TimeBase {

  /**
   * `np.arange(0, len(x), 1/time)`: every multiple of the sampling period below
   * `len(x)`, read as seconds, so there is one time per period in `n` seconds.
   */
  function ArangeAsWritten(n: nat, rate: nat): (r: seq<real>)
    requires rate > 0
    ensures |r| == n * rate
    ensures forall k :: 0 <= k < |r| ==> r[k] == k as real / rate as real
  {
    seq(n * rate, k requires 0 <= k < n * rate => k as real / rate as real)
  }

  /** One time per sample: `n` times from 0, one sampling period apart. */
  function SampleTimes(n: nat, rate: nat): (r: seq<real>)
    requires rate > 0
    ensures |r| == n
    ensures n > 0 ==> r[0] == 0.0
    ensures forall k :: 0 <= k < n - 1 ==> r[k + 1] - r[k] == 1.0 / rate as real
  {
    seq(n, k requires 0 <= k < n => k as real / rate as real)
  }

  /** The two agree on the samples they share; the vector as written runs on past the last sample. */
  lemma ArangePrefix(n: nat, rate: nat)
    requires rate > 0
    ensures |ArangeAsWritten(n, rate)| >= |SampleTimes(n, rate)|
    ensures ArangeAsWritten(n, rate)[..n] == SampleTimes(n, rate)
    ensures rate > 1 && n > 0 ==> |ArangeAsWritten(n, rate)| > n
  {
    assert n * rate >= n * 1;
    assert rate > 1 && n > 0 ==> n * rate > n * 1;
  }

  /** Five samples at 2 Hz: the source synthesizes ten times, not the five the samples need. */
  lemma ArangeCountExample()
    ensures |ArangeAsWritten(5, 2)| == 10
    ensures ArangeAsWritten(5, 2)[9] == 4.5
    ensures SampleTimes(5, 2) == [0.0, 0.5, 1.0, 1.5, 2.0]
  {
    var s := SampleTimes(5, 2);
    assert s[1] == 0.5 && s[2] == 1.0 && s[3] == 1.5 && s[4] == 2.0;
  }
}
