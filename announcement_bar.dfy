/**
 * The announcement bar: a strip of messages, each followed by a pointing
 * hand and separated by a bullet, scrolled sideways in a loop. The layout
 * computation is fed the measured widths (the container's and one run's).
 */
module AnnouncementBar {
  import opened Wrappers
  import opened JsNumber

  const EXTENSION: string := "<\U{1F449}>"
  const DEFAULT_SEPARATOR: string := "•"
  const DEFAULT_SPEED_PX_PER_SECOND: real := 80.0

  /** Keeps the truthy (non-empty) strings, in order. */
  function KeepTruthy(xs: seq<string>): (r: seq<string>)
    ensures |r| <= |xs|
    ensures forall i :: 0 <= i < |r| ==> r[i] != "" && r[i] in xs
  {
    if xs == [] then []
    else if xs[0] == "" then KeepTruthy(xs[1..])
    else [xs[0]] + KeepTruthy(xs[1..])
  }

  lemma {:induction false} KeepTruthyKeepsAll(xs: seq<string>)
    requires forall i :: 0 <= i < |xs| ==> xs[i] != ""
    ensures KeepTruthy(xs) == xs
  {
    if xs != [] {
      KeepTruthyKeepsAll(xs[1..]);
    }
  }

  /** Every message with the extension appended. */
  function Extended(messages: seq<string>): (r: seq<string>)
    ensures |r| == |messages|
    ensures forall i :: 0 <= i < |r| ==> r[i] == messages[i] + EXTENSION
  {
    seq(|messages|, i requires 0 <= i < |messages| => messages[i] + EXTENSION)
  }

  /** `clean`: the extended messages that are truthy, which is all of them. */
  function Clean(messages: seq<string>): (r: seq<string>)
    ensures |r| == |messages|
    ensures forall i :: 0 <= i < |r| ==> r[i] == messages[i] + EXTENSION
  {
    var extended := Extended(messages);
    KeepTruthyKeepsAll(extended);
    KeepTruthy(extended)
  }

  /** `items`: each message followed by the separator, except the last. */
  function Items<T>(clean: seq<T>, separator: T): (r: seq<T>)
    ensures |r| == if clean == [] then 0 else 2 * |clean| - 1
    ensures forall i :: 0 <= i < |r| && i % 2 == 0 ==> r[i] == clean[i / 2]
    ensures forall i :: 0 <= i < |r| && i % 2 == 1 ==> r[i] == separator
  {
    if |clean| <= 1 then clean
    else
      var rest := Items(clean[1..], separator);
      var r := [clean[0], separator] + rest;
      assert forall i :: 2 <= i < |r| ==> r[i] == rest[i - 2];
      r
  }

  lemma LastItem<T>(clean: seq<T>, separator: T)
    ensures |Items(clean, separator)| == 0 <==> |clean| == 0
    ensures clean != [] ==> Items(clean, separator)[|Items(clean, separator)| - 1] == clean[|clean| - 1]
  {
    if clean != [] {
      var last := 2 * (|clean| - 1);
      assert last % 2 == 0 && last / 2 == |clean| - 1;
    }
  }

  /** The items are empty exactly when there are no messages (and then nothing is shown); otherwise the last item is the last message. */
  lemma ItemsOfMessages(messages: seq<string>, separator: string)
    ensures var items := Items(Clean(messages), separator);
      (items == [] <==> messages == []) &&
      (messages != [] ==> items[|items| - 1] == messages[|messages| - 1] + EXTENSION)
  {
    var clean := Clean(messages);
    LastItem(clean, separator);
  }

  /* Layout */

  function Max(a: real, b: real): real {
    if a < b then b else a
  }

  datatype Layout = Layout(repeatCount: int, distancePx: real, durationSec: real)

  /**
   * `compute`: nothing when either width is zero; otherwise enough runs
   * (at least two) for the track to span twice the container, scrolled at
   * the given speed, and at least 1px/s.
   */
  function ComputeLayout(containerW: real, baseW: nat, speedPxPerSecond: real): (r: Option<Layout>)
    ensures r.None? <==> containerW == 0.0 || baseW == 0
    ensures r.Some? ==> (
      r.value.repeatCount >= 2 &&
      r.value.distancePx == baseW as real * r.value.repeatCount as real &&
      r.value.distancePx >= 2.0 * containerW &&
      r.value.durationSec * Max(1.0, speedPxPerSecond) == r.value.distancePx)
  {
    if containerW == 0.0 || baseW == 0 then None
    else
      var needed := Ceil(containerW * 2.0 / baseW as real);
      var repeats := if needed < 2 then 2 else needed;
      var trackW := baseW as real * repeats as real;
      TrackSpans(containerW, baseW as real, repeats as real);
      DivMul(trackW, Max(1.0, speedPxPerSecond));
      Some(Layout(repeats, trackW, trackW / Max(1.0, speedPxPerSecond)))
  }

  lemma TrackSpans(containerW: real, baseW: real, repeats: real)
    requires baseW > 0.0 && repeats >= containerW * 2.0 / baseW
    ensures baseW * repeats >= 2.0 * containerW
  {
    ScaleUp(repeats, containerW * 2.0 / baseW, baseW);
    assert baseW * (containerW * 2.0 / baseW) == 2.0 * containerW;
  }

  lemma ScaleUp(a: real, b: real, c: real)
    requires a >= b && c > 0.0
    ensures c * a >= c * b
  {
    assert c * a - c * b == c * (a - b);
  }

  lemma DivMul(x: real, y: real)
    requires y > 0.0
    ensures (x / y) * y == x
  {
  }

  /** Speeds of at most 1px/s all scroll at 1px/s. */
  lemma SlowSpeedsClamp(containerW: real, baseW: nat, speedPxPerSecond: real)
    requires speedPxPerSecond <= 1.0
    ensures ComputeLayout(containerW, baseW, speedPxPerSecond) == ComputeLayout(containerW, baseW, 1.0)
  {
  }

  /** `shouldAnimate`: only with a measured distance and duration. */
  predicate ShouldAnimate(distancePx: real, durationSec: real) {
    distancePx > 0.0 && durationSec > 0.0
  }

  /** Once both widths are measured as positive, the bar animates. */
  lemma MeasuredBarAnimates(containerW: real, baseW: nat, speedPxPerSecond: real)
    requires containerW > 0.0 && baseW > 0
    ensures var r := ComputeLayout(containerW, baseW, speedPxPerSecond);
      r.Some? && ShouldAnimate(r.value.distancePx, r.value.durationSec)
  {
    var r := ComputeLayout(containerW, baseW, speedPxPerSecond).value;
    assert r.distancePx == r.durationSec * Max(1.0, speedPxPerSecond);
  }

  /** The bar's measured layout state. */
  class Bar {
    var repeatCount: int
    var distancePx: real
    var durationSec: real

    function State(): Layout
      reads this
    {
      Layout(repeatCount, distancePx, durationSec)
    }

    constructor()
      ensures State() == Layout(1, 0.0, 0.0)
      ensures !ShouldAnimate(distancePx, durationSec)
    {
      repeatCount := 1;
      distancePx := 0.0;
      durationSec := 0.0;
    }

    /** `compute`, run on mount and whenever a measured element is resized. */
    method Compute(containerW: real, baseW: nat, speedPxPerSecond: real)
      modifies this
      ensures State() == match ComputeLayout(containerW, baseW, speedPxPerSecond)
        case None => old(State())
        case Some(layout) => layout
    {
      if containerW == 0.0 || baseW == 0 {
        return;
      }
      var repeats := Ceil(containerW * 2.0 / baseW as real);
      if repeats < 2 {
        repeats := 2;
      }
      var trackW := baseW as real * repeats as real;
      repeatCount := repeats;
      distancePx := trackW;
      durationSec := trackW / Max(1.0, speedPxPerSecond);
    }
  }
}
