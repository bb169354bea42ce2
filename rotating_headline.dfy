/**
 * The rotating headline (`RotatingMaskedHeadline`): each text is split into
 * trimmed lines; the lines enter one after another, stay, leave, and the
 * next text comes in. Under reduced motion the texts simply rotate.
 * The timer is the component's own state: the effect sets one when a value
 * in its dependency list changed, and `TimerFired` runs its callback.
 * Rendering and styles are not modelled.
 */
module RotatingHeadline {
  import opened Wrappers
  import opened JsString

  /** `map((s) => s.trim())`. */
  function TrimAll(pieces: seq<string>): (r: seq<string>)
    ensures |r| == |pieces|
    ensures forall i :: 0 <= i < |pieces| ==> r[i] == Trim(pieces[i])
  {
    if pieces == [] then [] else [Trim(pieces[0])] + TrimAll(pieces[1..])
  }

  /** `filter(Boolean)` on strings: keeps the non-empty ones, in order. */
  function KeepNonEmpty(xs: seq<string>): (r: seq<string>)
    ensures forall i :: 0 <= i < |r| ==> r[i] != [] && r[i] in xs
    ensures |r| <= |xs|
  {
    if xs == [] then []
    else if xs[0] == [] then KeepNonEmpty(xs[1..])
    else [xs[0]] + KeepNonEmpty(xs[1..])
  }

  lemma {:induction false} KeepAllNonEmpty(xs: seq<string>)
    requires forall i :: 0 <= i < |xs| ==> xs[i] != []
    ensures KeepNonEmpty(xs) == xs
  {
    if xs != [] {
      KeepAllNonEmpty(xs[1..]);
    }
  }

  /**
   * `splitLines`: split at line breaks, trim each piece, drop the empty ones.
   * Splitting at `\n` alone gives the same lines as splitting at `\r?\n`,
   * because the `\r` left at the end of a piece is whitespace that the trim
   * removes.
   */
  function SplitLines(text: string): seq<string> {
    KeepNonEmpty(TrimAll(Split(text, '\n')))
  }

  /** Every line is non-empty, trimmed and free of line breaks. */
  lemma SplitLinesClean(text: string)
    ensures forall i :: 0 <= i < |SplitLines(text)| ==>
      var line := SplitLines(text)[i];
      line != [] && IsTrimmed(line) && '\n' !in line
  {
    var pieces := Split(text, '\n');
    SplitPiecesLackSeparator(text, '\n');
    var trimmed := TrimAll(pieces);
    forall j | 0 <= j < |trimmed|
      ensures IsTrimmed(trimmed[j]) && '\n' !in trimmed[j]
    {
      TrimIsInfix(pieces[j]);
    }
  }

  /** Lines that are already clean come back unchanged from joining them with line breaks and splitting again. */
  lemma SplitLinesJoin(lines: seq<string>)
    requires |lines| >= 1
    requires forall i :: 0 <= i < |lines| ==> lines[i] != [] && IsTrimmed(lines[i]) && '\n' !in lines[i]
    ensures SplitLines(Join(lines, "\n")) == lines
  {
    SplitJoin(lines, '\n');
    forall i | 0 <= i < |lines|
      ensures Trim(lines[i]) == lines[i]
    {
      TrimOfTrimmed(lines[i]);
    }
    assert TrimAll(lines) == lines;
    KeepAllNonEmpty(lines);
  }

  /** The text on show: the one at `index`, or the empty text when there is none there. */
  function CurrentText(texts: seq<string>, index: int): (t: string)
    ensures 0 <= index < |texts| ==> t == texts[index]
    ensures !(0 <= index < |texts|) ==> t == ""
  {
    if 0 <= index < |texts| then texts[index] else ""
  }

  /** The lines on show are clean lines of the current text; a headline over texts always has one. */
  lemma CurrentLinesClean(texts: seq<string>, startIndex: int)
    requires |texts| > 0
    ensures var t := CurrentText(texts, InitialIndex(|texts|, startIndex));
      t == texts[InitialIndex(|texts|, startIndex)] &&
      forall i :: 0 <= i < |SplitLines(t)| ==> SplitLines(t)[i] != "" && '\n' !in SplitLines(t)[i]
  {
    SplitLinesClean(CurrentText(texts, InitialIndex(|texts|, startIndex)));
  }

  /* Timing */

  const DEFAULT_HOLD_MS: nat := 1800
  const DEFAULT_LINE_STAGGER_MS: nat := 90
  const DEFAULT_LINE_IN_MS: nat := 700
  const DEFAULT_LINE_OUT_MS: nat := 320

  /** When a line's animation starts: line `i` waits `i` staggers, and none waits under reduced motion. */
  function LineDelayMs(reducedMotion: bool, i: nat, lineStaggerMs: nat): nat {
    if reducedMotion then 0 else i * lineStaggerMs
  }

  /**
   * `inTotalMs` (with `lineInMs`) and `outTotalMs` (with `lineOutMs`): one
   * line's animation plus a stagger per further line; 0 under reduced motion.
   */
  function PhaseTotalMs(reducedMotion: bool, lineMs: nat, lineStaggerMs: nat, lineCount: nat): nat {
    if reducedMotion then 0 else lineMs + (if lineCount >= 1 then lineCount - 1 else 0) * lineStaggerMs
  }

  /** A phase lasts until the last line's animation has finished, and every line's has finished by then. */
  lemma PhaseEndsWithLastLine(lineMs: nat, lineStaggerMs: nat, lineCount: nat)
    requires lineCount >= 1
    ensures PhaseTotalMs(false, lineMs, lineStaggerMs, lineCount)
      == LineDelayMs(false, lineCount - 1, lineStaggerMs) + lineMs
    ensures forall i: nat :: i < lineCount ==>
      LineDelayMs(false, i, lineStaggerMs) + lineMs <= PhaseTotalMs(false, lineMs, lineStaggerMs, lineCount)
  {
    forall i: nat | i < lineCount
      ensures i * lineStaggerMs <= (lineCount - 1) * lineStaggerMs
    {
      MultiplyMonotone(i, lineCount - 1, lineStaggerMs);
    }
  }

  lemma MultiplyMonotone(a: nat, b: nat, c: nat)
    requires a <= b
    ensures a * c <= b * c
  {
    assert b * c == a * c + (b - a) * c;
  }

  /* The index and phase */

  datatype Phase = In | Hold | Out

  datatype HeadlineState = HeadlineState(index: int, phase: Phase)

  /** The first index: `startIndex` clamped to the texts, 0 when there are none. */
  function InitialIndex(count: nat, startIndex: int): (i: int)
    ensures count > 0 ==> 0 <= i < count
    ensures count > 0 && 0 <= startIndex < count ==> i == startIndex
    ensures count == 0 ==> i == 0
  {
    if count == 0 then 0
    else if startIndex < 0 then 0
    else if startIndex > count - 1 then count - 1
    else startIndex
  }

  /** What a fired timer does: under reduced motion, show the next text; otherwise `in -> hold -> out -> in`, moving on after `out`. */
  function Step(s: HeadlineState, count: nat, reducedMotion: bool): (r: HeadlineState)
    requires count > 0 && s.index >= 0
    ensures r.index >= 0 && (s.index < count ==> r.index < count)
  {
    if reducedMotion then HeadlineState((s.index + 1) % count, Hold)
    else match s.phase
      case In => HeadlineState(s.index, Hold)
      case Hold => HeadlineState(s.index, Out)
      case Out => HeadlineState((s.index + 1) % count, In)
  }

  /** The delay of the timer the effect sets when it runs, or none when there are no texts or the headline is paused. */
  function ScheduledDelayMs(s: HeadlineState, count: nat, paused: bool, reducedMotion: bool, holdMs: nat, inTotalMs: nat, outTotalMs: nat)
    : (r: Option<nat>)
    ensures r.None? <==> count == 0 || paused
    ensures r.Some? && (reducedMotion || s.phase == Hold) ==> r.value == holdMs
    ensures r.Some? && !reducedMotion ==> r.value == match s.phase
      case In => inTotalMs
      case Hold => holdMs
      case Out => outTotalMs
  {
    if count == 0 || paused then None
    else if reducedMotion then Some(holdMs)
    else match s.phase
      case In => Some(inTotalMs)
      case Hold => Some(holdMs)
      case Out => Some(outTotalMs)
  }

  /** The index stays within the texts, and changes only when the outgoing text has left (or, under reduced motion, on every step). */
  lemma StepIndex(s: HeadlineState, count: nat, reducedMotion: bool)
    requires count > 0 && 0 <= s.index < count
    ensures 0 <= Step(s, count, reducedMotion).index < count
    ensures Step(s, count, reducedMotion).index ==
      if reducedMotion || s.phase == Out then (s.index + 1) % count else s.index
    ensures !reducedMotion ==> Step(s, count, reducedMotion).phase == match s.phase
      case In => Hold
      case Hold => Out
      case Out => In
  {
  }

  /** `n` steps in a row. */
  function Steps(s: HeadlineState, count: nat, reducedMotion: bool, n: nat): HeadlineState
    requires count > 0 && s.index >= 0
    ensures Steps(s, count, reducedMotion, n).index >= 0
    decreases n
  {
    if n == 0 then s else Steps(Step(s, count, reducedMotion), count, reducedMotion, n - 1)
  }

  /** Three steps from an entering text bring the next text in. */
  lemma NextTextAfterThreeSteps(s: HeadlineState, count: nat)
    requires count > 0 && 0 <= s.index < count && s.phase == In
    ensures Steps(s, count, false, 3) == HeadlineState((s.index + 1) % count, In)
  {
  }

  /** After `3k` steps from an entering text, the text `k` further on is entering. */
  lemma {:induction false} StepsInCycles(s: HeadlineState, count: nat, k: nat)
    requires count > 0 && 0 <= s.index < count && s.phase == In
    ensures Steps(s, count, false, 3 * k) == HeadlineState((s.index + k) % count, In)
    decreases k
  {
    if k > 0 {
      NextTextAfterThreeSteps(s, count);
      var next := HeadlineState((s.index + 1) % count, In);
      StepsSplit(s, count, false, 3, 3 * (k - 1));
      StepsInCycles(next, count, k - 1);
      ModAddOne(s.index, k - 1, count);
    }
  }

  lemma ModAddOne(i: int, k: nat, count: nat)
    requires count > 0 && i >= 0
    ensures ((i + 1) % count + k) % count == (i + k + 1) % count
  {
    var t := (i + 1) % count + k;
    assert i + 1 == (i + 1) / count * count + (i + 1) % count;
    assert t == t / count * count + t % count;
    assert i + k + 1 == (t / count + (i + 1) / count) * count + t % count;
    ModUnique(i + k + 1, t / count + (i + 1) / count, t % count, count);
  }

  lemma ModShift(x: int, q: int, count: nat)
    requires count > 0
    ensures (x + q * count) % count == x % count
  {
    assert x == x / count * count + x % count;
    assert x + q * count == (x / count + q) * count + x % count;
    ModUnique(x + q * count, x / count + q, x % count, count);
  }

  /** The remainder is determined by any decomposition `z == k * count + r` with `r` in range. */
  lemma ModUnique(z: int, k: int, r: int, count: nat)
    requires count > 0 && 0 <= r < count && z == k * count + r
    ensures z % count == r
  {
    var d := z / count;
    var m := z % count;
    assert z == d * count + m;
    assert (k - d) * count == m - r by {
      assert k * count - d * count == (k - d) * count;
    }
    if k > d {
      MultiplyAtLeast(k - d, count);
    } else if k < d {
      MultiplyAtLeast(d - k, count);
    }
  }

  lemma MultiplyAtLeast(a: int, c: nat)
    requires a >= 1
    ensures a * c >= c
  {
    assert a * c == c + (a - 1) * c;
  }

  lemma {:induction false} StepsSplit(s: HeadlineState, count: nat, reducedMotion: bool, m: nat, n: nat)
    requires count > 0 && s.index >= 0
    ensures Steps(s, count, reducedMotion, m + n) == Steps(Steps(s, count, reducedMotion, m), count, reducedMotion, n)
    decreases m
  {
    if m > 0 {
      StepsSplit(Step(s, count, reducedMotion), count, reducedMotion, m - 1, n);
    }
  }

  /** Each text gets its turn: after `3 * count` steps the headline is back where it started. */
  lemma FullRotation(s: HeadlineState, count: nat)
    requires count > 0 && 0 <= s.index < count && s.phase == In
    ensures Steps(s, count, false, 3 * count) == s
  {
    StepsInCycles(s, count, count);
    ModShift(s.index, 1, count);
  }

  /** Under reduced motion, `k` steps show the text `k` further on, held. */
  lemma {:induction false} ReducedMotionRotates(s: HeadlineState, count: nat, k: nat)
    requires count > 0 && 0 <= s.index < count && k >= 1
    ensures Steps(s, count, true, k) == HeadlineState((s.index + k) % count, Hold)
    decreases k
  {
    if k > 1 {
      var next := Step(s, count, true);
      ReducedMotionRotates(next, count, k - 1);
      ModAddOne(s.index, k - 1, count);
    }
  }

  /* The component: state, the effect's dependencies and the pending timer */

  /**
   * The props the headline is given once. The texts reach the timers only
   * through how many there are and how many lines each splits into (the
   * memoised `splitLines` of the current text), so that is what is kept.
   */
  datatype Config = Config(lineCounts: seq<nat>, holdMs: nat, lineStaggerMs: nat, lineInMs: nat, lineOutMs: nat)

  /** The configuration for the given texts and timings. */
  function ConfigOf(texts: seq<string>, holdMs: nat, lineStaggerMs: nat, lineInMs: nat, lineOutMs: nat): (cfg: Config)
    ensures |cfg.lineCounts| == |texts|
    ensures forall i :: 0 <= i < |texts| ==> cfg.lineCounts[i] == |SplitLines(texts[i])|
    ensures cfg.holdMs == holdMs && cfg.lineStaggerMs == lineStaggerMs && cfg.lineInMs == lineInMs && cfg.lineOutMs == lineOutMs
  {
    Config(seq(|texts|, i requires 0 <= i < |texts| => |SplitLines(texts[i])|), holdMs, lineStaggerMs, lineInMs, lineOutMs)
  }

  /** How many lines the current text has. */
  function LinesAt(cfg: Config, index: int): nat {
    if 0 <= index < |cfg.lineCounts| then cfg.lineCounts[index] else 0
  }

  /** `LinesAt` counts the lines of `currentText`, an out-of-range index giving the empty text and no lines. */
  lemma LinesAtCurrentText(texts: seq<string>, holdMs: nat, lineStaggerMs: nat, lineInMs: nat, lineOutMs: nat, index: int)
    ensures LinesAt(ConfigOf(texts, holdMs, lineStaggerMs, lineInMs, lineOutMs), index) == |SplitLines(CurrentText(texts, index))|
  {
    if !(0 <= index < |texts|) {
      assert Split("", '\n') == [""];
      assert SplitLines("") == [];
    }
  }

  /** `inTotalMs` for the text at `index`. */
  function InTotalMs(cfg: Config, reducedMotion: bool, index: int): nat {
    PhaseTotalMs(reducedMotion, cfg.lineInMs, cfg.lineStaggerMs, LinesAt(cfg, index))
  }

  /** `outTotalMs` for the text at `index`. */
  function OutTotalMs(cfg: Config, reducedMotion: bool, index: int): nat {
    PhaseTotalMs(reducedMotion, cfg.lineOutMs, cfg.lineStaggerMs, LinesAt(cfg, index))
  }

  /**
   * The values in the effect's dependency list that can change while the
   * headline is mounted (`texts` and `holdMs` are fixed props). `index` is
   * recorded only when `indexIsDependency` is set: the list as written
   * leaves it out, and -1 then stands for "not a dependency".
   */
  datatype EffectDeps = EffectDeps(paused: bool, phase: Phase, reducedMotion: bool, inTotalMs: nat, outTotalMs: nat, index: int)

  function DepsOf(cfg: Config, s: HeadlineState, paused: bool, reducedMotion: bool, indexIsDependency: bool): EffectDeps {
    EffectDeps(paused, s.phase, reducedMotion, InTotalMs(cfg, reducedMotion, s.index), OutTotalMs(cfg, reducedMotion, s.index),
      if indexIsDependency then s.index else -1)
  }

  /**
   * Everything the component keeps between renders: the index and phase, the
   * pause and motion flags, the delay of the timer that is pending (if any),
   * and the dependency values the effect last ran with.
   */
  datatype Component = Component(state: HeadlineState, paused: bool, reducedMotion: bool, timer: Option<nat>, deps: EffectDeps)

  /** The effect has run for the current values, the index is in range, and a timer is pending only for texts that are not paused. */
  predicate Valid(cfg: Config, c: Component, indexIsDependency: bool) {
    && c.state.index >= 0
    && (|cfg.lineCounts| > 0 ==> c.state.index < |cfg.lineCounts|)
    && c.deps == DepsOf(cfg, c.state, c.paused, c.reducedMotion, indexIsDependency)
    && (c.timer.Some? ==> |cfg.lineCounts| > 0 && !c.paused)
  }

  /**
   * After a render: when a dependency changed, the cleanup clears the pending
   * timer and the effect sets the one `ScheduledDelayMs` gives; otherwise the
   * effect does not run and the pending timer, if any, stays.
   */
  function Commit(cfg: Config, c: Component, indexIsDependency: bool): (r: Component)
    ensures r.state == c.state && r.paused == c.paused && r.reducedMotion == c.reducedMotion
    ensures r.deps == DepsOf(cfg, c.state, c.paused, c.reducedMotion, indexIsDependency)
    ensures c.deps != r.deps ==> r.timer == ScheduledDelayMs(c.state, |cfg.lineCounts|, c.paused, c.reducedMotion,
      cfg.holdMs, InTotalMs(cfg, c.reducedMotion, c.state.index), OutTotalMs(cfg, c.reducedMotion, c.state.index))
    ensures c.deps == r.deps ==> r.timer == c.timer
  {
    var d := DepsOf(cfg, c.state, c.paused, c.reducedMotion, indexIsDependency);
    if d == c.deps then c
    else c.(timer := ScheduledDelayMs(c.state, |cfg.lineCounts|, c.paused, c.reducedMotion,
      cfg.holdMs, InTotalMs(cfg, c.reducedMotion, c.state.index), OutTotalMs(cfg, c.reducedMotion, c.state.index)), deps := d)
  }

  /** The first render and the effect's first run. */
  function Mount(cfg: Config, startIndex: int, reducedMotion: bool, indexIsDependency: bool): (c: Component)
    ensures Valid(cfg, c, indexIsDependency)
    ensures c.state == HeadlineState(InitialIndex(|cfg.lineCounts|, startIndex), In) && !c.paused
    ensures c.timer.Some? <==> |cfg.lineCounts| > 0
  {
    var s := HeadlineState(InitialIndex(|cfg.lineCounts|, startIndex), In);
    Component(s, false, reducedMotion,
      ScheduledDelayMs(s, |cfg.lineCounts|, false, reducedMotion, cfg.holdMs, InTotalMs(cfg, reducedMotion, s.index), OutTotalMs(cfg, reducedMotion, s.index)),
      DepsOf(cfg, s, false, reducedMotion, indexIsDependency))
  }

  /** The pending timer fires: its callback performs `Step`, the timer is spent, and the render that follows may run the effect again. */
  function Fire(cfg: Config, c: Component, indexIsDependency: bool): (r: Component)
    requires Valid(cfg, c, indexIsDependency) && c.timer.Some?
    ensures Valid(cfg, r, indexIsDependency)
    ensures r.state == Step(c.state, |cfg.lineCounts|, c.reducedMotion)
    ensures r.paused == c.paused && r.reducedMotion == c.reducedMotion
  {
    Commit(cfg, c.(state := Step(c.state, |cfg.lineCounts|, c.reducedMotion), timer := None), indexIsDependency)
  }

  /** The pointer enters or leaves: with `pauseOnHover` the pause follows it, and the render may run the effect again. */
  function Hover(cfg: Config, c: Component, pauseOnHover: bool, entering: bool, indexIsDependency: bool): (r: Component)
    requires Valid(cfg, c, indexIsDependency)
    ensures Valid(cfg, r, indexIsDependency)
    ensures r.state == c.state && r.paused == (if pauseOnHover then entering else c.paused)
  {
    Commit(cfg, c.(paused := if pauseOnHover then entering else c.paused), indexIsDependency)
  }

  /** `n` timer firings in a row, stopping early when no timer is pending. */
  function Run(cfg: Config, c: Component, indexIsDependency: bool, n: nat): (r: Component)
    requires Valid(cfg, c, indexIsDependency)
    ensures Valid(cfg, r, indexIsDependency)
    decreases n
  {
    if n == 0 || c.timer.None? then c else Run(cfg, Fire(cfg, c, indexIsDependency), indexIsDependency, n - 1)
  }

  /** Without reduced motion every firing changes the phase, so the effect runs again and a timer is always pending. */
  lemma AnimatedKeepsTicking(cfg: Config, c: Component, indexIsDependency: bool)
    requires Valid(cfg, c, indexIsDependency) && c.timer.Some? && !c.reducedMotion
    ensures Fire(cfg, c, indexIsDependency).timer.Some?
  {
    assert Step(c.state, |cfg.lineCounts|, false).phase != c.state.phase;
  }

  /** Without reduced motion the timers drive the headline through `Steps` for ever. */
  lemma {:induction false} AnimatedRunFollowsSteps(cfg: Config, c: Component, indexIsDependency: bool, n: nat)
    requires Valid(cfg, c, indexIsDependency) && c.timer.Some? && !c.reducedMotion
    ensures Run(cfg, c, indexIsDependency, n).state == Steps(c.state, |cfg.lineCounts|, false, n)
    ensures Run(cfg, c, indexIsDependency, n).timer.Some?
    decreases n
  {
    if n > 0 {
      AnimatedKeepsTicking(cfg, c, indexIsDependency);
      RunFiresOnce(cfg, c, indexIsDependency, n);
      AnimatedRunFollowsSteps(cfg, Fire(cfg, c, indexIsDependency), indexIsDependency, n - 1);
    }
  }

  /** With a timer pending, a run of `n` firings is one firing followed by `n - 1` more. */
  lemma RunFiresOnce(cfg: Config, c: Component, indexIsDependency: bool, n: nat)
    requires Valid(cfg, c, indexIsDependency) && c.timer.Some? && n > 0
    ensures Run(cfg, c, indexIsDependency, n) == Run(cfg, Fire(cfg, c, indexIsDependency), indexIsDependency, n - 1)
  {
  }

  /** Once no timer is pending, firings change nothing. */
  lemma {:induction false} RunStopped(cfg: Config, c: Component, indexIsDependency: bool, n: nat)
    requires Valid(cfg, c, indexIsDependency) && c.timer.None?
    ensures Run(cfg, c, indexIsDependency, n) == c
  {
  }

  /**
   * As written, under reduced motion the headline moves on twice after
   * mounting and then stops: the first firing changes the phase to `hold`,
   * the second changes only `index`, which is not a dependency, so no timer
   * follows.
   */
  lemma ReducedMotionStalls(cfg: Config, startIndex: int, n: nat)
    requires |cfg.lineCounts| > 0 && n >= 2
    ensures var c := Run(cfg, Mount(cfg, startIndex, true, false), false, n);
      c.timer.None? && c.state == HeadlineState((InitialIndex(|cfg.lineCounts|, startIndex) + 2) % |cfg.lineCounts|, Hold)
  {
    var c0 := Mount(cfg, startIndex, true, false);
    var c1 := Fire(cfg, c0, false);
    assert c1.deps.phase != c0.deps.phase;
    var c2 := Fire(cfg, c1, false);
    assert c2.deps == c1.deps;
    ModAddOne(c0.state.index, 1, |cfg.lineCounts|);
    RunStopped(cfg, c2, false, n - 2);
  }

  /** As written, hovering and leaving again sets a fresh timer, so each hover gives a stalled headline one more step. */
  lemma HoverRearms(cfg: Config, c: Component)
    requires Valid(cfg, c, false) && |cfg.lineCounts| > 0 && !c.paused
    ensures var r := Hover(cfg, Hover(cfg, c, true, true, false), true, false, false);
      r.state == c.state && r.timer == ScheduledDelayMs(c.state, |cfg.lineCounts|, false, c.reducedMotion,
        cfg.holdMs, InTotalMs(cfg, c.reducedMotion, c.state.index), OutTotalMs(cfg, c.reducedMotion, c.state.index))
      && r.timer.Some?
  {
  }

  /** With `index` among the dependencies, every reduced-motion firing over two or more texts is followed by another timer. */
  lemma IntendedReducedMotionKeepsTicking(cfg: Config, c: Component)
    requires Valid(cfg, c, true) && c.timer.Some? && c.reducedMotion && |cfg.lineCounts| >= 2
    ensures Fire(cfg, c, true).timer.Some?
  {
    var n := |cfg.lineCounts|;
    var i := c.state.index;
    assert (i + 1) % n != i by {
      if i + 1 < n {
        ModUnique(i + 1, 0, i + 1, n);
      } else {
        ModUnique(i + 1, 1, 0, n);
      }
    }
  }

  /** One reduced-motion firing with `index` among the dependencies: the next text shows and a timer follows. */
  lemma IntendedReducedMotionFire(cfg: Config, c: Component) returns (next: Component)
    requires Valid(cfg, c, true) && c.timer.Some? && c.reducedMotion && |cfg.lineCounts| >= 2
    ensures next == Fire(cfg, c, true) && Valid(cfg, next, true)
    ensures next.state == HeadlineState((c.state.index + 1) % |cfg.lineCounts|, Hold)
    ensures next.timer.Some? && next.reducedMotion
  {
    IntendedReducedMotionKeepsTicking(cfg, c);
    next := Fire(cfg, c, true);
  }

  /** With `index` among the dependencies, reduced motion rotates through the texts on a fixed cadence for ever. */
  lemma {:induction false} IntendedReducedMotionRotates(cfg: Config, c: Component, k: nat)
    requires Valid(cfg, c, true) && c.timer.Some? && c.reducedMotion && |cfg.lineCounts| >= 2 && k >= 1
    ensures Run(cfg, c, true, k).state == HeadlineState((c.state.index + k) % |cfg.lineCounts|, Hold)
    ensures Run(cfg, c, true, k).timer.Some?
    decreases k
  {
    var next := IntendedReducedMotionFire(cfg, c);
    RunFiresOnce(cfg, c, true, k);
    if k > 1 {
      IntendedReducedMotionRotates(cfg, next, k - 1);
      ModAddOne(c.state.index, k - 1, |cfg.lineCounts|);
    }
  }

  /** The mounted headline, as the source writes it. */
  class Headline {
    const cfg: Config
    var index: int
    var phase: Phase
    var paused: bool
    var reducedMotion: bool
    var timer: Option<nat>
    var deps: EffectDeps

    function View(): Component
      reads this
    {
      Component(HeadlineState(index, phase), paused, reducedMotion, timer, deps)
    }

    constructor(texts: seq<string>, holdMs: nat, lineStaggerMs: nat, lineInMs: nat, lineOutMs: nat, startIndex: int, prefersReducedMotion: bool)
      ensures cfg == ConfigOf(texts, holdMs, lineStaggerMs, lineInMs, lineOutMs)
      ensures View() == Mount(cfg, startIndex, prefersReducedMotion, false)
    {
      cfg := ConfigOf(texts, holdMs, lineStaggerMs, lineInMs, lineOutMs);
      index := InitialIndex(|texts|, startIndex);
      phase := In;
      paused := false;
      reducedMotion := prefersReducedMotion;
      new;
      timer := ScheduledDelayMs(HeadlineState(index, phase), |cfg.lineCounts|, false, reducedMotion,
        cfg.holdMs, InTotalMs(cfg, reducedMotion, index), OutTotalMs(cfg, reducedMotion, index));
      deps := DepsOf(cfg, HeadlineState(index, phase), paused, reducedMotion, false);
    }

    /** After a render: clean up and run the effect again only when a dependency changed. */
    method CommitEffect()
      modifies this`timer, this`deps
      ensures View() == Commit(cfg, old(View()), false)
    {
      var d := DepsOf(cfg, HeadlineState(index, phase), paused, reducedMotion, false);
      if d != deps {
        timer := ScheduledDelayMs(HeadlineState(index, phase), |cfg.lineCounts|, paused, reducedMotion,
          cfg.holdMs, InTotalMs(cfg, reducedMotion, index), OutTotalMs(cfg, reducedMotion, index));
        deps := d;
      }
    }

    /** The hover enter and leave handlers: hovering pauses the headline when `pauseOnHover` is set. */
    method OnHover(pauseOnHover: bool, entering: bool)
      requires Valid(cfg, View(), false)
      modifies this`paused, this`timer, this`deps
      ensures View() == Hover(cfg, old(View()), pauseOnHover, entering, false)
    {
      if pauseOnHover {
        paused := entering;
      }
      CommitEffect();
    }

    /** The pending timer fires and runs its callback. */
    method TimerFired()
      requires Valid(cfg, View(), false) && timer.Some?
      modifies this`index, this`phase, this`timer, this`deps
      ensures Valid(cfg, View(), false)
      ensures View() == Fire(cfg, old(View()), false)
    {
      var next := Callback(HeadlineState(index, phase), |cfg.lineCounts|, reducedMotion);
      index, phase := next.index, next.phase;
      timer := None;
      CommitEffect();
    }

    /** What the timer's callback sets: the next index and phase. */
    static method Callback(s: HeadlineState, count: nat, reducedMotion: bool) returns (r: HeadlineState)
      requires count > 0 && s.index >= 0
      ensures r == Step(s, count, reducedMotion)
    {
      if reducedMotion {
        r := HeadlineState((s.index + 1) % count, Hold);
      } else if s.phase == In {
        r := s.(phase := Hold);
      } else if s.phase == Hold {
        r := s.(phase := Out);
      } else {
        r := HeadlineState((s.index + 1) % count, In);
      }
    }
  }
}
