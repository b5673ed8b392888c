/**
 * The simulation result panel. A signal's `wave` string is read one
 * character per time step: '1'/'H' high, '0'/'L' low, 'p'/'P' a clock pulse,
 * 'n'/'N' a negative pulse, 'x'/'X' an undefined block, '.' a continuation,
 * '=' a bus value, anything else nothing. The canvas is abstracted into the
 * sequence of segments drawn, each at the step the running position `x` has
 * reached; the pixel geometry inside a step is not modelled.
 */
module WaveformViewer {
  import opened Text

  datatype Signal = Signal(name: string, wave: string, data: Option<seq<string>>)

  datatype SimulationResult = SimulationResult(
    success: bool,
    output: string,
    errors: seq<string>,
    warnings: seq<string>,
    signals: seq<Signal>,
    timing: string)

  /** What one character draws. */
  datatype Segment =
    | Level(high: bool, edge: bool)  // the pen moves to level `high`, after a vertical edge into it when `edge`
    | Pulse                          // high for the first half step, then low
    | NegPulse                       // low for the first half step, then high
    | Undefined                      // a filled block over the whole step
    | Bus                            // a hexagonal bus outline over the whole step
    | Blank                          // nothing

  /** A segment placed at a step: step `at` spans `x = startX + at * stepWidth` to the next step. */
  datatype Step = Step(at: nat, shape: Segment)

  predicate IsHighChar(c: char) { c == '1' || c == 'H' }
  predicate IsLowChar(c: char) { c == '0' || c == 'L' }

  /** The segment drawn for character `i`, which looks back at character `i - 1` only. */
  function SegmentAt(wave: string, i: nat): Segment
    requires i < |wave|
  {
    var c := wave[i];
    if IsHighChar(c) then Level(true, i == 0 || IsLowChar(wave[i - 1]) || wave[i - 1] == '.')
    else if IsLowChar(c) then Level(false, i == 0 || IsHighChar(wave[i - 1]))
    else if c == 'p' || c == 'P' then Pulse
    else if c == 'n' || c == 'N' then NegPulse
    else if c == 'x' || c == 'X' then Undefined
    else if c == '.' then Level(i > 0 && IsHighChar(wave[i - 1]), false)
    else if c == '=' then Bus
    else Blank
  }

  /** The whole row: character `i` at step `i`. */
  function Steps(wave: string): seq<Step> {
    seq(|wave|, i requires 0 <= i < |wave| => Step(i, SegmentAt(wave, i)))
  }

  /**
   * The character loop of `renderWaveform`: the running position starts at
   * the first step and every character, drawn or not, advances it by one.
   */
  method DrawWave(wave: string) returns (steps: seq<Step>)
    ensures steps == Steps(wave)
  {
    steps := [];
    var x := 0;
    var i := 0;
    while i < |wave|
      invariant 0 <= i <= |wave| && x == i
      invariant |steps| == i
      invariant forall j :: 0 <= j < i ==> steps[j] == Step(j, SegmentAt(wave, j))
    {
      var c := wave[i];
      var nextX := x + 1;
      var shape: Segment;
      if c == '1' || c == 'H' {
        shape := Level(true, i == 0 || wave[i - 1] == '0' || wave[i - 1] == 'L' || wave[i - 1] == '.');
      } else if c == '0' || c == 'L' {
        shape := Level(false, i == 0 || wave[i - 1] == '1' || wave[i - 1] == 'H');
      } else if c == 'p' || c == 'P' {
        shape := Pulse;
      } else if c == 'n' || c == 'N' {
        shape := NegPulse;
      } else if c == 'x' || c == 'X' {
        shape := Undefined;
      } else if c == '.' {
        var prevChar := if i > 0 then wave[i - 1] else '0';
        shape := Level(prevChar == '1' || prevChar == 'H', false);
      } else if c == '=' {
        shape := Bus;
      } else {
        shape := Blank;
      }
      steps := steps + [Step(x, shape)];
      x := nextX;
      i := i + 1;
    }
  }

  /** The characters the loop recognises. */
  const Tokens: set<char> := {'1', 'H', '0', 'L', 'p', 'P', 'n', 'N', 'x', 'X', '.', '='}

  /** A character outside the recognised ones draws nothing but still takes its step. */
  lemma BlankIffUnknown(wave: string, i: nat)
    requires i < |wave|
    ensures SegmentAt(wave, i) == Blank <==> wave[i] !in Tokens
  {
  }

  /** The two spellings of each token. */
  function Canonical(c: char): char {
    if c == 'H' then '1'
    else if c == 'L' then '0'
    else if c == 'P' then 'p'
    else if c == 'N' then 'n'
    else if c == 'X' then 'x'
    else c
  }

  function CanonicalWave(wave: string): (r: string)
    ensures |r| == |wave| && forall i :: 0 <= i < |wave| ==> r[i] == Canonical(wave[i])
  {
    seq(|wave|, i requires 0 <= i < |wave| => Canonical(wave[i]))
  }

  /** Writing 'H' for '1', 'L' for '0', 'P' for 'p', 'N' for 'n' or 'X' for 'x' draws the same row. */
  lemma AliasesDrawAlike(wave: string)
    ensures Steps(CanonicalWave(wave)) == Steps(wave)
  {
    var w := CanonicalWave(wave);
    forall i | 0 <= i < |wave|
      ensures SegmentAt(w, i) == SegmentAt(wave, i)
    {
      if i > 0 {
        assert IsHighChar(w[i - 1]) <==> IsHighChar(wave[i - 1]);
        assert IsLowChar(w[i - 1]) <==> IsLowChar(wave[i - 1]);
        assert w[i - 1] == '.' <==> wave[i - 1] == '.';
      }
    }
  }

  /** Characters appended later never change the steps already drawn. */
  lemma StepsPrefixStable(wave: string, more: string)
    ensures Steps(wave + more)[..|wave|] == Steps(wave)
  {
    var w := wave + more;
    forall i | 0 <= i < |wave|
      ensures SegmentAt(w, i) == SegmentAt(wave, i)
    {
      assert w[i] == wave[i];
      if i > 0 {
        assert w[i - 1] == wave[i - 1];
      }
    }
  }

  /** A wave made of level characters and '.' only. */
  predicate LevelWave(wave: string) {
    forall i :: 0 <= i < |wave| ==> IsHighChar(wave[i]) || IsLowChar(wave[i]) || wave[i] == '.'
  }

  /**
   * The level a level wave holds at step `i` when '.' continues the previous
   * state, as the loop's own comment describes it; a leading '.' is low.
   */
  function IntendedHigh(wave: string, i: nat): bool
    requires i < |wave| && LevelWave(wave)
  {
    if IsHighChar(wave[i]) then true
    else if IsLowChar(wave[i]) then false
    else i > 0 && IntendedHigh(wave, i - 1)
  }

  /** Without two '.' in a row, every step of a level wave is drawn at its intended level. */
  lemma LevelsAsIntended(wave: string)
    requires LevelWave(wave)
    requires forall i :: 0 < i < |wave| && wave[i] == '.' ==> wave[i - 1] != '.'
    ensures forall i :: 0 <= i < |wave| ==> SegmentAt(wave, i).high == IntendedHigh(wave, i)
  {
    forall i | 0 <= i < |wave|
      ensures SegmentAt(wave, i).high == IntendedHigh(wave, i)
    {
      if wave[i] == '.' && i > 0 {
        assert IntendedHigh(wave, i) == IntendedHigh(wave, i - 1);
      }
    }
  }

  /** In a wave of '0', '1', 'L' and 'H' only, an edge is drawn at the first step and wherever the level changes, nowhere else. */
  lemma EdgesAtLevelChanges(wave: string, i: nat)
    requires forall j :: 0 <= j < |wave| ==> IsHighChar(wave[j]) || IsLowChar(wave[j])
    requires i < |wave|
    ensures SegmentAt(wave, i).edge <==> i == 0 || IntendedHigh(wave, i) != IntendedHigh(wave, i - 1)
  {
    assert IntendedHigh(wave, i) == IsHighChar(wave[i]);
    if i > 0 {
      assert IntendedHigh(wave, i - 1) == IsHighChar(wave[i - 1]);
    }
  }

  /** A rising edge precedes a high character exactly at the start or after '0', 'L' or '.'. */
  lemma RisingEdgeIff(wave: string, i: nat)
    requires i < |wave| && IsHighChar(wave[i])
    ensures SegmentAt(wave, i) == Level(true, i == 0 || wave[i - 1] in {'0', 'L', '.'})
  {
  }

  /** A falling edge precedes a low character exactly at the start or after '1' or 'H'. */
  lemma FallingEdgeIff(wave: string, i: nat)
    requires i < |wave| && IsLowChar(wave[i])
    ensures SegmentAt(wave, i) == Level(false, i == 0 || wave[i - 1] in {'1', 'H'})
  {
  }

  /** '.' draws no edge and is high exactly after '1' or 'H'. */
  lemma DotFollowsOnlyItsNeighbour(wave: string, i: nat)
    requires i < |wave| && wave[i] == '.'
    ensures SegmentAt(wave, i) == Level(i > 0 && wave[i - 1] in {'1', 'H'}, false)
  {
  }

  /** "1..": the second '.' falls back to low although the level was meant to continue high. */
  lemma SecondDotDropsLow()
    ensures LevelWave("1..") && IntendedHigh("1..", 2)
    ensures Steps("1..") == [Step(0, Level(true, true)), Step(1, Level(true, false)), Step(2, Level(false, false))]
  {
    assert IntendedHigh("1..", 1);
  }

  /** "1.1": the second '1' is drawn with a rising edge although the level never fell. */
  lemma EdgeAfterHighDot()
    ensures LevelWave("1.1") && IntendedHigh("1.1", 1)
    ensures SegmentAt("1.1", 2) == Level(true, true)
  {
  }

  /** "n.": a negative pulse ends high, but the '.' after it is drawn low. */
  lemma DotAfterNegativePulse()
    ensures Steps("n.") == [Step(0, NegPulse), Step(1, Level(false, false))]
  {
  }

  const SignalHeight: int := 30
  const SignalGap: int := 50
  const StartY: int := 30

  /** `Math.max(200, n * 50 + 40)`. */
  function CanvasHeight(n: nat): (h: int)
    ensures h >= 200 && h >= 50 * n + 40
    ensures h == 200 || h == 50 * n + 40
  {
    if 200 >= n * 50 + 40 then 200 else n * 50 + 40
  }

  /** The top of row `k`. */
  function RowTop(k: nat): int {
    StartY + k * SignalGap
  }

  /** Rows lie one below the other, below the top edge, without overlapping. */
  lemma RowsDisjoint(k: nat, m: nat)
    requires k < m
    ensures 0 < RowTop(k) && RowTop(k) + SignalHeight < RowTop(m)
  {
  }

  /**
   * Every row of a canvas for `n` signals, the first included, ends at least
   * 30 pixels above the bottom, where the time labels sit.
   */
  lemma RowFits(n: nat, m: nat)
    requires m < n
    ensures RowTop(m) + SignalHeight <= CanvasHeight(n) - 30
  {
  }

  /** A drawn time label: its text and its baseline. */
  datatype Label = Label(text: string, baseline: int)

  function TimeLabel(i: nat): string {
    Decimal(i * 10) + "ns"
  }

  /** The time axis: 11 labels at every tenth of the width, on the baseline 5 pixels above the bottom. */
  method DrawTimeAxis(height: int) returns (labels: seq<Label>)
    ensures |labels| == 11
    ensures forall i :: 0 <= i < 11 ==> labels[i] == Label(TimeLabel(i), height - 5)
  {
    labels := [];
    for i := 0 to 11
      invariant |labels| == i
      invariant forall j :: 0 <= j < i ==> labels[j] == Label(TimeLabel(j), height - 5)
    {
      labels := labels + [Label(Decimal(i * 10) + "ns", height - 5)];
    }
  }

  /** The labels run from "0ns" to "100ns" and no two are alike. */
  lemma TimeLabelsDistinct(i: nat, j: nat)
    requires i < j <= 10
    ensures TimeLabel(0) == "0ns" && TimeLabel(10) == "100ns"
    ensures TimeLabel(i) != TimeLabel(j)
  {
    assert Decimal(100) == Decimal(10) + ['0'];
    var a, b := Decimal(i * 10), Decimal(j * 10);
    if TimeLabel(i) == TimeLabel(j) {
      assert a == TimeLabel(i)[..|TimeLabel(i)| - 2];
      assert b == TimeLabel(j)[..|TimeLabel(j)| - 2];
      DecimalInjective(i * 10, j * 10);
    }
  }

  /** One signal's row: its top, the baseline of its name and its steps. */
  datatype Row = Row(top: int, nameBaseline: int, name: string, steps: seq<Step>)

  datatype Drawing = Drawing(height: int, rows: seq<Row>, labels: seq<Label>)

  function RowOf(signal: Signal, k: nat): Row {
    Row(RowTop(k), RowTop(k) + SignalHeight / 2 + 4, signal.name, Steps(signal.wave))
  }

  /** `renderWaveform`: the canvas height, one row per signal and the time axis. */
  method RenderWaveform(signals: seq<Signal>) returns (d: Drawing)
    ensures d.height == CanvasHeight(|signals|)
    ensures |d.rows| == |signals|
    ensures forall k :: 0 <= k < |signals| ==> d.rows[k] == RowOf(signals[k], k)
    ensures |d.labels| == 11
    ensures forall i :: 0 <= i < 11 ==> d.labels[i] == Label(TimeLabel(i), d.height - 5)
  {
    var height := if 200 >= |signals| * 50 + 40 then 200 else |signals| * 50 + 40;
    var rows: seq<Row> := [];
    var index := 0;
    while index < |signals|
      invariant 0 <= index <= |signals|
      invariant |rows| == index
      invariant forall k :: 0 <= k < index ==> rows[k] == RowOf(signals[k], k)
    {
      var y := StartY + index * SignalGap;
      var steps := DrawWave(signals[index].wave);
      rows := rows + [Row(y, y + SignalHeight / 2 + 4, signals[index].name, steps)];
      index := index + 1;
    }
    var labels := DrawTimeAxis(height);
    d := Drawing(height, rows, labels);
  }

  /** What the panel shows. A list set to `None` is not rendered. */
  datatype Panel =
    | Spinner
    | Placeholder
    | Report(
        badge: string,
        timing: string,
        errorList: Option<seq<string>>,
        warningList: Option<seq<string>>,
        output: string,
        waveformShown: bool)

  /** The display branches of the component. */
  function PanelOf(result: Option<SimulationResult>, isSimulating: bool): (panel: Panel)
    ensures panel == Spinner <==> isSimulating
    ensures panel == Placeholder <==> !isSimulating && result == None
    ensures panel.Report? ==>
      && result.Some?
      && (panel.badge == "Passed" <==> result.value.success)
      && (panel.waveformShown <==> result.value.success)
      && panel.timing == result.value.timing && panel.output == result.value.output
      && (panel.errorList.Some? <==> |result.value.errors| > 0)
      && (panel.warningList.Some? <==> |result.value.warnings| > 0)
      && (panel.errorList.Some? ==> panel.errorList.value == result.value.errors)
      && (panel.warningList.Some? ==> panel.warningList.value == result.value.warnings)
  {
    if isSimulating then Spinner
    else if result == None then Placeholder
    else
      var r := result.value;
      Report(
        if r.success then "Passed" else "Errors Found",
        r.timing,
        if |r.errors| > 0 then Some(r.errors) else None,
        if |r.warnings| > 0 then Some(r.warnings) else None,
        r.output,
        r.success)
  }
}
