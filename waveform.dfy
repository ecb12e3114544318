/**
 * The integer state behind the waveform view (`WaveformWidget`): the
 * partition of the timeline into lines, the per-line envelope cache, the
 * range of lines a scroll position shows, and the playhead test of each
 * line. Drawing is not modelled; neither is the float zoom factor, whose
 * contribution `int(30000 / zoom)` enters as the integer `scaledTime`.
 */
module Waveform {
  import opened Wrappers
  import opened Arith
  import Format
  import Envelope

  const LineHeight: int := 64
  const LineSpacing: int := 12
  /** Vertical pixels taken by one line and the gap under it. */
  const LinePitch: int := LineHeight + LineSpacing
  const MinTimePerLine: int := 5000
  /** Pixels kept free on the left for the time labels. */
  const TimeColumn: int := 100
  const MinResolution: int := 100

  /** Start and end of a line, in ms and as labels. */
  datatype LineInfo = LineInfo(startLabel: string, endLabel: string, startMs: int, endMs: int)

  /** `max(5000, int(30000 / zoom))`. */
  function TimePerLine(scaledTime: int): (t: int)
    ensures t >= MinTimePerLine && t >= scaledTime
    ensures t == scaledTime || t == MinTimePerLine
  {
    Max(MinTimePerLine, scaledTime)
  }

  /** `ceil(a / b)`. */
  function CeilDiv(a: int, b: int): (q: int)
    requires b > 0
    ensures (q - 1) * b < a <= q * b
  {
    var f := (-a) / b;
    DivBounds(-a, b, f);
    DivBounds(-a, b, f + 1);
    -f
  }

  /** Line `i` of a layout with `t` ms per line. */
  function LineAt(durationMs: int, t: int, i: int): LineInfo
  {
    var s := i * t;
    var e := Min((i + 1) * t, durationMs);
    LineInfo(Format.FmtMs(s), Format.FmtMs(e), s, e)
  }

  /** The table `line_time_info` holds after the first `n` lines are filled in. */
  function Lines(durationMs: int, t: int, n: int): map<int, LineInfo>
  {
    map i | 0 <= i < n :: LineAt(durationMs, t, i)
  }

  /** Filling in line `i` extends the table of the first `i` lines. */
  lemma LinesStep(durationMs: int, t: int, i: int)
    requires i >= 0
    ensures Lines(durationMs, t, i + 1) == Lines(durationMs, t, i)[i := LineAt(durationMs, t, i)]
  {
    var a, b := Lines(durationMs, t, i + 1), Lines(durationMs, t, i)[i := LineAt(durationMs, t, i)];
    forall k
      ensures k in a <==> k in b
    {
    }
    forall k | k in a
      ensures a[k] == b[k]
    {
    }
    MapsEqual(a, b);
  }

  /** Maps with the same keys and the same values are equal. */
  lemma MapsEqual(a: map<int, LineInfo>, b: map<int, LineInfo>)
    requires forall k :: k in a <==> k in b
    requires forall k :: k in a ==> a[k] == b[k]
    ensures a == b
  {
    forall k | k in a
      ensures k in b && a[k] == b[k]
    {
    }
    forall k | k in b
      ensures k in a
    {
    }
    assert a.Keys == b.Keys;
  }

  /** The top pixel row of line `k`. */
  function LineTop(k: int): int
  {
    k * LinePitch
  }

  /** `max(100, max(1, width - 100) // 2)`: the envelope resolution for a
      view `widthPx` pixels wide. */
  function Resolution(widthPx: int): (r: int)
    ensures r >= MinResolution
    ensures widthPx <= 301 ==> r == MinResolution
    ensures widthPx >= 302 ==> r == (widthPx - TimeColumn) / 2
  {
    Max(MinResolution, Max(1, widthPx - TimeColumn) / 2)
  }

  /** The playhead is drawn on every line whose closed interval holds it. */
  predicate PlayheadOnLine(line: LineInfo, playheadMs: int)
  {
    line.startMs <= playheadMs <= line.endMs
  }

  // ---------------------------------------------------------------------
  // The partition

  /** Each line starts at a multiple of `t`, is non-empty and at most `t`
      long; all lines but the last are full and the last ends at the
      duration. */
  lemma LineShape(durationMs: int, t: int, i: int)
    requires durationMs > 0 && t > 0
    requires 0 <= i < CeilDiv(durationMs, t)
    ensures var line, n := LineAt(durationMs, t, i), CeilDiv(durationMs, t);
      && line.startMs == i * t
      && line.startMs < line.endMs <= durationMs
      && line.endMs - line.startMs <= t
      && (i + 1 < n ==> line.endMs == (i + 1) * t)
      && (i + 1 == n ==> line.endMs == durationMs)
  {
    var n := CeilDiv(durationMs, t);
    MulLeMul(i, n - 1, t);
    if i + 1 < n {
      MulLeMul(i + 1, n - 1, t);
    }
  }

  /** The lines have no gaps and no overlaps. */
  lemma LinesAbut(durationMs: int, t: int, i: int)
    requires durationMs > 0 && t > 0
    requires 0 <= i && i + 1 < CeilDiv(durationMs, t)
    ensures LineAt(durationMs, t, i).endMs == LineAt(durationMs, t, i + 1).startMs
  {
    LineShape(durationMs, t, i);
    LineShape(durationMs, t, i + 1);
  }

  /** The layout covers `[0, duration)`: the first line starts at 0 and
      the last one ends at the duration. */
  lemma LayoutCovers(durationMs: int, t: int)
    requires durationMs > 0 && t > 0
    ensures var n := CeilDiv(durationMs, t);
      && n >= 1
      && LineAt(durationMs, t, 0).startMs == 0
      && LineAt(durationMs, t, n - 1).endMs == durationMs
  {
    var n := CeilDiv(durationMs, t);
    if n < 1 {
      MulLeMul(n, 0, t);
    }
    LineShape(durationMs, t, 0);
    LineShape(durationMs, t, n - 1);
  }

  /** Every position in `[0, duration)` lies in exactly one line's
      half-open interval, line `p // t`. */
  lemma LineOfPosition(durationMs: int, t: int, p: int, j: int)
    requires durationMs > 0 && t > 0 && 0 <= p < durationMs
    ensures var i := p / t;
      && 0 <= i < CeilDiv(durationMs, t)
      && LineAt(durationMs, t, i).startMs <= p < LineAt(durationMs, t, i).endMs
    ensures (0 <= j < CeilDiv(durationMs, t)
             && LineAt(durationMs, t, j).startMs <= p < LineAt(durationMs, t, j).endMs) ==> j == p / t
  {
    var n := CeilDiv(durationMs, t);
    var i := p / t;
    DivBounds(p, t, i);
    DivBounds(p, t, i + 1);
    if i >= n {
      MulLeMul(n, i, t);
    }
    if 0 <= j < n && j * t <= p < Min((j + 1) * t, durationMs) {
      DivUnique(p, t, j);
    }
  }

  /** With the closed test of the playhead, a position in `[0, duration]`
      is on line `min(p // t, n - 1)`. */
  lemma PlayheadLine(durationMs: int, t: int, p: int)
    requires durationMs > 0 && t > 0 && 0 <= p <= durationMs
    ensures var n := CeilDiv(durationMs, t);
      PlayheadOnLine(LineAt(durationMs, t, Min(p / t, n - 1)), p)
  {
    var n := CeilDiv(durationMs, t);
    if p < durationMs {
      LineOfPosition(durationMs, t, p, 0);
    } else {
      LayoutCovers(durationMs, t);
      LineShape(durationMs, t, n - 1);
      DivBounds(p, t, n - 1);
    }
  }

  /** A position is on no line but `p // t` and, when it sits on the
      boundary `p == (j + 1) * t`, the line `j` before it. */
  lemma PlayheadLinesOnly(durationMs: int, t: int, p: int, j: int)
    requires durationMs > 0 && t > 0 && 0 <= p <= durationMs
    ensures 0 <= j < CeilDiv(durationMs, t) && PlayheadOnLine(LineAt(durationMs, t, j), p) ==>
      j == p / t || (j + 1 == p / t && p == (j + 1) * t)
  {
    var line := LineAt(durationMs, t, j);
    if 0 <= j && PlayheadOnLine(line, p) {
      assert line.startMs == j * t && line.endMs <= (j + 1) * t;
      if p < (j + 1) * t {
        DivUnique(p, t, j);
      } else {
        assert (j + 2) * t == (j + 1) * t + t;
        DivUnique(p, t, j + 1);
      }
    }
  }

  /** The labels of a line are its bounds written by `fmt_ms`: each reads
      back as the whole seconds of its bound. */
  lemma LineLabels(durationMs: int, t: int, i: int)
    requires durationMs > 0 && t > 0 && 0 <= i
    ensures Format.ParseClock(LineAt(durationMs, t, i).startLabel) == Some(LineAt(durationMs, t, i).startMs / 1000)
    ensures Format.ParseClock(LineAt(durationMs, t, i).endLabel) == Some(LineAt(durationMs, t, i).endMs / 1000)
  {
    var lo, hi := i * t, Min((i + 1) * t, durationMs);
    MulLeMul(0, i, t);
    MulLeMul(0, i + 1, t);
    assert LineAt(durationMs, t, i) == LineInfo(Format.FmtMs(lo), Format.FmtMs(hi), lo, hi);
    Format.FmtMsRoundTrip(lo);
    Format.FmtMsRoundTrip(hi);
  }

  /** One hour at zoom 1.0: lines of 30 s, 120 of them. */
  lemma OneHourAtZoomOne()
    ensures TimePerLine(30000) == 30000
    ensures CeilDiv(3600000, TimePerLine(30000)) == 120
  {
  }

  // ---------------------------------------------------------------------
  // The visible range

  lemma VisibleRangeCovers(scrollY: int, viewportHeight: int, k: int)
    requires LineTop(k) < scrollY + viewportHeight && scrollY < LineTop(k) + LinePitch
    ensures scrollY / LinePitch <= k <= (scrollY + viewportHeight) / LinePitch
  {
    DivBounds(scrollY, LinePitch, k + 1);
    DivBounds(scrollY + viewportHeight, LinePitch, k);
  }

  /** Conversely, a line from the one under the top edge to one past the
      one under the bottom edge ends below the top edge, and starts at most
      one pitch below the bottom edge (at or above it, but for the last). */
  lemma VisibleRangeTight(scrollY: int, viewportHeight: int, k: int)
    requires scrollY / LinePitch <= k <= (scrollY + viewportHeight) / LinePitch + 1
    ensures scrollY < LineTop(k) + LinePitch
    ensures LineTop(k) <= scrollY + viewportHeight + LinePitch
    ensures k <= (scrollY + viewportHeight) / LinePitch ==> LineTop(k) <= scrollY + viewportHeight
  {
    var q := (scrollY + viewportHeight) / LinePitch;
    DivBounds(scrollY, LinePitch, k + 1);
    DivBounds(scrollY + viewportHeight, LinePitch, q);
    if k <= q {
      MulLeMul(k, q, LinePitch);
    } else {
      assert k == q + 1;
    }
  }

  // ---------------------------------------------------------------------
  // The view state

  class WaveformModel {
    var durationMs: int
    var timePerLine: int
    var totalLines: int
    var visibleLines: int
    var minimumHeight: int
    var lineCache: map<int, Envelope.Envelope>
    var lineTimeInfo: map<int, LineInfo>

    /** The line table is the layout of the current duration, and the cache
        only holds lines of that table. */
    ghost predicate Valid()
      reads this
    {
      && lineCache.Keys <= lineTimeInfo.Keys
      && lineTimeInfo == Lines(durationMs, timePerLine, totalLines)
      && ((durationMs == 0 && totalLines == 0)
          || (durationMs > 0 && timePerLine >= MinTimePerLine
              && totalLines == CeilDiv(durationMs, timePerLine)))
    }

    constructor ()
      ensures Valid()
      ensures durationMs == 0 && timePerLine == 0 && totalLines == 0
      ensures visibleLines == 0 && lineCache == map[] && lineTimeInfo == map[]
    {
      durationMs := 0;
      timePerLine := 0;
      totalLines := 0;
      visibleLines := 0;
      minimumHeight := 0;
      lineCache := map[];
      lineTimeInfo := map[];
    }

    /** `_calculate_layout`. `source` is the duration of the loaded audio
        (`None` while there is no audio processor), `scaledTime` is
        `int(30000 / zoom)` and `heightPx` the widget height. Without a
        positive duration nothing changes; otherwise the cache is emptied
        and the line table rebuilt for the new duration and line length. */
    method CalculateLayout(source: Option<int>, scaledTime: int, heightPx: int)
      requires Valid()
      modifies this
      ensures Valid()
      ensures (source.None? || source.value <= 0) ==>
        && durationMs == old(durationMs) && timePerLine == old(timePerLine)
        && totalLines == old(totalLines) && visibleLines == old(visibleLines)
        && minimumHeight == old(minimumHeight)
        && lineCache == old(lineCache) && lineTimeInfo == old(lineTimeInfo)
      ensures source.Some? && source.value > 0 ==>
        && durationMs == source.value
        && timePerLine == TimePerLine(scaledTime)
        && totalLines == CeilDiv(durationMs, timePerLine)
        && visibleLines == CeilDiv(heightPx, LinePitch) + 2
        && lineCache == map[]
        && lineTimeInfo == Lines(durationMs, timePerLine, totalLines)
        && minimumHeight == totalLines * LinePitch
    {
      if source.None? || source.value <= 0 {
        return;
      }
      durationMs := source.value;
      timePerLine := TimePerLine(scaledTime);
      totalLines := CeilDiv(durationMs, timePerLine);
      visibleLines := CeilDiv(heightPx, LinePitch) + 2;
      lineCache := map[];
      lineTimeInfo := map[];
      var i := 0;
      while i < totalLines
        invariant 0 <= i <= totalLines
        invariant lineTimeInfo == Lines(durationMs, timePerLine, i)
        invariant durationMs == source.value && timePerLine == TimePerLine(scaledTime)
        invariant totalLines == CeilDiv(durationMs, timePerLine)
        invariant visibleLines == CeilDiv(heightPx, LinePitch) + 2
        invariant lineCache == map[]
      {
        LinesStep(durationMs, timePerLine, i);
        lineTimeInfo := lineTimeInfo[i := LineAt(durationMs, timePerLine, i)];
        i := i + 1;
      }
      minimumHeight := totalLines * LinePitch;
    }

    /** `_load_line_data`: a cached line and an index outside the table are
        left alone; otherwise the envelope of the line's window, read
        through `read` (the decoder), is stored under the line's index. */
    method LoadLineData(lineIdx: int, widthPx: int, read: (int, int) -> seq<int>)
      requires Valid()
      modifies this`lineCache
      ensures Valid()
      ensures lineIdx in old(lineCache) || lineIdx !in lineTimeInfo ==> lineCache == old(lineCache)
      ensures lineIdx !in old(lineCache) && lineIdx in lineTimeInfo ==>
        lineCache == old(lineCache)[lineIdx := LineEnvelope(lineIdx, widthPx, read)]
    {
      if lineIdx in lineCache {
        return;
      }
      if lineIdx !in lineTimeInfo {
        return;
      }
      var info := lineTimeInfo[lineIdx];
      var resolution := Resolution(widthPx);
      var e := Envelope.Extract(read(info.startMs, info.endMs), resolution);
      lineCache := lineCache[lineIdx := e];
    }

    /** The envelope `_load_line_data` computes for a line of the table. */
    function LineEnvelope(lineIdx: int, widthPx: int, read: (int, int) -> seq<int>): (e: Envelope.Envelope)
      reads this`lineTimeInfo
      requires lineIdx in lineTimeInfo
      ensures var samples := read(lineTimeInfo[lineIdx].startMs, lineTimeInfo[lineIdx].endMs);
        && |e.mins| == |e.maxs| <= |samples|
        && (|samples| <= Resolution(widthPx) ==> e == Envelope.Envelope(samples, samples))
        && (|samples| > Resolution(widthPx) ==> Resolution(widthPx) <= |e.mins| < 2 * Resolution(widthPx))
    {
      var samples := read(lineTimeInfo[lineIdx].startMs, lineTimeInfo[lineIdx].endMs);
      var res := Resolution(widthPx);
      Envelope.ExtractSize(samples, res);
      if |samples| > res then
        Envelope.ExtractShape(samples, res);
        Envelope.Extract(samples, res)
      else if |samples| > 0 then
        Envelope.ExtractSmallWindow(samples, res);
        Envelope.Extract(samples, res)
      else
        Envelope.Extract(samples, res)
    }

    /** `_get_visible_line_range`: outside a scroll area every line; inside
        one, the lines from the one under the top edge to one past the one
        under the bottom edge, clamped to the table. Every line whose pixel
        band meets the viewport is in the range, and every line of the
        range ends below the top edge and starts no more than one line
        pitch below the bottom edge (the one line of lookahead). */
    function VisibleLineRange(inScrollArea: bool, scrollY: int, viewportHeight: int): (r: (int, int))
      reads this`totalLines
      ensures !inScrollArea ==> r == (0, totalLines - 1)
      ensures inScrollArea ==> r.0 == Max(0, scrollY / LinePitch)
      ensures inScrollArea ==> r.1 == Min(totalLines - 1, (scrollY + viewportHeight) / LinePitch + 1)
      ensures inScrollArea ==> r.0 >= 0 && r.1 <= totalLines - 1
      ensures inScrollArea ==> forall k {:trigger LineTop(k)} ::
        0 <= k < totalLines && LineTop(k) < scrollY + viewportHeight && scrollY < LineTop(k) + LinePitch
        ==> r.0 <= k <= r.1
      ensures inScrollArea ==> forall k {:trigger LineTop(k)} :: r.0 <= k <= r.1 ==>
        && scrollY < LineTop(k) + LinePitch
        && LineTop(k) <= scrollY + viewportHeight + LinePitch
        && (k < r.1 ==> LineTop(k) <= scrollY + viewportHeight)
    {
      if !inScrollArea then (0, totalLines - 1)
      else
        var first := Max(0, scrollY / LinePitch);
        var last := Min(totalLines - 1, (scrollY + viewportHeight) / LinePitch + 1);
        assert forall k {:trigger LineTop(k)} ::
          0 <= k < totalLines && LineTop(k) < scrollY + viewportHeight && scrollY < LineTop(k) + LinePitch
          ==> first <= k <= last
        by {
          forall k | 0 <= k < totalLines && LineTop(k) < scrollY + viewportHeight && scrollY < LineTop(k) + LinePitch
            ensures first <= k <= last
          {
            VisibleRangeCovers(scrollY, viewportHeight, k);
          }
        }
        assert forall k {:trigger LineTop(k)} :: first <= k <= last ==>
          && scrollY < LineTop(k) + LinePitch
          && LineTop(k) <= scrollY + viewportHeight + LinePitch
          && (k < last ==> LineTop(k) <= scrollY + viewportHeight)
        by {
          forall k | first <= k <= last
            ensures scrollY < LineTop(k) + LinePitch
            ensures LineTop(k) <= scrollY + viewportHeight + LinePitch
            ensures k < last ==> LineTop(k) <= scrollY + viewportHeight
          {
            VisibleRangeTight(scrollY, viewportHeight, k);
          }
        }
        (first, last)
    }

    /** The line table holds exactly the indices `0 .. total_lines - 1`. */
    lemma InTable(k: int)
      requires Valid()
      ensures k in lineTimeInfo <==> 0 <= k < totalLines
    {
    }

    /** After the loading loop has reached `hi`, starting from the cache
        `c0`: entries of `c0` are kept, every line of `lo..hi-1` in the table
        is cached, and every new entry is such a line with its envelope. */
    ghost predicate Filled(c0: map<int, Envelope.Envelope>, c: map<int, Envelope.Envelope>,
                           lo: int, hi: int, widthPx: int, read: (int, int) -> seq<int>)
      reads this`lineTimeInfo, this`totalLines
    {
      && (forall k :: k in c0 ==> k in c && c[k] == c0[k])
      && (forall k :: lo <= k < hi && 0 <= k < totalLines ==> k in c)
      && (forall k :: k in c && k !in c0 ==> lo <= k < hi && 0 <= k < totalLines)
      && (forall k :: k in c && k !in c0 ==> k in lineTimeInfo && c[k] == LineEnvelope(k, widthPx, read))
    }

    /** One step of the loading loop keeps `Filled`. */
    lemma FillStep(c0: map<int, Envelope.Envelope>, before: map<int, Envelope.Envelope>,
                   after: map<int, Envelope.Envelope>,
                   lo: int, idx: int, widthPx: int, read: (int, int) -> seq<int>)
      requires lo <= idx < totalLines && Filled(c0, before, lo, idx, widthPx, read)
      requires idx in before || idx < 0 ==> after == before
      requires idx !in before && 0 <= idx ==>
        idx in lineTimeInfo && after == before[idx := LineEnvelope(idx, widthPx, read)]
      ensures Filled(c0, after, lo, idx + 1, widthPx, read)
    {
    }

    /** The loading loop of `paintEvent`: every line of `first..last` that
        is in the table gets an envelope, lines already cached keep theirs,
        and no other line is added. */
    method FillVisibleLines(first: int, last: int, widthPx: int, read: (int, int) -> seq<int>)
      requires Valid()
      modifies this`lineCache
      ensures Valid()
      ensures forall k :: k in old(lineCache) ==> k in lineCache && lineCache[k] == old(lineCache)[k]
      ensures forall k :: first <= k <= last && 0 <= k < totalLines ==> k in lineCache
      ensures forall k :: k in lineCache && k !in old(lineCache) ==> first <= k <= last && 0 <= k < totalLines
      ensures forall k :: k in lineCache && k !in old(lineCache) ==> lineCache[k] == LineEnvelope(k, widthPx, read)
    {
      var idx := first;
      while idx <= last
        invariant Valid()
        invariant first <= idx && (idx == first || idx <= last + 1)
        invariant Filled(old(lineCache), lineCache, first, idx, widthPx, read)
      {
        if idx >= totalLines {
          break;
        }
        InTable(idx);
        ghost var before := lineCache;
        LoadLineData(idx, widthPx, read);
        FillStep(old(lineCache), before, lineCache, first, idx, widthPx, read);
        idx := idx + 1;
      }
    }
  }
}
