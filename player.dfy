/**
 * The rules of the main window (`AudioPlayer`) that decide what is sent to
 * the marker store and the audio engine: the A-B loop button, the loop
 * check of every timer tick, and the seeks of the arrow, `,` and `.` keys.
 * The playback position is an input here: it is what the engine reports.
 */
module Player {
  import opened Wrappers
  import opened Arith
  import Transport
  import Markers

  /** What `_toggle_loop` does with the positions of the selected markers,
      in selection order: a warning that changes nothing, or a `set_loop`
      call. */
  datatype LoopCommand = Rejected | SetLoop(startMs: Option<int>, endMs: Option<int>)

  /** Two or more selected markers give a loop between the first two,
      lower bound first; two at the same position are refused; fewer than
      two switch the loop off. */
  function LoopSelection(selected: seq<int>): (c: LoopCommand)
    ensures c.Rejected? <==> |selected| >= 2 && selected[0] == selected[1]
    ensures |selected| < 2 ==> c == SetLoop(None, None)
    ensures |selected| >= 2 && selected[0] != selected[1] ==>
      && c.SetLoop? && c.startMs.Some? && c.endMs.Some?
      && c.startMs.value < c.endMs.value
      && {c.startMs.value, c.endMs.value} == {selected[0], selected[1]}
  {
    if |selected| >= 2 then
      var ms1, ms2 := selected[0], selected[1];
      if ms1 == ms2 then Rejected
      else if ms1 < ms2 then SetLoop(Some(ms1), Some(ms2))
      else SetLoop(Some(ms2), Some(ms1))
    else SetLoop(None, None)
  }

  /** `_toggle_loop`: `warned` is the "two different markers" warning, in
      which case the loop state is left as it was. A loop built from two
      selected markers is always enabled. */
  method ToggleLoop(m: Markers.MarkersManager, selected: seq<int>) returns (warned: bool)
    requires m.Valid()
    modifies m`loopStart, m`loopEnd, m`loopEnabled
    ensures m.Valid()
    ensures warned <==> LoopSelection(selected).Rejected?
    ensures warned ==>
      m.loopStart == old(m.loopStart) && m.loopEnd == old(m.loopEnd) && m.loopEnabled == old(m.loopEnabled)
    ensures !warned ==>
      m.loopStart == LoopSelection(selected).startMs && m.loopEnd == LoopSelection(selected).endMs
    ensures m.loopEnabled <==> (if warned then old(m.loopEnabled) else |selected| >= 2)
  {
    var c := LoopSelection(selected);
    if c.Rejected? {
      warned := true;
      return;
    }
    warned := false;
    m.SetLoop(c.startMs, c.endMs);
  }

  /** `_on_tick`: the absolute seek issued when playback has reached the end
      of an enabled loop, clamped like every seek; none otherwise. */
  function TickSeek(m: Markers.MarkersManager, currentMs: int, durationMs: int): (r: Option<int>)
    reads m
    ensures r.Some? <==> m.ShouldLoop(currentMs).Some? && durationMs > 0
    ensures r.Some? ==> r == Transport.SeekTarget(durationMs, m.loopStart.value)
    ensures m.Valid() && r.Some? && 0 <= m.loopStart.value < durationMs ==> r.value == m.loopStart.value
  {
    match m.ShouldLoop(currentMs)
    case None => None
    case Some(target) => Transport.SeekTarget(durationMs, target)
  }

  /** Once playback is back at the loop start no further jump is issued
      until the loop end is reached again. */
  lemma TickAfterJump(m: Markers.MarkersManager, durationMs: int, currentMs: int)
    requires m.Valid() && m.loopEnabled
    requires m.loopStart.value <= currentMs < m.loopEnd.value
    ensures TickSeek(m, currentMs, durationMs) == None
  {
  }

  /** A loop from 5 s to 10 s fires from 10 s on, and not before. */
  lemma LoopScenario(m: Markers.MarkersManager)
    requires m.loopEnabled && m.loopStart == Some(5000) && m.loopEnd == Some(10000)
    ensures m.ShouldLoop(9999) == None
    ensures m.ShouldLoop(10000) == Some(5000)
    ensures m.ShouldLoop(10001) == Some(5000)
  {
  }

  // ---------------------------------------------------------------------
  // Keyboard seeks

  /** The arrow-key step: 30 s with Ctrl, else 1 s with Shift, else 5 s. */
  function SeekDelta(ctrl: bool, shift: bool): (d: int)
    ensures ctrl ==> d == 30000
    ensures !ctrl && shift ==> d == 1000
    ensures !ctrl && !shift ==> d == 5000
  {
    if ctrl then 30000 else if shift then 1000 else 5000
  }

  /** Left and Right arrows: the position sent to `set_position_ms`. Left is
      floored at 0 before the clamp; both are clamped into the file. */
  function ArrowSeek(currentMs: int, left: bool, ctrl: bool, shift: bool, durationMs: int): (r: Option<int>)
    ensures r.Some? <==> durationMs > 0
    ensures r.Some? ==> 0 <= r.value < durationMs
    ensures r.Some? && 0 <= currentMs < durationMs ==> (if left then r.value <= currentMs else r.value >= currentMs)
    ensures r.Some? && left && SeekDelta(ctrl, shift) <= currentMs < durationMs ==>
      r.value == currentMs - SeekDelta(ctrl, shift)
    ensures r.Some? && left && 0 <= currentMs < SeekDelta(ctrl, shift) ==> r.value == 0
    ensures r.Some? && !left && 0 <= currentMs && currentMs + SeekDelta(ctrl, shift) < durationMs ==>
      r.value == currentMs + SeekDelta(ctrl, shift)
    ensures r.Some? && !left && currentMs + SeekDelta(ctrl, shift) >= durationMs ==> r.value == durationMs - 1
  {
    var delta := SeekDelta(ctrl, shift);
    if left then Transport.SeekTarget(durationMs, Max(0, currentMs - delta))
    else Transport.SeekTarget(durationMs, currentMs + delta)
  }

  /** The `.` and `,` keys: jump to the nearest marker after (or before) the
      current position, if there is one. */
  function MarkerJump(markers: seq<Markers.Marker>, currentMs: int, forward: bool, durationMs: int): (r: Option<int>)
    ensures r.Some? ==> durationMs > 0 && 0 <= r.value < durationMs
    ensures forward && r.Some? ==> Markers.NearestAfter(markers, currentMs).Some?
    ensures !forward && r.Some? ==> Markers.NearestBefore(markers, currentMs).Some?
    ensures forward && r.Some? && 0 <= Markers.NearestAfter(markers, currentMs).value.ms < durationMs ==>
      r.value == Markers.NearestAfter(markers, currentMs).value.ms && r.value > currentMs
    ensures !forward && r.Some? && 0 <= Markers.NearestBefore(markers, currentMs).value.ms < durationMs ==>
      r.value == Markers.NearestBefore(markers, currentMs).value.ms && r.value < currentMs
    ensures r.None? <==> (|| durationMs <= 0
                          || (forward && forall i :: 0 <= i < |markers| ==> markers[i].ms <= currentMs)
                          || (!forward && forall i :: 0 <= i < |markers| ==> markers[i].ms >= currentMs))
  {
    var target := if forward then Markers.NearestAfter(markers, currentMs)
                  else Markers.NearestBefore(markers, currentMs);
    match target
    case None => None
    case Some(mk) => Transport.SeekTarget(durationMs, mk.ms)
  }
}
