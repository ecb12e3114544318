/**
 * The integer clamps the player applies before handing a value to the
 * audio engine (`AudioProcessor.set_position_ms` and `set_volume`). The
 * engine itself is not modelled: a seek is represented by the absolute
 * position that would be sent, or `None` when no seek is issued.
 */
module Transport {
  import opened Wrappers
  import opened Arith

  /** `set_position_ms`: no seek at all while the duration is unknown
      (0 or less); otherwise the requested position clamped to
      `[0, duration - 1]`. */
  function SeekTarget(durationMs: int, ms: int): (r: Option<int>)
    ensures r.Some? <==> durationMs > 0
    ensures r.Some? ==> 0 <= r.value < durationMs
    ensures r.Some? && 0 <= ms < durationMs ==> r.value == ms
    ensures r.Some? && ms < 0 ==> r.value == 0
    ensures r.Some? && ms >= durationMs ==> r.value == durationMs - 1
  {
    if durationMs > 0 then Some(Max(0, Min(ms, durationMs - 1))) else None
  }

  /** Seeking to a position the clamp produced lands there again. */
  lemma SeekTargetIdempotent(durationMs: int, ms: int)
    requires durationMs > 0
    ensures SeekTarget(durationMs, SeekTarget(durationMs, ms).value) == SeekTarget(durationMs, ms)
  {
  }

  /** `set_volume`: the percentage clamped to `[0, 100]`. */
  function ClampVolume(vol: int): (r: int)
    ensures 0 <= r <= 100
    ensures 0 <= vol <= 100 ==> r == vol
    ensures vol < 0 ==> r == 0
    ensures vol > 100 ==> r == 100
  {
    Max(0, Min(100, vol))
  }
}
