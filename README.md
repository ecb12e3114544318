# Audinux waveform, marker and playlist core in Dafny

Audinux is a Linux audio player for long recordings. It shows the file as a
scrollable stack of waveform "lines" and lets the user set named markers,
loop between two of them, and keep a playlist. This project models the
integer bookkeeping behind those features and proves its properties:

- **Markers** (`markers.dfy`): the marker store `MarkersManager`. Adding a
  marker re-sorts the whole list by position with a stable sort. The module
  also has the nearest-marker queries, the sidecar records written by
  `save` and read by `load_for`, and the A↔B loop state (`set_loop`,
  `should_loop`).
- **Envelope** (`envelope.dfy`): the min/max bucketing in
  `get_waveform_segment`, over integer samples.
- **Waveform** (`waveform.dfy`): the view state of `WaveformWidget`. This
  covers the layout of lines (`_calculate_layout`), the per-line envelope
  cache (`_load_line_data` and the loading loop of `paintEvent`), the
  visible line range and the playhead-on-line test.
- **Playlists** (`playlist.dfy`): the `Playlist` cursor.
- **Player** (`player.dfy`): rules of the main window. These are the loop
  button (`_toggle_loop`), the loop check of every tick (`_on_tick`) and
  the seeks of the arrow, `,` and `.` keys.
- **Transport** (`transport.dfy`): the clamps in `set_position_ms` and
  `set_volume`.
- **Format** (`format.dfy`): `fmt_ms` and `markers_path_for`.
- `wrappers.dfy` (Option) and `arith.dfy` (division facts) are shared helpers.

State that the source changes in place is a class: `MarkersManager`,
`Playlist` and `WaveformModel`. Each has a `Valid()` invariant that its
methods keep. Logic written as expressions is a function with lemmas.

Inputs from outside the core are parameters:
- the decoded samples of a window: `read(start, end)`;
- the result of a file write: `writeOk`;
- the parsed sidecar entries: `stored`;
- the playback position: `currentMs`;
- the widget and scroll geometry: `heightPx`, `widthPx`, `scrollY`,
  `viewportHeight`, `inScrollArea`;
- `int(30000 / zoom)` for the zoom level: `scaledTime`.

Points where the code behaves differently from what a reader might
expect, all modelled as the code has them:
- `set_loop` keeps the bounds it was given even when the loop ends up off.
  The bounds are not cleared.
- With more samples than the resolution, the envelope has `len // b`
  entries with `b = len // resolution`. That is between `resolution` and
  `2 * resolution - 1` entries, not exactly `resolution`.
- The playhead is drawn on a line when `start <= playhead <= end`, a
  closed interval. A position on a line boundary is therefore on two
  lines.
- The cache is emptied eagerly by `_calculate_layout`, before it refills
  the line table.
- Markers are sorted only by `add_marker`. `load_for` keeps the order of
  the file. Because `add_marker` sorts the whole list, the list is sorted
  after any addition.

## Model

| member | source | states |
|---|---|---|
| `Format.MarkersPathFor` | main_backup.py:26-29 | the sidecar path is the audio path followed by `.markers.json` |
| `Format.MarkersPathRoundTrip` | main_backup.py:26-29 | removing the suffix from a sidecar path gives back the audio path |
| `Format.MarkersPathInjective` | main_backup.py:26-29 | two different audio files never share a sidecar file |
| `Format.Pad2OfSmall` | main_backup.py:53-54 | `Pad2` (`f"{n:02d}"`) of `0 <= n < 100` is exactly two digits whose value is `n` |
| `Format.Pad2OfNat` | main_backup.py:53-54 | `Pad2` of any `n >= 0` is at least two digits whose value is `n`, with no leading zero once it is longer than two |
| `Format.DecimalRoundTrip` | main_backup.py:53-54 | the decimal numeral `Decimal` that the padding extends reads back as its number |
| `Format.SplitSeconds` | main_backup.py:47-51 | `h`, `m` and `s` decompose the whole seconds exactly, with `m` and `s` below 60 |
| `Format.HourField` | main_backup.py:49-52 | the hour field of a non-negative position is zero exactly below 3 600 000 ms |
| `Format.ClockRoundTrip` | main_backup.py:52-54 | `Clock` (the two branches of `fmt_ms`) of in-range fields reads back as their seconds, and is five characters exactly when the hour field is zero |
| `Format.FmtMsRoundTrip` | main_backup.py:46-54 | for `ms >= 0`, `FmtMs` (`fmt_ms`) gives a label that `ParseClock` reads back as `ms // 1000` seconds. `ParseClock` takes only labels of the printed form: minutes and seconds below 60, and an hour field that is non-zero, at least two digits and zero padded only to two. The label is `MM:SS` (five characters) exactly below one hour, and `HH:MM:SS` from one hour on |
| `Format.FmtMsOfMinusOne` | main_backup.py:46-54 | position -1 (nothing loaded) is shown as `-1:59:59`, following Python's floor division |
| `Format.ParseClockRejects` | main_backup.py:46-54 | labels `fmt_ms` never prints (`00:90`, `1:00:00`, `001:00:00`) are refused by `ParseClock` |
| `Transport.SeekTarget` | main_backup.py:324-327 | no seek while the duration is 0 or less. Otherwise the position is clamped into `[0, duration - 1]`, is unchanged inside that range, and goes to the nearer end outside it |
| `Transport.SeekTargetIdempotent` | main_backup.py:324-327 | clamping a clamped position changes nothing |
| `Transport.ClampVolume` | main_backup.py:337-340 | the volume lies in `[0, 100]`, is unchanged inside that range, and goes to the nearer end outside it |
| `Markers.SortByMsSorted` | main_backup.py:112 | sorting by position gives a list ascending by `ms` |
| `Markers.SortByMsPermutation` | main_backup.py:112 | sorting keeps exactly the same markers (same multiset) |
| `Markers.SortByMsStable` | main_backup.py:112 | markers at the same position keep their relative order (stable sort) |
| `Markers.SortOfSorted` | main_backup.py:112 | re-sorting an already sorted list leaves it unchanged |
| `Markers.InsertSplits` | main_backup.py:112 | `Insert`, the step of `SortByMs`, places the marker after every marker of `t` up to its first later one; all those are at or before its position |
| `Markers.InsertSorted` | main_backup.py:112 | `Insert` keeps a sorted list sorted |
| `Markers.InsertMultiset` | main_backup.py:112 | `Insert` adds exactly the one marker |
| `Markers.InsertAtMs` | main_backup.py:112 | on a sorted list, `Insert` appends the marker behind the markers at its own position and leaves every other position unchanged |
| `Markers.AddToSorted` | main_backup.py:110-113 | appending to a sorted list and sorting puts the new marker behind every marker at or before its position and in front of every later one |
| `Markers.NearestBefore` | main_backup.py:122-124 | `None` exactly when no marker lies before `t`; otherwise the last marker in list order with `ms < t` |
| `Markers.NearestAfter` | main_backup.py:126-128 | `None` exactly when no marker lies after `t`; otherwise the first marker in list order with `ms > t` |
| `Markers.BeforeLast` | main_backup.py:123-124 | `Before` (`[m for m in s if m.ms < t]`) is empty exactly when no marker lies before `t`; otherwise its last element is the last such marker of `s` |
| `Markers.AfterFirst` | main_backup.py:127-128 | `After` (`[m for m in s if m.ms > t]`) is empty exactly when no marker lies after `t`; otherwise its first element is the first such marker of `s` |
| `Markers.NearestAreTightest` | main_backup.py:122-128 | on a sorted list the two answers are the greatest position below `t` and the least position above it |
| `Markers.NearestScenario` | main_backup.py:122-128 | with markers at 5000 and 20000, at 10000 the neighbours are the markers at 5000 and 20000 |
| `Markers.FromRecord` | main_backup.py:99-102 | a loaded entry with a missing name gets the empty name; a missing position becomes 0 |
| `Markers.ToRecords` | main_backup.py:107 | `save` writes one entry per marker, in list order, each with the marker's name and position |
| `Markers.FromRecords` | main_backup.py:102 | `load_for` builds one marker per entry, in file order, each by `FromRecord` |
| `Markers.SaveLoadRoundTrip` | main_backup.py:99-108 | markers written by `save` and read back by `load_for` are the same markers in the same order |
| `Markers.MarkersManager.constructor` | main_backup.py:92-97 | a new store has no markers, no file and no loop |
| `Markers.MarkersManager.LoadFor` | main_backup.py:99-102 | the file becomes current and the markers are replaced by the stored entries, unsorted |
| `Markers.MarkersManager.SidecarPath` | main_backup.py:104-108 | there is a target exactly when a non-empty audio path is current, and the target is that file's sidecar |
| `Markers.MarkersManager.Save` | main_backup.py:104-108 | success exactly when there is a target and the write succeeds; the records written load back as the current markers |
| `Markers.MarkersManager.AddMarker` | main_backup.py:110-113 | the new list is the stable sort of the old list plus the new marker. It is sorted, it is the old multiset plus the marker, and it keeps the order at every position |
| `Markers.MarkersManager.List` | main_backup.py:115-116 | returns the markers in their current order |
| `Markers.MarkersManager.Clear` | main_backup.py:118-120 | the list becomes empty |
| `Markers.MarkersManager.SetLoop` | main_backup.py:130-133 | both bounds are stored as given. The loop is on iff both are present and start < end. From then on `ShouldLoop(c)` fires iff that holds and `c >= end` |
| `Markers.MarkersManager.ShouldLoop` | main_backup.py:135-139 | returns the loop start iff the loop is on, both bounds are present and `c >= end`, and `None` otherwise; the jump always goes back (start < end <= c) |
| `Playlists.Playlist.constructor` | main_backup.py:143-145 | an empty list with index -1 |
| `Playlists.Playlist.Add` | main_backup.py:147-150 | appends the path; the first path added becomes current, otherwise the index is kept; the invariant (index -1 iff empty, else in range) holds |
| `Playlists.Playlist.Current` | main_backup.py:152-155 | `None` exactly when the list is empty, else the item under the cursor |
| `Playlists.Playlist.Next` | main_backup.py:157-161 | moves forward by exactly one and returns that item when there is a next item. Otherwise it returns `None` and leaves the index unchanged |
| `Playlists.Playlist.Prev` | main_backup.py:163-167 | moves back by exactly one and returns that item when there is a previous item. Otherwise it returns `None` and leaves the index unchanged |
| `Playlists.Playlist.All` | main_backup.py:169-170 | returns the paths in order |
| `Playlists.PlaylistWalk` | main_backup.py:147-167 | with two items, `next` reaches the second, a further `next` gives `None`, and `prev` returns to the first |
| `Envelope.MinOf` | main_backup.py:285 | the minimum is one of the samples and no sample is smaller |
| `Envelope.MaxOf` | main_backup.py:286 | the maximum is one of the samples and no sample is larger |
| `Envelope.FloorDiv` | main_backup.py:275 | Python's `//`: Euclidean division for a positive divisor; for a negative divisor the `q` with `q * b >= a > (q + 1) * b` (rounding towards minus infinity), negative for a positive dividend |
| `Envelope.BucketSize` | main_backup.py:275-277 | at least 1; `len // resolution` for a positive resolution; 1 for a negative one |
| `Envelope.Bucket` | main_backup.py:280-284 | block `i` of the reshaped window lies inside the window and holds exactly the `b` samples from `i * b` on |
| `Envelope.ExtractEmpty` | main_backup.py:267-268 | an empty window gives two empty sequences |
| `Envelope.ExtractSmallWindow` | main_backup.py:270-272 | a window of at most `resolution` samples is returned as both mins and maxs |
| `Envelope.ExtractZeroResolution` | main_backup.py:275-291 | resolution 0 makes the division raise, and the handler returns an empty envelope |
| `Envelope.ExtractNegativeResolution` | main_backup.py:275-286 | a negative resolution gives blocks of one sample, so the window is its own envelope |
| `Envelope.ExtractSize` | main_backup.py:267-291 | `Extract`'s mins and maxs always have the same length, never longer than the window |
| `Envelope.ExtractShape` | main_backup.py:274-288 | with `b = len // resolution` there are `len // b` entries in each output. That is at least `resolution` and fewer than `2 * resolution`. The dropped tail is shorter than `b` |
| `Envelope.ExtractEntry` | main_backup.py:280-286 | entry `i` is the min and the max of samples `[i*b, (i+1)*b)` |
| `Envelope.ExtractBuckets` | main_backup.py:280-286 | `mins[i] <= maxs[i]`. Both values occur in block `i`, and every sample of the block lies between them |
| `Envelope.ExtractCoversSamples` | main_backup.py:280-286 | every kept sample `j` lies between `mins[j // b]` and `maxs[j // b]` |
| `Envelope.ExtractMoreBucketsThanResolution` | main_backup.py:274-288 | 250 samples at resolution 100 give 125 entries |
| `Waveform.TimePerLine` | main_backup.py:388-392 | at least 5000 ms and at least `int(30000 / zoom)`, and equal to one of them |
| `Waveform.CeilDiv` | main_backup.py:395 | the least `q` with `a <= q * b` (`ceil(a / b)`) |
| `Waveform.Resolution` | main_backup.py:459-460 | at least 100. It is 100 for widths up to 301 px and `(width - 100) // 2` from 302 px on |
| `Waveform.LineShape` | main_backup.py:405-413 | line `i` starts at `i*T`, is non-empty, ends inside the file and is at most `T` long. Every line but the last ends at `(i+1)*T`; the last ends at the duration |
| `Waveform.LinesAbut` | main_backup.py:405-413 | each line ends where the next one starts |
| `Waveform.LayoutCovers` | main_backup.py:395-413 | a positive duration gives at least one line; the first starts at 0 and the last ends at the duration |
| `Waveform.LineOfPosition` | main_backup.py:405-413 | every position in `[0, duration)` lies in the half-open interval of line `p // T` and of no other line |
| `Waveform.LineLabels` | main_backup.py:406-413 | the labels `LineAt` stores are `fmt_ms` of the line's bounds: each reads back as the whole seconds of its bound |
| `Waveform.LinesStep` | main_backup.py:405-413 | `Lines`, the table after `n` loop steps, grows by exactly line `i` in step `i` |
| `Waveform.PlayheadLine` | main_backup.py:541-545 | under `PlayheadOnLine`, the closed test `start <= p <= end`, a position in `[0, duration]` is on line `min(p // T, n - 1)` |
| `Waveform.PlayheadLinesOnly` | main_backup.py:541-545 | under `PlayheadOnLine` a position is on no line other than `p // T` and, when it lies exactly on a boundary, the line before it |
| `Waveform.OneHourAtZoomOne` | main_backup.py:388-395 | one hour at zoom 1.0 gives 30 s lines and 120 of them |
| `Waveform.VisibleRangeCovers` | main_backup.py:438-442 | a line whose pixel band meets the viewport lies between `scroll_y // pitch` and `(scroll_y + viewport) // pitch` |
| `Waveform.VisibleRangeTight` | main_backup.py:438-442 | a line between `scroll_y // pitch` and one past `(scroll_y + viewport) // pitch` ends below the top edge and starts at most one pitch below the bottom edge |
| `Waveform.WaveformModel.constructor` | main_backup.py:344-356 | no duration, no lines, empty cache and line table |
| `Waveform.WaveformModel.CalculateLayout` | main_backup.py:380-417 | without a processor or a positive duration nothing changes. Otherwise the duration, `T`, the line count `ceil(D / T)` and the visible line count are set, the cache is emptied, the table holds exactly lines `0..n-1` as above, and the minimum height is `n * 76` |
| `Waveform.WaveformModel.InTable` | main_backup.py:404-413 | `line_time_info` holds exactly the indices `0 .. total_lines - 1` |
| `Waveform.WaveformModel.LoadLineData` | main_backup.py:446-464 | a cached line and an index outside the table leave the cache unchanged. Otherwise exactly one entry is added: the envelope of that line's window at the width's resolution |
| `Waveform.WaveformModel.LineEnvelope` | main_backup.py:454-463 | the envelope read for a line of the table has mins and maxs of one length, no longer than its samples. It is the samples themselves when there are at most `resolution` of them, and otherwise between `resolution` and `2 * resolution - 1` entries |
| `Waveform.WaveformModel.VisibleLineRange` | main_backup.py:429-444 | outside a scroll area the range is all lines. Inside one it starts at `max(0, scroll_y // pitch)` and ends at `min(n - 1, (scroll_y + viewport) // pitch + 1)`. It holds every line whose band meets the viewport, and every line in it ends below the top edge and starts at most one pitch below the bottom edge (at or above it, but for the last) |
| `Waveform.WaveformModel.FillVisibleLines` | main_backup.py:482-490 | every line of `first..last` in the table is cached afterwards, existing entries are unchanged, and each new entry is a line of that range with its envelope |
| `Player.LoopSelection` | main_backup.py:805-818 | two selected markers at the same position are refused; fewer than two switch the loop off; otherwise the first two become `start < end` in increasing order |
| `Player.ToggleLoop` | main_backup.py:805-818 | a refusal (warning) leaves the loop state unchanged. Otherwise `SetLoop` receives the ordered bounds, and the loop is on iff two markers were selected |
| `Player.TickSeek` | main_backup.py:820-823 | a seek is issued iff `should_loop` fires and the duration is known; it goes to the loop start, clamped |
| `Player.TickAfterJump` | main_backup.py:820-823 | once back inside the loop no further jump is issued until the end is reached again |
| `Player.LoopScenario` | main_backup.py:135-139 | with a loop from 5000 to 10000, 9999 gives no jump while 10000 and 10001 jump to 5000 |
| `Player.SeekDelta` | main_backup.py:873-877 | the step is 30 s with Ctrl (whatever Shift is), 1 s with Shift alone and 5 s otherwise |
| `Player.ArrowSeek` | main_backup.py:872-881 | the target is inside the file. Left never moves forward and right never moves back. Each moves by exactly the step when it stays in range, and otherwise stops at 0 (left) or at the last millisecond (right) |
| `Player.MarkerJump` | main_backup.py:862-871 | `.` seeks to the nearest marker after the position and `,` to the nearest before it. No seek when there is no such marker or no duration |

## Left out

- Audio decoding and playback (VLC, pydub) are not modelled. The decoded,
  normalised samples of a window are the parameter `read`. Its failures
  (missing file, decoding error) appear as an empty window.
- JSON and file I/O (`load_json`, `save_json`) and the settings store
  (`AppSettings`) are not modelled. The sidecar content is a sequence of
  records; the write outcome is `writeOk`.
- The `save` calls inside `add_marker` and `clear`: their result is
  discarded by the source and they do not change the store, so the model
  omits them.
- The float zoom and the rate: `zoom_in`, `zoom_out`, `set_speed`,
  `_on_rate_changed`, `_nudge_rate`. The zoom enters only as the integer
  `int(30000 / zoom)`.
- `np.ceil(duration / time_per_line)` is computed in floating point. The
  model uses exact integer ceiling, which agrees for durations below 2^53
  ms.
- Qt drawing and widgets: `paintEvent` beyond its cache-loading loop, the
  button text of `_toggle_loop`, dialogs and signal wiring.
  `keyPressEvent` is modelled only for the arrow, `,` and `.` keys.
- The timers (`_update_playhead`, `_on_tick` scheduling). Only the per-tick
  rule (`TickSeek`) is modelled.
- `Markers.FromRecord`: `int(m.get('ms', 0))` would also convert a float or
  a numeric string. The model's records hold integer positions only.
- `Markers.MarkersManager.LoadFor`: `load_for` raises, and the store keeps
  the new path with the old markers, when an entry is not a JSON object
  (`m.get` fails), when its `ms` is `null`, or when its `ms` is a string
  that `int()` rejects. An entry with `"name": null` loads with the name
  `None`. A record in the model holds only a missing or a present string
  name and a missing or a present integer position, so none of these cases
  can be expressed, and the model does not promise anything about them.
- `Waveform.WaveformModel.LoadLineData`: the cached envelope is keyed by
  line index only, as in the source. A later width change does not
  invalidate it, and the model does not claim it does.
