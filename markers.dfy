/**
 * The marker store (`MarkersManager`): a list of named positions kept for
 * the current audio file, the nearest-marker queries used by the `,` and
 * `.` keys, and the A-B loop state checked on every timer tick.
 */
module Markers {
  import opened Wrappers
  import Format

  datatype Marker = Marker(name: string, ms: int)

  predicate SortedByMs(s: seq<Marker>)
  {
    forall i, j :: 0 <= i < j < |s| ==> s[i].ms <= s[j].ms
  }

  /** The markers of `s` that sit exactly at position `k`, in list order. */
  function AtMs(s: seq<Marker>, k: int): seq<Marker>
  {
    if s == [] then [] else (if s[0].ms == k then [s[0]] else []) + AtMs(s[1..], k)
  }

  lemma {:induction false} AtMsAppend(a: seq<Marker>, b: seq<Marker>, k: int)
    ensures AtMs(a + b, k) == AtMs(a, k) + AtMs(b, k)
  {
    if a != [] {
      assert (a + b)[0] == a[0] && (a + b)[1..] == a[1..] + b;
      AtMsAppend(a[1..], b, k);
      var h := if a[0].ms == k then [a[0]] else [];
      assert AtMs(a + b, k) == h + AtMs(a[1..] + b, k);
      assert AtMs(a, k) == h + AtMs(a[1..], k);
    } else {
      assert a + b == b;
    }
  }

  lemma {:induction false} AtMsAllAbove(s: seq<Marker>, k: int)
    requires forall i :: 0 <= i < |s| ==> s[i].ms > k
    ensures AtMs(s, k) == []
  {
    if s != [] {
      AtMsAllAbove(s[1..], k);
    }
  }

  // ---------------------------------------------------------------------
  // `list.sort(key=lambda m: m.ms)`: a stable sort by position

  /** Puts `x` behind every leading marker at or before its position. */
  function Insert(t: seq<Marker>, x: Marker): seq<Marker>
  {
    if t == [] then [x]
    else if x.ms < t[0].ms then [x] + t
    else [t[0]] + Insert(t[1..], x)
  }

  /** The sorted list, built by inserting the markers in list order. */
  function SortByMs(s: seq<Marker>): seq<Marker>
  {
    if s == [] then [] else Insert(SortByMs(s[..|s| - 1]), s[|s| - 1])
  }

  /** The number of leading markers of `t` at or before position `k`. */
  function UpperBound(t: seq<Marker>, k: int): (p: nat)
    ensures p <= |t|
  {
    if t == [] || t[0].ms > k then 0 else 1 + UpperBound(t[1..], k)
  }

  lemma {:induction false} InsertMultiset(t: seq<Marker>, x: Marker)
    ensures multiset(Insert(t, x)) == multiset(t) + multiset{x}
  {
    if t != [] && x.ms >= t[0].ms {
      InsertMultiset(t[1..], x);
      assert t == [t[0]] + t[1..];
    }
  }

  lemma {:induction false} InsertSorted(t: seq<Marker>, x: Marker)
    requires SortedByMs(t)
    ensures SortedByMs(Insert(t, x))
  {
    if t != [] && x.ms >= t[0].ms {
      var rest := Insert(t[1..], x);
      InsertSorted(t[1..], x);
      InsertMultiset(t[1..], x);
      forall j | 0 <= j < |rest| ensures t[0].ms <= rest[j].ms {
        assert rest[j] in multiset(rest);
        assert rest[j] in t[1..] || rest[j] == x;
      }
    }
  }

  /** `Insert` places `x` right after the leading run of markers at or
      before its position. */
  lemma {:induction false} InsertSplits(t: seq<Marker>, x: Marker)
    ensures Insert(t, x) == t[..UpperBound(t, x.ms)] + [x] + t[UpperBound(t, x.ms)..]
    ensures forall i :: 0 <= i < UpperBound(t, x.ms) ==> t[i].ms <= x.ms
  {
    if t != [] && x.ms >= t[0].ms {
      InsertSplits(t[1..], x);
      var p := UpperBound(t[1..], x.ms);
      assert t[..p + 1] == [t[0]] + t[1..][..p];
      assert t[p + 1..] == t[1..][p..];
    }
  }

  /** Inserting a marker changes the markers at its own position by
      appending it behind them, and no others: equal positions keep their
      insertion order. */
  lemma {:induction false} InsertAtMs(t: seq<Marker>, x: Marker, k: int)
    requires SortedByMs(t)
    ensures AtMs(Insert(t, x), k) == AtMs(t, k) + (if x.ms == k then [x] else [])
  {
    if t == [] {
    } else if x.ms < t[0].ms {
      if x.ms == k {
        AtMsAllAbove(t, k);
      }
    } else {
      InsertAtMs(t[1..], x, k);
    }
  }

  lemma {:induction false} SortByMsSorted(s: seq<Marker>)
    ensures SortedByMs(SortByMs(s))
  {
    if s != [] {
      SortByMsSorted(s[..|s| - 1]);
      InsertSorted(SortByMs(s[..|s| - 1]), s[|s| - 1]);
    }
  }

  lemma {:induction false} SortByMsPermutation(s: seq<Marker>)
    ensures multiset(SortByMs(s)) == multiset(s)
  {
    if s != [] {
      SortByMsPermutation(s[..|s| - 1]);
      InsertMultiset(SortByMs(s[..|s| - 1]), s[|s| - 1]);
      assert s == s[..|s| - 1] + [s[|s| - 1]];
    }
  }

  /** Stability: for every position, the markers there appear in the same
      order before and after sorting. */
  lemma {:induction false} SortByMsStable(s: seq<Marker>, k: int)
    ensures AtMs(SortByMs(s), k) == AtMs(s, k)
  {
    if s != [] {
      var init, last := s[..|s| - 1], s[|s| - 1];
      SortByMsStable(init, k);
      SortByMsSorted(init);
      InsertAtMs(SortByMs(init), last, k);
      assert s == init + [last];
      AtMsAppend(init, [last], k);
    }
  }

  lemma {:induction false} SortOfSorted(s: seq<Marker>)
    requires SortedByMs(s)
    ensures SortByMs(s) == s
  {
    if s != [] {
      var init, last := s[..|s| - 1], s[|s| - 1];
      SortOfSorted(init);
      InsertSplits(init, last);
      assert UpperBound(init, last.ms) == |init| by {
        UpperBoundOfAllBelow(init, last.ms);
      }
      assert init[..|init|] == init;
    }
  }

  lemma {:induction false} UpperBoundOfAllBelow(t: seq<Marker>, k: int)
    requires forall i :: 0 <= i < |t| ==> t[i].ms <= k
    ensures UpperBound(t, k) == |t|
  {
    if t != [] {
      UpperBoundOfAllBelow(t[1..], k);
    }
  }

  lemma {:induction false} UpperBoundSorted(t: seq<Marker>, k: int)
    requires SortedByMs(t)
    ensures forall i :: UpperBound(t, k) <= i < |t| ==> t[i].ms > k
  {
    if t != [] && t[0].ms <= k {
      UpperBoundSorted(t[1..], k);
    }
  }

  /** Adding a marker to a sorted list puts it behind every marker at or
      before its position and in front of every later one. */
  lemma AddToSorted(t: seq<Marker>, x: Marker)
    requires SortedByMs(t)
    ensures var p := UpperBound(t, x.ms);
      && SortByMs(t + [x]) == t[..p] + [x] + t[p..]
      && (forall i :: 0 <= i < p ==> t[i].ms <= x.ms)
      && (forall i :: p <= i < |t| ==> t[i].ms > x.ms)
  {
    assert (t + [x])[..|t|] == t;
    SortOfSorted(t);
    InsertSplits(t, x);
    UpperBoundSorted(t, x.ms);
  }

  // ---------------------------------------------------------------------
  // `nearest_before` / `nearest_after`

  /** `[m for m in s if m.ms < t]` */
  function Before(s: seq<Marker>, t: int): seq<Marker>
  {
    if s == [] then []
    else Before(s[..|s| - 1], t) + (if s[|s| - 1].ms < t then [s[|s| - 1]] else [])
  }

  /** `[m for m in s if m.ms > t]` */
  function After(s: seq<Marker>, t: int): seq<Marker>
  {
    if s == [] then [] else (if s[0].ms > t then [s[0]] else []) + After(s[1..], t)
  }

  lemma {:induction false} BeforeLast(s: seq<Marker>, t: int)
    ensures Before(s, t) == [] <==> forall i :: 0 <= i < |s| ==> s[i].ms >= t
    ensures Before(s, t) != [] ==>
      exists i :: 0 <= i < |s| && s[i] == Before(s, t)[|Before(s, t)| - 1] && s[i].ms < t
        && forall j :: i < j < |s| ==> s[j].ms >= t
  {
    if s != [] {
      var init, x := s[..|s| - 1], s[|s| - 1];
      BeforeLast(init, t);
      assert forall i :: 0 <= i < |init| ==> s[i] == init[i];
      if x.ms < t {
        assert Before(s, t) == Before(init, t) + [x];
        assert s[|s| - 1] == Before(s, t)[|Before(s, t)| - 1];
      } else {
        assert Before(s, t) == Before(init, t);
        if Before(init, t) != [] {
          var i :| 0 <= i < |init| && init[i] == Before(init, t)[|Before(init, t)| - 1] && init[i].ms < t
            && forall j :: i < j < |init| ==> init[j].ms >= t;
          assert s[i] == init[i];
        }
      }
    }
  }

  lemma {:induction false} AfterFirst(s: seq<Marker>, t: int)
    ensures After(s, t) == [] <==> forall i :: 0 <= i < |s| ==> s[i].ms <= t
    ensures After(s, t) != [] ==>
      exists i :: 0 <= i < |s| && s[i] == After(s, t)[0] && s[i].ms > t
        && forall j :: 0 <= j < i ==> s[j].ms <= t
  {
    if s != [] {
      var rest := s[1..];
      AfterFirst(rest, t);
      assert forall i :: 0 <= i < |rest| ==> s[i + 1] == rest[i];
      if s[0].ms > t {
        assert After(s, t) == [s[0]] + After(rest, t);
        assert s[0] == After(s, t)[0];
      } else {
        assert After(s, t) == After(rest, t);
        if After(rest, t) != [] {
          var i :| 0 <= i < |rest| && rest[i] == After(rest, t)[0] && rest[i].ms > t
            && forall j :: 0 <= j < i ==> rest[j].ms <= t;
          assert s[i + 1] == rest[i];
          assert forall j :: 1 <= j < i + 1 ==> s[j] == rest[j - 1];
        }
      }
    }
  }

  /** `nearest_before`: the last marker in list order that lies strictly
      before `t`, or `None` when there is none. */
  function NearestBefore(s: seq<Marker>, t: int): (r: Option<Marker>)
    ensures r.None? <==> forall i :: 0 <= i < |s| ==> s[i].ms >= t
    ensures r.Some? ==>
      exists i :: 0 <= i < |s| && s[i] == r.value && s[i].ms < t
        && forall j :: i < j < |s| ==> s[j].ms >= t
  {
    BeforeLast(s, t);
    var prev := Before(s, t);
    if prev == [] then None else Some(prev[|prev| - 1])
  }

  /** `nearest_after`: the first marker in list order that lies strictly
      after `t`, or `None` when there is none. */
  function NearestAfter(s: seq<Marker>, t: int): (r: Option<Marker>)
    ensures r.None? <==> forall i :: 0 <= i < |s| ==> s[i].ms <= t
    ensures r.Some? ==>
      exists i :: 0 <= i < |s| && s[i] == r.value && s[i].ms > t
        && forall j :: 0 <= j < i ==> s[j].ms <= t
  {
    AfterFirst(s, t);
    var nxt := After(s, t);
    if nxt == [] then None else Some(nxt[0])
  }

  /** On a sorted list the answers are the tightest bounds below and above. */
  lemma NearestAreTightest(s: seq<Marker>, t: int)
    requires SortedByMs(s)
    ensures NearestBefore(s, t).Some? ==>
      forall i :: 0 <= i < |s| && s[i].ms < t ==> s[i].ms <= NearestBefore(s, t).value.ms
    ensures NearestAfter(s, t).Some? ==>
      forall i :: 0 <= i < |s| && s[i].ms > t ==> NearestAfter(s, t).value.ms <= s[i].ms
  {
  }

  lemma NearestScenario()
    ensures NearestBefore([Marker("m1", 5000), Marker("m2", 20000)], 10000) == Some(Marker("m1", 5000))
    ensures NearestAfter([Marker("m1", 5000), Marker("m2", 20000)], 10000) == Some(Marker("m2", 20000))
  {
    var s := [Marker("m1", 5000), Marker("m2", 20000)];
    assert s[..1] == [Marker("m1", 5000)];
    assert s[1..] == [Marker("m2", 20000)];
  }

  // ---------------------------------------------------------------------
  // The sidecar records

  /** One entry of the sidecar's JSON array; a field may be missing. */
  datatype Record = Record(name: Option<string>, ms: Option<int>)

  /** The entry `save` writes for a marker (`m.__dict__`). */
  function ToRecord(m: Marker): Record
  {
    Record(Some(m.name), Some(m.ms))
  }

  /** The marker `load_for` builds from an entry: a missing name reads as
      the empty name, a missing position as 0. */
  function FromRecord(r: Record): (m: Marker)
    ensures r.name.Some? ==> m.name == r.name.value
    ensures r.name.None? ==> m.name == ""
    ensures r.ms.Some? ==> m.ms == r.ms.value
    ensures r.ms.None? ==> m.ms == 0
  {
    Marker(if r.name.Some? then r.name.value else "", if r.ms.Some? then r.ms.value else 0)
  }

  /** The array `save` writes: one entry per marker, in list order, each
      carrying the marker's name and position. */
  function ToRecords(s: seq<Marker>): (rs: seq<Record>)
    ensures |rs| == |s|
    ensures forall i :: 0 <= i < |s| ==> rs[i].name == Some(s[i].name) && rs[i].ms == Some(s[i].ms)
  {
    seq(|s|, i requires 0 <= i < |s| => ToRecord(s[i]))
  }

  /** The list `load_for` builds: one marker per entry, in file order. */
  function FromRecords(rs: seq<Record>): (s: seq<Marker>)
    ensures |s| == |rs|
    ensures forall i :: 0 <= i < |rs| ==> s[i] == FromRecord(rs[i])
  {
    seq(|rs|, i requires 0 <= i < |rs| => FromRecord(rs[i]))
  }

  /** Markers saved for a file and loaded again are the same markers in
      the same order. */
  lemma SaveLoadRoundTrip(s: seq<Marker>)
    ensures FromRecords(ToRecords(s)) == s
  {
    var back := FromRecords(ToRecords(s));
    forall i | 0 <= i < |s| ensures back[i] == s[i] {
      assert ToRecords(s)[i] == ToRecord(s[i]);
    }
  }

  // ---------------------------------------------------------------------
  // The store

  class MarkersManager {
    var markers: seq<Marker>
    var audioPath: Option<string>
    var loopEnabled: bool
    var loopStart: Option<int>
    var loopEnd: Option<int>

    /** An enabled loop has both bounds, in order. */
    ghost predicate Valid()
      reads this
    {
      loopEnabled ==> loopStart.Some? && loopEnd.Some? && loopStart.value < loopEnd.value
    }

    constructor ()
      ensures Valid()
      ensures markers == [] && audioPath == None
      ensures !loopEnabled && loopStart == None && loopEnd == None
    {
      markers := [];
      audioPath := None;
      loopEnabled := false;
      loopStart := None;
      loopEnd := None;
    }

    /** `load_for`: switches to `path` and replaces the markers by the
        entries read from its sidecar (`stored`, empty when the file is
        missing or unreadable). The loaded list is not sorted. */
    method LoadFor(path: string, stored: seq<Record>)
      requires Valid()
      modifies this`markers, this`audioPath
      ensures Valid()
      ensures audioPath == Some(path)
      ensures markers == FromRecords(stored)
    {
      audioPath := Some(path);
      markers := FromRecords(stored);
    }

    /** Where `save` writes: nowhere while no file (or an empty path) is
        current. */
    function SidecarPath(): (p: Option<string>)
      reads this
      ensures p.Some? <==> audioPath.Some? && audioPath.value != ""
      ensures p.Some? ==> Format.AudioPathOf(p.value) == audioPath
    {
      if audioPath.Some? && audioPath.value != "" then
        Format.MarkersPathRoundTrip(audioPath.value);
        Some(Format.MarkersPathFor(audioPath.value))
      else None
    }

    /** `save`: writes `ToRecords(markers)` to the sidecar. `writeOk` is
        the outcome of the file write; the result is false when there is
        no current file or the write failed. */
    method Save(writeOk: bool) returns (ok: bool, written: seq<Record>)
      ensures ok <==> SidecarPath().Some? && writeOk
      ensures FromRecords(written) == markers
    {
      written := ToRecords(markers);
      SaveLoadRoundTrip(markers);
      ok := SidecarPath().Some? && writeOk;
    }

    /** `add_marker`: appends the marker and stable-sorts the whole list
        by position. */
    method AddMarker(positionMs: int, name: string)
      requires Valid()
      modifies this`markers
      ensures Valid()
      ensures markers == SortByMs(old(markers) + [Marker(name, positionMs)])
      ensures SortedByMs(markers)
      ensures multiset(markers) == multiset(old(markers)) + multiset{Marker(name, positionMs)}
      ensures forall k :: AtMs(markers, k) == AtMs(old(markers) + [Marker(name, positionMs)], k)
    {
      var m := Marker(name, positionMs);
      SortByMsSorted(markers + [m]);
      SortByMsPermutation(markers + [m]);
      forall k ensures AtMs(SortByMs(markers + [m]), k) == AtMs(markers + [m], k) {
        SortByMsStable(markers + [m], k);
      }
      markers := SortByMs(markers + [m]);
    }

    /** `list`: a copy of the markers in their current order. */
    method List() returns (r: seq<Marker>)
      ensures r == markers
    {
      r := markers;
    }

    /** `clear` */
    method Clear()
      requires Valid()
      modifies this`markers
      ensures Valid()
      ensures markers == []
    {
      markers := [];
    }

    /** `set_loop`: keeps both bounds as given; the loop is on exactly when
        both are present and in order. */
    method SetLoop(startMs: Option<int>, endMs: Option<int>)
      modifies this`loopStart, this`loopEnd, this`loopEnabled
      ensures Valid()
      ensures loopStart == startMs && loopEnd == endMs
      ensures loopEnabled <==> startMs.Some? && endMs.Some? && startMs.value < endMs.value
      ensures forall c :: ShouldLoop(c).Some? <==>
        startMs.Some? && endMs.Some? && startMs.value < endMs.value && c >= endMs.value
    {
      loopStart := startMs;
      loopEnd := endMs;
      loopEnabled := startMs.Some? && endMs.Some? && startMs.value < endMs.value;
    }

    /** `should_loop`: the position to jump back to once playback reaches
        the end of an enabled loop, `None` otherwise. The jump always goes
        backwards, to the loop start. */
    function ShouldLoop(currentMs: int): (r: Option<int>)
      reads this
      ensures r.Some? <==> loopEnabled && loopStart.Some? && loopEnd.Some? && currentMs >= loopEnd.value
      ensures r.Some? ==> r == loopStart
      ensures Valid() && r.Some? ==> r.value < loopEnd.value <= currentMs
    {
      if loopEnabled && loopStart.Some? && loopEnd.Some? && currentMs >= loopEnd.value
      then loopStart
      else None
    }
  }
}
