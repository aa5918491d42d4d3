/** The speaker timeline the long-recording mapper searches: diarization tracks of
    at least half a second, sorted by start time, and the binary search that finds
    the track covering a word's midpoint. Also the mapper's temporary-file path for
    recordings with more than 5000 tracks, as written. */
module Timeline {
  import opened Wrappers
  import opened Sorting

  /** One diarization track: a time span (seconds) and the diarization label. */
  datatype Interval = Interval(start: real, end: real, speaker: string)

  /** Tracks shorter than this are skipped. */
  const MinTrackDuration: real := 0.5
  /** More tracks than this send the mapper through the temporary file. */
  const SpillThreshold: nat := 5000
  /** Tracks are written to the temporary file in batches of this size. */
  const SpillBatch: nat := 1000

  predicate LongEnough(iv: Interval)
  {
    iv.end - iv.start >= MinTrackDuration
  }

  /** The tracks not skipped for being shorter than half a second, in order. */
  function KeepLong(tracks: seq<Interval>): (r: seq<Interval>)
    ensures |r| <= |tracks|
    ensures forall i :: 0 <= i < |r| ==> LongEnough(r[i])
  {
    KeptPrefix(tracks, |tracks|)
  }

  /** The kept tracks among the first `n`. */
  function KeptPrefix(tracks: seq<Interval>, n: nat): (r: seq<Interval>)
    requires n <= |tracks|
    ensures |r| <= n
    ensures forall i :: 0 <= i < |r| ==> LongEnough(r[i])
  {
    if n == 0 then []
    else KeptPrefix(tracks, n - 1) + (if LongEnough(tracks[n - 1]) then [tracks[n - 1]] else [])
  }

  /** Each long track is kept as often as it occurs; short tracks are dropped. */
  lemma {:induction false} KeptPrefixCount(tracks: seq<Interval>, n: nat)
    requires n <= |tracks|
    ensures forall x :: multiset(KeptPrefix(tracks, n))[x] == if LongEnough(x) then multiset(tracks[..n])[x] else 0
  {
    if n > 0 {
      KeptPrefixCount(tracks, n - 1);
      assert tracks[..n] == tracks[..n - 1] + [tracks[n - 1]];
    }
  }

  lemma KeepLongCount(tracks: seq<Interval>)
    ensures forall x :: multiset(KeepLong(tracks))[x] == if LongEnough(x) then multiset(tracks)[x] else 0
  {
    KeptPrefixCount(tracks, |tracks|);
    assert tracks[..|tracks|] == tracks;
  }

  function StartOf(iv: Interval): real
  {
    iv.start
  }

  /** The timeline: the kept tracks sorted by start time (`sort(key=start)`). */
  function SpeakerTimeline(tracks: seq<Interval>): (r: seq<Interval>)
    ensures SortedBy(r, StartOf)
    ensures forall x :: multiset(r)[x] == if LongEnough(x) then multiset(tracks)[x] else 0
  {
    KeepLongCount(tracks);
    SortBy(KeepLong(tracks), StartOf)
  }

  /** What the temporary file holds after the spill loop: every write replaces the
      file with the current batch only, so the last batch of kept tracks survives;
      nothing is written when no track is kept. */
  function LastBatch(kept: seq<Interval>): (r: Option<seq<Interval>>)
    ensures r.None? <==> kept == []
    ensures r.Some? ==> 0 < |r.value| <= SpillBatch && |r.value| <= |kept| && r.value == kept[|kept| - |r.value|..]
  {
    if kept == [] then None
    else
      var n := |kept| - 1;
      Some(kept[n - n % 1000..])
  }

  /** The spill loop of `_map_diarization_to_transcript`, as written: kept tracks
      collect in a chunk; a full chunk moves to the buffer, the buffer is written to
      the file and both are cleared; a final partial chunk is written the same way;
      then the file is read back (`None`: the file was never written and reading it
      fails). */
  method SpillAsWritten(tracks: seq<Interval>) returns (loaded: Option<seq<Interval>>)
    ensures loaded == LastBatch(KeepLong(tracks))
  {
    var file: Option<seq<Interval>> := None;
    var timelineSegments: seq<Interval> := [];
    var segmentChunk: seq<Interval> := [];
    ghost var batches: nat := 0;
    var i := 0;
    while i < |tracks|
      invariant 0 <= i <= |tracks|
      invariant timelineSegments == []
      invariant SpilledUpTo(tracks, i, segmentChunk, file, batches)
    {
      var track := tracks[i];
      SpillIteration(tracks, i, segmentChunk, file, batches);
      if LongEnough(track) {
        segmentChunk := segmentChunk + [track];
        if |segmentChunk| >= SpillBatch {
          assert timelineSegments + segmentChunk == segmentChunk;
          timelineSegments := timelineSegments + segmentChunk;
          file := Some(timelineSegments);
          timelineSegments := [];
          segmentChunk := [];
          batches := batches + 1;
        }
      }
      i := i + 1;
    }
    SpillFinish(tracks, segmentChunk, file, batches);
    if segmentChunk != [] {
      assert timelineSegments + segmentChunk == segmentChunk;
      timelineSegments := timelineSegments + segmentChunk;
      file := Some(timelineSegments);
    }
    loaded := file;
  }

  /** The spill loop's state after the first `i` tracks. */
  predicate SpilledUpTo(tracks: seq<Interval>, i: nat, chunk: seq<Interval>, file: Option<seq<Interval>>, batches: nat)
    requires i <= |tracks|
  {
    SpillState(KeptPrefix(tracks, i), chunk, file, batches)
  }

  lemma SpillIteration(tracks: seq<Interval>, i: nat, chunk: seq<Interval>, file: Option<seq<Interval>>, batches: nat)
    requires i < |tracks| && SpilledUpTo(tracks, i, chunk, file, batches)
    ensures !LongEnough(tracks[i]) ==> SpilledUpTo(tracks, i + 1, chunk, file, batches)
    ensures LongEnough(tracks[i]) && |chunk + [tracks[i]]| >= SpillBatch ==>
      SpilledUpTo(tracks, i + 1, [], Some(chunk + [tracks[i]]), batches + 1)
    ensures LongEnough(tracks[i]) && |chunk + [tracks[i]]| < SpillBatch ==>
      SpilledUpTo(tracks, i + 1, chunk + [tracks[i]], file, batches)
  {
    assert KeptPrefix(tracks, i) + [] == KeptPrefix(tracks, i);
    SpillStep(KeptPrefix(tracks, i), tracks[i], chunk, file, batches);
  }

  lemma SpillFinish(tracks: seq<Interval>, chunk: seq<Interval>, file: Option<seq<Interval>>, batches: nat)
    requires SpilledUpTo(tracks, |tracks|, chunk, file, batches)
    ensures (if chunk != [] then Some(chunk) else file) == LastBatch(KeepLong(tracks))
  {
    SpillEnd(KeepLong(tracks), chunk, file, batches);
  }

  /** The spill loop's state after `batches` full batches of the tracks kept so far:
      the open chunk holds the kept tracks after the last full batch, and the file
      holds the last full batch, if any. */
  predicate SpillState(kept: seq<Interval>, chunk: seq<Interval>, file: Option<seq<Interval>>, batches: nat)
  {
    && |chunk| < SpillBatch
    && |kept| == batches * 1000 + |chunk|
    && chunk == kept[batches * 1000..]
    && file == (if batches == 0 then None else Some(kept[(batches - 1) * 1000..batches * 1000]))
  }

  /** Keeping one more track either fills the chunk, which then becomes the file, or
      extends the chunk. */
  lemma SpillStep(kept: seq<Interval>, track: Interval, chunk: seq<Interval>, file: Option<seq<Interval>>, batches: nat)
    requires SpillState(kept, chunk, file, batches)
    ensures |chunk + [track]| >= SpillBatch ==> SpillState(kept + [track], [], Some(chunk + [track]), batches + 1)
    ensures |chunk + [track]| < SpillBatch ==> SpillState(kept + [track], chunk + [track], file, batches)
  {
    var kept' := kept + [track];
    var full := batches * 1000;
    assert kept'[full..] == chunk + [track];
    if |chunk| + 1 < SpillBatch && batches > 0 {
      assert kept'[..full] == kept[..full];
      assert kept'[full - SpillBatch..full] == kept[full - SpillBatch..full];
    } else if |chunk| + 1 == SpillBatch {
      assert |kept'| == (batches + 1) * 1000;
      assert kept'[(batches + 1 - 1) * 1000..(batches + 1) * 1000] == chunk + [track];
      assert kept'[(batches + 1) * 1000..] == [];
    }
  }

  /** After the loop, writing the open chunk (when not empty) leaves the last batch in
      the file. */
  lemma SpillEnd(kept: seq<Interval>, chunk: seq<Interval>, file: Option<seq<Interval>>, batches: nat)
    requires SpillState(kept, chunk, file, batches)
    ensures (if chunk != [] then Some(chunk) else file) == LastBatch(kept)
  {
    if kept != [] {
      var n := |kept| - 1;
      if chunk == [] {
        assert n == (batches - 1) * 1000 + 999;
        assert n % 1000 == 999;
        assert kept[n - 999..] == kept[(batches - 1) * 1000..batches * 1000];
      } else {
        assert n == batches * 1000 + (|chunk| - 1);
        assert n % 1000 == |chunk| - 1;
      }
      assert LastBatch(kept) == Some(kept[n - n % 1000..]);
    }
  }

  /** The timeline as written: through the temporary file when there are more than
      5000 tracks (`None`: reading the file failed), in memory otherwise. */
  function TimelineAsWritten(tracks: seq<Interval>): Option<seq<Interval>>
  {
    if |tracks| > SpillThreshold then
      match LastBatch(KeepLong(tracks))
      case None => None
      case Some(batch) => Some(SortBy(batch, StartOf))
    else Some(SpeakerTimeline(tracks))
  }

  /** The spill loses tracks: with more than 5000 tracks of which more than 1000 are
      kept, the timeline read back holds only part of the kept tracks. */
  lemma SpillLosesTracks(tracks: seq<Interval>)
    requires |tracks| > SpillThreshold && |KeepLong(tracks)| > SpillBatch
    ensures TimelineAsWritten(tracks).Some?
    ensures multiset(TimelineAsWritten(tracks).value) < multiset(SpeakerTimeline(tracks))
  {
    var kept := KeepLong(tracks);
    var batch := LastBatch(kept).value;
    var lost := kept[..|kept| - |batch|];
    assert kept == lost + batch;
    assert multiset(kept) == multiset(lost) + multiset(batch);
    assert kept[0] in multiset(lost);
  }

  /** Below the threshold the timeline is the in-memory one. */
  lemma TimelineAsWrittenSmall(tracks: seq<Interval>)
    requires |tracks| <= SpillThreshold
    ensures TimelineAsWritten(tracks) == Some(SpeakerTimeline(tracks))
  {
  }

  /** The time `t` falls within the track. */
  predicate Covers(iv: Interval, t: real)
  {
    iv.start <= t <= iv.end
  }

  /** The search over `timeline[lo..hi]` (bounds inclusive) as the mapper's loop runs
      it: probe the middle track, stop on a track covering `t`, else go left when
      `t` is before its start and right otherwise; -1 when the range is empty. */
  function SearchInterval(timeline: seq<Interval>, t: real, lo: int, hi: int): (r: int)
    requires 0 <= lo && -1 <= hi < |timeline|
    ensures r == -1 || (lo <= r <= hi && Covers(timeline[r], t))
    decreases hi - lo + 1
  {
    if lo > hi then -1
    else
      var mid := (lo + hi) / 2;
      if Covers(timeline[mid], t) then mid
      else if t < timeline[mid].start then SearchInterval(timeline, t, lo, mid - 1)
      else SearchInterval(timeline, t, mid + 1, hi)
  }

  /** The binary search of `_map_diarization_to_transcript`. */
  method FindInterval(timeline: seq<Interval>, t: real) returns (segmentIdx: int)
    ensures segmentIdx == SearchInterval(timeline, t, 0, |timeline| - 1)
  {
    var left, right := 0, |timeline| - 1;
    segmentIdx := -1;
    while left <= right
      invariant 0 <= left && -1 <= right < |timeline|
      invariant SearchInterval(timeline, t, left, right) == SearchInterval(timeline, t, 0, |timeline| - 1)
      decreases right - left
    {
      var mid := (left + right) / 2;
      if timeline[mid].start <= t <= timeline[mid].end {
        segmentIdx := mid;
        return;
      } else if t < timeline[mid].start {
        right := mid - 1;
      } else {
        left := mid + 1;
      }
    }
  }

  /** Every track has its start no later than its end. */
  predicate WellFormed(timeline: seq<Interval>)
  {
    forall i :: 0 <= i < |timeline| ==> timeline[i].start <= timeline[i].end
  }

  /** No two tracks overlap: each ends no later than any later one starts. */
  predicate NonOverlapping(timeline: seq<Interval>)
  {
    forall i, j :: 0 <= i < j < |timeline| ==> timeline[i].end <= timeline[j].start
  }

  /** On a timeline of well-formed, non-overlapping tracks the search misses only
      when no track in the range covers `t`. */
  lemma SearchComplete(timeline: seq<Interval>, t: real, lo: int, hi: int)
    requires 0 <= lo && -1 <= hi < |timeline|
    requires WellFormed(timeline) && NonOverlapping(timeline)
    ensures SearchInterval(timeline, t, lo, hi) == -1 <==> forall k :: lo <= k <= hi ==> !Covers(timeline[k], t)
  {
    if SearchInterval(timeline, t, lo, hi) == -1 {
      SearchMisses(timeline, t, lo, hi);
    }
  }

  lemma {:induction false} SearchMisses(timeline: seq<Interval>, t: real, lo: int, hi: int)
    requires 0 <= lo && -1 <= hi < |timeline|
    requires WellFormed(timeline) && NonOverlapping(timeline)
    requires SearchInterval(timeline, t, lo, hi) == -1
    ensures forall k :: lo <= k <= hi ==> !Covers(timeline[k], t)
    decreases hi - lo + 1, 1
  {
    if lo <= hi {
      var mid := SearchStep(timeline, t, lo, hi);
      if t < timeline[mid].start {
        MissesLeft(timeline, t, lo, mid, hi);
      } else {
        MissesRight(timeline, t, lo, mid, hi);
      }
    }
  }

  /** A miss that went left of track `mid`: nothing before it covers `t`, and
      nothing from it on does either. */
  lemma {:induction false} MissesLeft(timeline: seq<Interval>, t: real, lo: int, mid: int, hi: int)
    requires 0 <= lo <= mid <= hi < |timeline| && t < timeline[mid].start
    requires WellFormed(timeline) && NonOverlapping(timeline)
    requires SearchInterval(timeline, t, lo, mid - 1) == -1
    ensures forall k :: lo <= k <= hi ==> !Covers(timeline[k], t)
    decreases hi - lo + 1, 0
  {
    SearchMisses(timeline, t, lo, mid - 1);
    NoneAfter(timeline, t, mid, hi);
  }

  /** A miss that went right of track `mid`: nothing up to it covers `t`, and
      nothing after it does either. */
  lemma {:induction false} MissesRight(timeline: seq<Interval>, t: real, lo: int, mid: int, hi: int)
    requires 0 <= lo <= mid <= hi < |timeline| && timeline[mid].end < t
    requires WellFormed(timeline) && NonOverlapping(timeline)
    requires SearchInterval(timeline, t, mid + 1, hi) == -1
    ensures forall k :: lo <= k <= hi ==> !Covers(timeline[k], t)
    decreases hi - lo + 1, 0
  {
    SearchMisses(timeline, t, mid + 1, hi);
    NoneBefore(timeline, t, lo, mid);
  }

  /** One probe of a search that misses: the middle track does not cover `t`, and
      the search goes on in the half on the side of `t`. */
  lemma SearchStep(timeline: seq<Interval>, t: real, lo: int, hi: int) returns (mid: int)
    requires 0 <= lo <= hi < |timeline|
    requires SearchInterval(timeline, t, lo, hi) == -1
    ensures mid == (lo + hi) / 2 && lo <= mid <= hi
    ensures !Covers(timeline[mid], t)
    ensures t < timeline[mid].start ==> SearchInterval(timeline, t, lo, mid - 1) == -1
    ensures !(t < timeline[mid].start) ==> timeline[mid].end < t && SearchInterval(timeline, t, mid + 1, hi) == -1
  {
    mid := (lo + hi) / 2;
  }

  /** A time before the start of track `mid` is covered by no track from `mid` on. */
  lemma NoneAfter(timeline: seq<Interval>, t: real, mid: nat, hi: int)
    requires mid < |timeline| && hi < |timeline| && t < timeline[mid].start
    requires WellFormed(timeline) && NonOverlapping(timeline)
    ensures forall k :: mid <= k <= hi ==> !Covers(timeline[k], t)
  {
    forall k | mid < k <= hi
      ensures timeline[mid].start <= timeline[k].start
    {
      assert timeline[mid].end <= timeline[k].start;
    }
  }

  /** A time after the end of track `mid` is covered by no track up to `mid`. */
  lemma NoneBefore(timeline: seq<Interval>, t: real, lo: nat, mid: nat)
    requires mid < |timeline| && timeline[mid].end < t
    requires WellFormed(timeline) && NonOverlapping(timeline)
    ensures forall k :: lo <= k <= mid ==> !Covers(timeline[k], t)
  {
    forall k | lo <= k < mid
      ensures timeline[k].end <= timeline[mid].end
    {
      assert timeline[k].end <= timeline[mid].start;
    }
  }
}
