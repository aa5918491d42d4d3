/** The text-only speaker identifier (`identify_speakers_simple` and
    `_identify_speakers_chunked`): the paragraphs go to a language model, whose
    reply is an input here, and the reply's `{id, speaker, text}` items become the
    attributed transcript after sorting, relabelling and a count repair. */
module TextId {
  import opened Wrappers
  import opened Seqs
  import opened Text
  import opened Sorting
  import opened Segments
  import opened Segmenter

  /** One item of the reply's `paragraphs` list; each key may be missing. */
  datatype Item = Item(id: Option<int>, speaker: Option<string>, text: Option<string>)

  /** The parsed reply to one request: `Failed` when the call or the JSON parsing
      raises, otherwise the reply's `paragraphs` list if it has one. */
  datatype Reply = Failed | Answer(paragraphs: Option<seq<Item>>)

  /** Transcripts longer than this many characters are identified in chunks. */
  const MaxChunkSize: nat := 8000

  /** The reply to request `k`; a request without a reply fails. */
  function ReplyAt(replies: seq<Reply>, k: nat): Reply
  {
    if k < |replies| then replies[k] else Failed
  }

  /** `speaker_map.get(label, label)` */
  function MapLabel(speaker: string): (r: string)
    ensures speaker == "A" || speaker == "Speaker A" ==> r == "Speaker 1"
    ensures speaker == "B" || speaker == "Speaker B" ==> r == "Speaker 2"
    ensures speaker !in {"A", "B", "Speaker A", "Speaker B"} ==> r == speaker
  {
    if speaker == "A" || speaker == "Speaker A" then "Speaker 1"
    else if speaker == "B" || speaker == "Speaker B" then "Speaker 2"
    else speaker
  }

  /** Relabelling an already relabelled speaker changes nothing. */
  lemma MapLabelIdempotent(speaker: string)
    ensures MapLabel(MapLabel(speaker)) == MapLabel(speaker)
  {
    assert "Speaker 1" !in {"A", "B", "Speaker A", "Speaker B"} by {
      assert "Speaker 1"[8] != "Speaker A"[8] && "Speaker 1"[8] != "Speaker B"[8];
    }
    assert "Speaker 2" !in {"A", "B", "Speaker A", "Speaker B"} by {
      assert "Speaker 2"[8] != "Speaker A"[8] && "Speaker 2"[8] != "Speaker B"[8];
    }
  }

  /** `x.get("id", 0)`, the sort key. */
  function ItemId(item: Item): real
  {
    match item.id
    case None => 0.0
    case Some(n) => n as real
  }

  /** One item as a segment: missing speakers are `Unknown`, missing texts empty. */
  function ItemSegment(item: Item): Segment
  {
    var speaker := match item.speaker case None => "Unknown" case Some(s) => s;
    var text := match item.text case None => "" case Some(t) => t;
    Segment(MapLabel(speaker), text)
  }

  function SegmentsOf(items: seq<Item>): (r: seq<Segment>)
    ensures |r| == |items| && forall i :: 0 <= i < |items| ==> r[i] == ItemSegment(items[i])
  {
    if items == [] then [] else [ItemSegment(items[0])] + SegmentsOf(items[1..])
  }

  /** The items, sorted by id, as segments. */
  function ItemsToSegments(items: seq<Item>): (r: seq<Segment>)
    ensures |r| == |items|
    ensures exists sorted :: SortedBy(sorted, ItemId) && multiset(sorted) == multiset(items) && r == SegmentsOf(sorted)
  {
    var sorted := SortBy(items, ItemId);
    SegmentsOf(sorted)
  }

  /** The loop over the sorted items building `self.speakers`. */
  method BuildSpeakers(assignments: seq<Item>) returns (speakers: seq<Segment>)
    ensures speakers == ItemsToSegments(assignments)
  {
    var sorted := SortBy(assignments, ItemId);
    speakers := [];
    var i := 0;
    while i < |sorted|
      invariant 0 <= i <= |sorted|
      invariant |speakers| == i && forall k :: 0 <= k < i ==> speakers[k] == ItemSegment(sorted[k])
    {
      speakers := speakers + [ItemSegment(sorted[i])];
      i := i + 1;
    }
  }

  /** `f"Speaker {i % 2 + 1}"` */
  function ParityLabel(i: nat): (r: string)
    ensures r == if i % 2 == 0 then "Speaker 1" else "Speaker 2"
  {
    var d := NatToString(i % 2 + 1);
    assert d == if i % 2 == 0 then "1" else "2";
    "Speaker " + d
  }

  /** The parity fallback: paragraphs alternate between `Speaker 1` and `Speaker 2`. */
  function Alternating(paragraphs: seq<string>): (r: seq<Segment>)
    ensures |r| == |paragraphs|
    ensures forall i :: 0 <= i < |r| ==> r[i] == Segment(ParityLabel(i), paragraphs[i])
  {
    seq(|paragraphs|, i requires 0 <= i < |paragraphs| => Segment(ParityLabel(i), paragraphs[i]))
  }

  /** The fallback starts with `Speaker 1` and never gives two neighbours the same
      speaker. */
  lemma AlternatingAlternates(paragraphs: seq<string>)
    ensures |paragraphs| > 0 ==> Alternating(paragraphs)[0].speaker == "Speaker 1"
    ensures forall i :: 0 <= i < |paragraphs| - 1 ==>
      Alternating(paragraphs)[i].speaker != Alternating(paragraphs)[i + 1].speaker
  {
    forall i | 0 <= i < |paragraphs| - 1
      ensures Alternating(paragraphs)[i].speaker != Alternating(paragraphs)[i + 1].speaker
    {
      assert "Speaker 1"[8] != "Speaker 2"[8];
    }
  }

  /** The count repair: when the reply has a different number of segments than there
      are paragraphs, paragraph `i` takes the speaker of segment `min(i, n - 1)`
      (the parity label when there are none) and keeps its own text. */
  function Reconcile(speakers: seq<Segment>, paragraphs: seq<string>): (r: seq<Segment>)
    ensures |r| == |paragraphs|
  {
    if |speakers| == |paragraphs| then speakers
    else
      seq(|paragraphs|, i requires 0 <= i < |paragraphs| =>
        Segment(if speakers != [] then speakers[if i < |speakers| - 1 then i else |speakers| - 1].speaker else ParityLabel(i),
                paragraphs[i]))
  }

  /** What the count repair promises: matching replies are kept as they are (texts
      included); otherwise every paragraph keeps its text, the reply's speakers are
      reused in order and the last one repeats, and an empty reply alternates. */
  lemma ReconcileFacts(speakers: seq<Segment>, paragraphs: seq<string>)
    ensures |speakers| == |paragraphs| ==> Reconcile(speakers, paragraphs) == speakers
    ensures |speakers| != |paragraphs| ==> forall i :: 0 <= i < |paragraphs| ==>
      Reconcile(speakers, paragraphs)[i].text == paragraphs[i]
    ensures |speakers| != |paragraphs| ==> forall i :: 0 <= i < |paragraphs| && i < |speakers| ==>
      Reconcile(speakers, paragraphs)[i].speaker == speakers[i].speaker
    ensures |speakers| != |paragraphs| && speakers != [] ==> forall i :: |speakers| <= i < |paragraphs| ==>
      Reconcile(speakers, paragraphs)[i].speaker == Last(speakers).speaker
    ensures speakers == [] ==> Reconcile(speakers, paragraphs) == Alternating(paragraphs)
  {
  }

  /** The single-request path: a failed request falls back to alternation. */
  function SingleSpeakers(paragraphs: seq<string>, reply: Reply): seq<Segment>
  {
    match reply
    case Failed => Alternating(paragraphs)
    case Answer(items) =>
      Reconcile(ItemsToSegments(ItemsOf(items)), paragraphs)
  }

  /** The single-request branch of `identify_speakers_simple`: the reply's items as
      segments, count-repaired; a failed request gives the parity labels. */
  method IdentifySpeakersSingle(paragraphs: seq<string>, reply: Reply) returns (speakers: seq<Segment>)
    ensures speakers == SingleSpeakers(paragraphs, reply)
  {
    match reply {
      case Failed =>
        speakers := Alternating(paragraphs);
      case Answer(items) =>
        speakers := BuildSpeakers(ItemsOf(items));
        if |speakers| != |paragraphs| {
          speakers := Reconcile(speakers, paragraphs);
        }
    }
  }

  /** `sum(len(p) for p in chunk)` */
  function TotalLength(chunk: seq<string>): nat
  {
    if chunk == [] then 0 else TotalLength(chunk[..|chunk| - 1]) + |Last(chunk)|
  }

  lemma TotalLengthSnoc(chunk: seq<string>, p: string)
    ensures TotalLength(chunk + [p]) == TotalLength(chunk) + |p|
  {
    assert (chunk + [p])[..|chunk|] == chunk;
  }

  /** The accumulators of the chunking loop. */
  datatype ChunkState = ChunkState(chunks: seq<seq<string>>, current: seq<string>, length: nat)

  /** One paragraph of the chunking loop: a paragraph that would take a non-empty
      chunk over the budget starts the next chunk. */
  function ChunkStep(st: ChunkState, p: string, chunkSize: nat): ChunkState
  {
    if st.length + |p| > chunkSize && st.current != [] then ChunkState(st.chunks + [st.current], [p], |p|)
    else ChunkState(st.chunks, st.current + [p], st.length + |p|)
  }

  /** The accumulators after the first `n` paragraphs. */
  function ChunkFold(paragraphs: seq<string>, chunkSize: nat, n: nat): ChunkState
    requires n <= |paragraphs|
  {
    if n == 0 then ChunkState([], [], 0)
    else ChunkStep(ChunkFold(paragraphs, chunkSize, n - 1), paragraphs[n - 1], chunkSize)
  }

  /** The chunks, the last one included when it is not empty. */
  function Chunks(paragraphs: seq<string>, chunkSize: nat): seq<seq<string>>
  {
    var st := ChunkFold(paragraphs, chunkSize, |paragraphs|);
    if st.current != [] then st.chunks + [st.current] else st.chunks
  }

  /** The chunk grouping loop. */
  method GroupIntoChunks(paragraphs: seq<string>, chunkSize: nat) returns (chunks: seq<seq<string>>)
    ensures chunks == Chunks(paragraphs, chunkSize)
  {
    chunks := [];
    var currentChunk: seq<string> := [];
    var currentLength: nat := 0;
    var i := 0;
    while i < |paragraphs|
      invariant 0 <= i <= |paragraphs|
      invariant ChunkFold(paragraphs, chunkSize, i) == ChunkState(chunks, currentChunk, currentLength)
    {
      var p := paragraphs[i];
      if currentLength + |p| > chunkSize && currentChunk != [] {
        chunks := chunks + [currentChunk];
        currentChunk := [p];
        currentLength := |p|;
      } else {
        currentChunk := currentChunk + [p];
        currentLength := currentLength + |p|;
      }
      i := i + 1;
    }
    if currentChunk != [] {
      chunks := chunks + [currentChunk];
    }
  }

  predicate NonEmptyChunks(chunks: seq<seq<string>>)
  {
    forall k :: 0 <= k < |chunks| ==> chunks[k] != []
  }

  /** A chunk of two or more paragraphs stays within the budget. */
  predicate WithinBudget(chunks: seq<seq<string>>, chunkSize: nat)
  {
    forall k :: 0 <= k < |chunks| && |chunks[k]| >= 2 ==> TotalLength(chunks[k]) <= chunkSize
  }

  /** Each chunk was closed only because the next paragraph would not fit. */
  predicate Greedy(chunks: seq<seq<string>>, chunkSize: nat)
  {
    forall k :: 0 <= k < |chunks| - 1 && chunks[k + 1] != [] ==> TotalLength(chunks[k]) + |chunks[k + 1][0]| > chunkSize
  }

  /** What the chunking promises. */
  predicate WellChunked(paragraphs: seq<string>, chunkSize: nat, chunks: seq<seq<string>>)
  {
    Flatten(chunks) == paragraphs && NonEmptyChunks(chunks) && WithinBudget(chunks, chunkSize) && Greedy(chunks, chunkSize)
  }

  /** The chunking loop's state after `n` paragraphs, with the open chunk counted
      as the last chunk. */
  predicate ChunkInvariant(paragraphs: seq<string>, chunkSize: nat, n: nat, st: ChunkState)
    requires n <= |paragraphs|
  {
    && Flatten(st.chunks + [st.current]) == paragraphs[..n]
    && st.length == TotalLength(st.current)
    && (n == 0 ==> st.chunks == [] && st.current == [])
    && (n > 0 ==> st.current != [])
    && NonEmptyChunks(st.chunks)
    && WithinBudget(st.chunks + [st.current], chunkSize)
    && Greedy(st.chunks + [st.current], chunkSize)
  }

  lemma WithinBudgetExtend(chunks: seq<seq<string>>, chunkSize: nat, g: seq<string>)
    requires WithinBudget(chunks, chunkSize) && (|g| >= 2 ==> TotalLength(g) <= chunkSize)
    ensures WithinBudget(chunks + [g], chunkSize)
  {
    var all := chunks + [g];
    forall k | 0 <= k < |all| && |all[k]| >= 2
      ensures TotalLength(all[k]) <= chunkSize
    {
      if k < |chunks| {
        assert all[k] == chunks[k];
      }
    }
  }

  lemma GreedyExtend(chunks: seq<seq<string>>, chunkSize: nat, g: seq<string>)
    requires Greedy(chunks, chunkSize) && g != []
    requires chunks != [] ==> TotalLength(Last(chunks)) + |g[0]| > chunkSize
    ensures Greedy(chunks + [g], chunkSize)
  {
    var all := chunks + [g];
    forall k | 0 <= k < |all| - 1 && all[k + 1] != []
      ensures TotalLength(all[k]) + |all[k + 1][0]| > chunkSize
    {
      if k < |chunks| - 1 {
        assert all[k] == chunks[k] && all[k + 1] == chunks[k + 1];
      } else {
        assert all[k] == Last(chunks) && all[k + 1] == g;
      }
    }
  }

  lemma {:induction false} ChunkStepKeeps(paragraphs: seq<string>, chunkSize: nat, n: nat, st: ChunkState)
    requires n < |paragraphs| && ChunkInvariant(paragraphs, chunkSize, n, st)
    ensures ChunkInvariant(paragraphs, chunkSize, n + 1, ChunkStep(st, paragraphs[n], chunkSize))
  {
    var p := paragraphs[n];
    assert paragraphs[..n + 1] == paragraphs[..n] + [p];
    if st.current == [] {
      ChunkOpen(paragraphs, chunkSize, st);
    } else if st.length + |p| > chunkSize {
      ChunkClose(paragraphs, chunkSize, n, st);
    } else {
      ChunkGrow(paragraphs, chunkSize, n, st);
    }
  }

  /** A paragraph that does not fit closes the open chunk and opens its own. */
  lemma ChunkClose(paragraphs: seq<string>, chunkSize: nat, n: nat, st: ChunkState)
    requires n < |paragraphs| && ChunkInvariant(paragraphs, chunkSize, n, st)
    requires st.length + |paragraphs[n]| > chunkSize && st.current != []
    ensures ChunkInvariant(paragraphs, chunkSize, n + 1, ChunkStep(st, paragraphs[n], chunkSize))
  {
    var p := paragraphs[n];
    var st' := ChunkStep(st, p, chunkSize);
    var all := st.chunks + [st.current];
    assert paragraphs[..n + 1] == paragraphs[..n] + [p];
    assert st'.chunks + [st'.current] == all + [[p]];
    FlattenAppend(all, [[p]]);
    FlattenOne([p]);
    assert TotalLength([p]) == |p| by {
      TotalLengthSnoc([], p);
    }
    WithinBudgetExtend(all, chunkSize, [p]);
    assert Last(all) == st.current;
    GreedyExtend(all, chunkSize, [p]);
    forall k | 0 <= k < |st'.chunks|
      ensures st'.chunks[k] != []
    {
      if k < |st.chunks| {
        assert st'.chunks[k] == st.chunks[k];
      }
    }
  }

  /** The first paragraph opens the first chunk. */
  lemma ChunkOpen(paragraphs: seq<string>, chunkSize: nat, st: ChunkState)
    requires |paragraphs| > 0 && ChunkInvariant(paragraphs, chunkSize, 0, st)
    ensures ChunkInvariant(paragraphs, chunkSize, 1, ChunkStep(st, paragraphs[0], chunkSize))
  {
    var p := paragraphs[0];
    assert ChunkStep(st, p, chunkSize) == ChunkState([], [p], |p|);
    assert paragraphs[..1] == [p];
    assert [] + [[p]] == [[p]];
    FlattenOne([p]);
    assert TotalLength([p]) == |p| by {
      TotalLengthSnoc([], p);
    }
  }

  /** A paragraph that fits joins the open chunk. */
  lemma ChunkGrow(paragraphs: seq<string>, chunkSize: nat, n: nat, st: ChunkState)
    requires n < |paragraphs| && ChunkInvariant(paragraphs, chunkSize, n, st)
    requires st.length + |paragraphs[n]| <= chunkSize && st.current != []
    ensures ChunkInvariant(paragraphs, chunkSize, n + 1, ChunkStep(st, paragraphs[n], chunkSize))
  {
    var p := paragraphs[n];
    var st' := ChunkStep(st, p, chunkSize);
    var all := st.chunks + [st.current];
    var g := st.current + [p];
    assert paragraphs[..n + 1] == paragraphs[..n] + [p];
    assert st'.chunks + [st'.current] == st.chunks + [g];
    FlattenAppend(st.chunks, [st.current]);
    FlattenOne(st.current);
    FlattenAppend(st.chunks, [g]);
    FlattenOne(g);
    TotalLengthSnoc(st.current, p);
    assert WithinBudget(st.chunks, chunkSize) by {
      forall k | 0 <= k < |st.chunks| && |st.chunks[k]| >= 2
        ensures TotalLength(st.chunks[k]) <= chunkSize
      {
        assert st.chunks[k] == all[k];
      }
    }
    WithinBudgetExtend(st.chunks, chunkSize, g);
    assert Greedy(st.chunks, chunkSize) by {
      forall k | 0 <= k < |st.chunks| - 1 && st.chunks[k + 1] != []
        ensures TotalLength(st.chunks[k]) + |st.chunks[k + 1][0]| > chunkSize
      {
        assert st.chunks[k] == all[k] && st.chunks[k + 1] == all[k + 1];
      }
    }
    if st.chunks != [] {
      assert Last(st.chunks) == all[|st.chunks| - 1];
      assert st.current == all[|st.chunks|];
      assert g[0] == st.current[0];
    }
    GreedyExtend(st.chunks, chunkSize, g);
  }

  lemma {:induction false} ChunkFoldInvariant(paragraphs: seq<string>, chunkSize: nat, n: nat)
    requires n <= |paragraphs|
    ensures ChunkInvariant(paragraphs, chunkSize, n, ChunkFold(paragraphs, chunkSize, n))
  {
    if n == 0 {
      assert Flatten<string>([[]]) == [] by {
        FlattenOne<string>([]);
      }
    } else {
      ChunkFoldInvariant(paragraphs, chunkSize, n - 1);
      ChunkStepKeeps(paragraphs, chunkSize, n - 1, ChunkFold(paragraphs, chunkSize, n - 1));
    }
  }

  /** Flattening the chunks gives back the paragraphs; every chunk is non-empty; a
      chunk of two or more paragraphs is within the budget; and each chunk was
      closed only because the next paragraph would have taken it over. */
  lemma ChunksWellChunked(paragraphs: seq<string>, chunkSize: nat)
    ensures WellChunked(paragraphs, chunkSize, Chunks(paragraphs, chunkSize))
  {
    var n := |paragraphs|;
    ChunkFoldInvariant(paragraphs, chunkSize, n);
    var st := ChunkFold(paragraphs, chunkSize, n);
    assert paragraphs[..n] == paragraphs;
    if st.current != [] {
      forall k | 0 <= k < |st.chunks| + 1
        ensures (st.chunks + [st.current])[k] != []
      {
        if k < |st.chunks| {
          assert (st.chunks + [st.current])[k] == st.chunks[k];
        }
      }
    }
  }

  /** The reply's items; a reply without a `paragraphs` list adds none. */
  function ItemsOf(ps: Option<seq<Item>>): seq<Item>
  {
    match ps
    case None => []
    case Some(items) => items
  }

  /** The items of the first `n` chunk replies, or the failure that stops the loop. */
  function CollectItems(replies: seq<Reply>, n: nat): Result<seq<Item>, string>
  {
    if n == 0 then Success([])
    else
      match CollectItems(replies, n - 1)
      case Failure(e) => Failure(e)
      case Success(items) =>
        match ReplyAt(replies, n - 1)
        case Failed => Failure("chunk request failed")
        case Answer(ps) => Success(items + ItemsOf(ps))
  }

  /** The chunked path's result: a failed chunk request fails the whole call. */
  function ChunkedSpeakers(paragraphs: seq<string>, chunkSize: nat, replies: seq<Reply>): Result<seq<Segment>, string>
  {
    match CollectItems(replies, |Chunks(paragraphs, chunkSize)|)
    case Failure(e) => Failure(e)
    case Success(items) => Success(Reconcile(ItemsToSegments(items), paragraphs))
  }

  /** `_identify_speakers_chunked`: one request per chunk, the replies' items
      gathered in order, then sorted, relabelled and count-repaired. */
  method IdentifySpeakersChunked(paragraphs: seq<string>, chunkSize: nat, replies: seq<Reply>)
    returns (r: Result<seq<Segment>, string>)
    ensures r == ChunkedSpeakers(paragraphs, chunkSize, replies)
  {
    var chunks := GroupIntoChunks(paragraphs, chunkSize);
    var collected := RequestChunks(replies, |chunks|);
    if collected.Failure? {
      r := Failure(collected.error);
      return;
    }
    var speakers := BuildSpeakers(collected.value);
    r := Success(Reconcile(speakers, paragraphs));
  }

  /** The request loop of the chunked path over `n` chunks: the replies' items in
      order, or the failure of the first failed request. */
  method RequestChunks(replies: seq<Reply>, n: nat) returns (r: Result<seq<Item>, string>)
    ensures r == CollectItems(replies, n)
  {
    var allResults: seq<Item> := [];
    var i := 0;
    while i < n
      invariant 0 <= i <= n
      invariant CollectItems(replies, i) == Success(allResults)
    {
      var result := ReplyAt(replies, i);
      if result.Failed? {
        r := Failure("chunk request failed");
        assert CollectItems(replies, i + 1) == Failure("chunk request failed");
        FailureSticks(replies, i + 1, n);
        return;
      }
      ghost var before := allResults;
      if result.paragraphs.Some? {
        allResults := allResults + result.paragraphs.value;
      }
      assert allResults == before + ItemsOf(result.paragraphs);
      i := i + 1;
    }
    r := Success(allResults);
  }

  lemma {:induction false} FailureSticks(replies: seq<Reply>, m: nat, n: nat)
    requires m <= n && CollectItems(replies, m).Failure?
    ensures CollectItems(replies, n) == CollectItems(replies, m)
    decreases n - m
  {
    if m < n {
      FailureSticks(replies, m, n - 1);
    }
  }

  /** The chunked path fails exactly when one of its requests fails, and otherwise
      returns one segment per paragraph. */
  lemma {:induction false} ChunkedFailsOnlyOnFailedRequest(paragraphs: seq<string>, chunkSize: nat, replies: seq<Reply>)
    ensures ChunkedSpeakers(paragraphs, chunkSize, replies).Failure? <==>
      exists k :: 0 <= k < |Chunks(paragraphs, chunkSize)| && ReplyAt(replies, k).Failed?
    ensures ChunkedSpeakers(paragraphs, chunkSize, replies).Success? ==>
      |ChunkedSpeakers(paragraphs, chunkSize, replies).value| == |paragraphs|
  {
    CollectFailsIff(replies, |Chunks(paragraphs, chunkSize)|);
  }

  lemma {:induction false} CollectFailsIff(replies: seq<Reply>, n: nat)
    ensures CollectItems(replies, n).Failure? <==> exists k :: 0 <= k < n && ReplyAt(replies, k).Failed?
  {
    if n > 0 {
      CollectFailsIff(replies, n - 1);
    }
  }

  /** `identify_speakers_simple` after segmentation: long transcripts go through the
      chunked path, whose failures escape; short ones make a single request whose
      failure falls back to alternation. */
  function TextSpeakers(transcript: string, replies: seq<Reply>): Result<seq<Segment>, string>
  {
    var paragraphs := Paragraphs(transcript);
    if |transcript| > MaxChunkSize then ChunkedSpeakers(paragraphs, MaxChunkSize, replies)
    else Success(SingleSpeakers(paragraphs, ReplyAt(replies, 0)))
  }

  /** Every successful text-only result has one segment per paragraph, and only the
      chunked path (transcripts over 8000 characters) can fail. */
  lemma TextSpeakersCount(transcript: string, replies: seq<Reply>)
    ensures TextSpeakers(transcript, replies).Success? ==>
      |TextSpeakers(transcript, replies).value| == |Paragraphs(transcript)|
    ensures TextSpeakers(transcript, replies).Failure? ==> |transcript| > MaxChunkSize
  {
    if |transcript| > MaxChunkSize {
      ChunkedFailsOnlyOnFailedRequest(Paragraphs(transcript), MaxChunkSize, replies);
    }
  }

  /** A failed single request yields the parity labels. */
  lemma SingleFailureAlternates(transcript: string, replies: seq<Reply>)
    requires |transcript| <= MaxChunkSize && ReplyAt(replies, 0).Failed?
    ensures TextSpeakers(transcript, replies) == Success(Alternating(Paragraphs(transcript)))
  {
  }
}
