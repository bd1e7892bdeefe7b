/**
 * Timestamped outlines of a transcript: the `[HH:MM:SS]` anchor, the
 * shortened summary of a chunk of segments, the topic-change test, the
 * division of a transcript into chunks (one outline entry each), and the
 * Markdown rendering of the entries.
 */
module Outline {
  import opened Base
  import opened Strings
  import opened PyNum
  import opened Segments
  import Exporters

  // ---------------------------------------------------------------------
  // format_timestamp_anchor
  // ---------------------------------------------------------------------

  /** `format_timestamp_anchor`: `[HH:MM:SS]` with whole seconds, hours not wrapped. */
  function FormatTimestampAnchor(x: real): string
  {
    var f := ClockFields(x);
    "[" + FormatInt(f.0, 2) + ":" + FormatInt(f.1, 2) + ":" + FormatInt(f.2, 2) + "]"
  }

  /** Reads `[H:M:S]` (each field digits) back to a count of seconds. */
  function ParseAnchor(t: string): Option<int>
  {
    if |t| < 2 || t[0] != '[' || t[|t| - 1] != ']' then None
    else ParseHms(Split(t[1..|t| - 1], ":"))
  }

  function ParseHms(parts: seq<string>): Option<int>
  {
    if |parts| == 3 && Exporters.DigitField(parts[0]) && Exporters.DigitField(parts[1]) && Exporters.DigitField(parts[2])
    then Some(3600 * DigitsValue(parts[0]) + 60 * DigitsValue(parts[1]) + DigitsValue(parts[2]))
    else None
  }

  /** Digit fields in the anchor layout read back field by field. */
  lemma ParseAnchorFields(h: string, m: string, s: string)
    requires Exporters.DigitField(h) && Exporters.DigitField(m) && Exporters.DigitField(s)
    ensures ParseAnchor("[" + h + ":" + m + ":" + s + "]")
      == Some(3600 * DigitsValue(h) + 60 * DigitsValue(m) + DigitsValue(s))
  {
    var body := h + [':'] + m + [':'] + s;
    AnchorText(h, m, s);
    ParseAnchorOfBody("[" + h + ":" + m + ":" + s + "]", body);
    SplitFields(h, m, s);
    ParseHmsOf(h, m, s);
  }

  lemma AnchorText(h: string, m: string, s: string)
    ensures "[" + h + ":" + m + ":" + s + "]" == "[" + (h + [':'] + m + [':'] + s) + "]"
  {
  }

  lemma SplitFields(h: string, m: string, s: string)
    requires Exporters.DigitField(h) && Exporters.DigitField(m) && Exporters.DigitField(s)
    ensures Split(h + [':'] + m + [':'] + s, ":") == [h, m, s]
  {
    assert ':' !in h && ':' !in m && ':' !in s;
    Exporters.SplitThree(h, m, s, ':');
  }

  lemma ParseHmsOf(h: string, m: string, s: string)
    requires Exporters.DigitField(h) && Exporters.DigitField(m) && Exporters.DigitField(s)
    ensures ParseHms([h, m, s]) == Some(3600 * DigitsValue(h) + 60 * DigitsValue(m) + DigitsValue(s))
  {
    var ps := [h, m, s];
    assert ps[0] == h && ps[1] == m && ps[2] == s;
  }

  lemma ParseAnchorOfBody(t: string, body: string)
    requires t == "[" + body + "]"
    ensures ParseAnchor(t) == ParseHms(Split(body, ":"))
  {
    assert t[1..|t| - 1] == body;
  }

  /** A non-negative time's anchor reads back as its whole seconds: no field wraps. */
  lemma AnchorRoundTrip(x: real)
    requires x >= 0.0
    ensures ParseAnchor(FormatTimestampAnchor(x)) == Some(x.Floor)
  {
    var f := ClockFields(x);
    PaddedNatValue(f.0, 2);
    PaddedNatValue(f.1, 2);
    PaddedNatValue(f.2, 2);
    ParseAnchorFields(FormatInt(f.0, 2), FormatInt(f.1, 2), FormatInt(f.2, 2));
    assert x.Floor == 3600 * f.0 + 60 * f.1 + f.2;
  }

  // ---------------------------------------------------------------------
  // extract_key_phrases
  // ---------------------------------------------------------------------

  /** Python's `xs[:n]` length for a list of length `len`: a negative `n` counts from the end. */
  function SliceEnd(n: int, len: nat): (k: nat)
    ensures k <= len
  {
    if n >= 0 then (if n <= len then n else len)
    else if len + n >= 0 then len + n else 0
  }

  /**
   * `extract_key_phrases`: the stripped text when it has at most `maxWords`
   * words, otherwise its first `maxWords` words joined by single spaces,
   * followed by "...".
   */
  function ExtractKeyPhrases(text: string, maxWords: int): string
  {
    var words := Words(Strip(text));
    if |words| <= maxWords then Strip(text)
    else Join(" ", words[..SliceEnd(maxWords, |words|)]) + "..."
  }

  /**
   * A short text is only stripped; a long one keeps exactly its first
   * `maxWords` words (for a non-negative limit) and ends in "...".
   */
  lemma KeyPhrasesShape(text: string, maxWords: int)
    ensures |Words(Strip(text))| <= maxWords ==> ExtractKeyPhrases(text, maxWords) == Strip(text)
    ensures |Words(Strip(text))| > maxWords >= 0 ==>
      var r := ExtractKeyPhrases(text, maxWords);
      |r| >= 3 && r[|r| - 3..] == "..." && Words(r[..|r| - 3]) == Words(Strip(text))[..maxWords]
  {
    var words := Words(Strip(text));
    if |words| > maxWords >= 0 {
      var head := words[..maxWords];
      assert ExtractKeyPhrases(text, maxWords) == Join(" ", head) + "..." by {
        assert SliceEnd(maxWords, |words|) == maxWords;
      }
      LeadingWordsBlankFree(Strip(text), maxWords);
      EllipsisWords(head);
    }
  }

  lemma LeadingWordsBlankFree(s: string, n: nat)
    requires n <= |Words(s)|
    ensures forall i :: 0 <= i < n ==> Words(s)[..n][i] != [] && NoSpace(Words(s)[..n][i])
  {
    WordsAreBlankFree(s);
  }

  /** The joined words followed by "..." give the words back once the dots are cut off. */
  lemma EllipsisWords(ws: seq<string>)
    requires forall i :: 0 <= i < |ws| ==> ws[i] != [] && NoSpace(ws[i])
    ensures var r := Join(" ", ws) + "..."; |r| >= 3 && r[|r| - 3..] == "..." && Words(r[..|r| - 3]) == ws
  {
    var head := Join(" ", ws);
    var r := head + "...";
    assert r[..|r| - 3] == head;
    WordsOfJoin(ws);
  }

  // ---------------------------------------------------------------------
  // detect_topic_change
  // ---------------------------------------------------------------------

  /**
   * `detect_topic_change`: always at the first segment; after that, when
   * the speaker changes across a silence of at least `threshold`, or across
   * any silence of at least twice `threshold`.
   */
  predicate DetectTopicChange(prev: Option<Segment>, curr: Segment, threshold: real)
  {
    prev.None? ||
    var gap := curr.start - prev.value.end;
    (prev.value.speaker != curr.speaker && gap >= threshold) || gap >= threshold * 2.0
  }

  /**
   * With a non-negative threshold, a same-speaker pair needs twice the
   * silence a speaker change needs, and a longer silence never undoes a
   * topic change.
   */
  lemma TopicChangeGaps(prev: Segment, curr: Segment, later: Segment, threshold: real)
    requires threshold >= 0.0
    requires later.speaker == curr.speaker && later.start >= curr.start
    ensures prev.speaker == curr.speaker ==>
      (DetectTopicChange(Some(prev), curr, threshold) <==> curr.start - prev.end >= 2.0 * threshold)
    ensures prev.speaker != curr.speaker ==>
      (DetectTopicChange(Some(prev), curr, threshold) <==> curr.start - prev.end >= threshold)
    ensures DetectTopicChange(Some(prev), curr, threshold) ==> DetectTopicChange(Some(prev), later, threshold)
  {
  }

  // ---------------------------------------------------------------------
  // generate_outline
  // ---------------------------------------------------------------------

  /** The options of `generate_outline`. */
  datatype OutlineOptions = OutlineOptions(
    interval: Option<real>,
    autoDetectTopics: bool,
    gapThreshold: real,
    maxSummaryWords: int)

  /** An outline entry: the chunk's start, that start as an anchor, its speaker and summary. */
  datatype OutlineEntry = OutlineEntry(
    timestamp: real,
    timestampFormatted: string,
    speaker: string,
    summary: string)

  /**
   * Whether `seg` closes the non-empty chunk being built (and opens the
   * next): a topic change from the chunk's last segment when detection is
   * on, or `interval` seconds since the last entry's start.
   */
  predicate Boundary(chunk: seq<Segment>, last: real, seg: Segment, opts: OutlineOptions)
    requires chunk != []
  {
    || (opts.autoDetectTopics && DetectTopicChange(Some(chunk[|chunk| - 1]), seg, opts.gapThreshold))
    || (opts.interval.Some? && seg.start - last >= opts.interval.value)
  }

  /**
   * The chunks the loop of `generate_outline` emits from the point where
   * `chunk` is being built, `last` is the start of the last emitted entry
   * and `rest` is unread.
   */
  function ChunksFrom(chunk: seq<Segment>, last: real, rest: seq<Segment>, opts: OutlineOptions)
    : (cs: seq<seq<Segment>>)
    decreases |rest|
  {
    if rest == [] then (if chunk == [] then [] else [chunk])
    else if chunk != [] && Boundary(chunk, last, rest[0], opts) then
      [chunk] + ChunksFrom([rest[0]], chunk[0].start, rest[1..], opts)
    else ChunksFrom(chunk + [rest[0]], last, rest[1..], opts)
  }

  /** The chunks of a whole transcript: the loop starts with no chunk and `last` at 0.0. */
  function Chunks(segs: seq<Segment>, opts: OutlineOptions): seq<seq<Segment>>
  {
    ChunksFrom([], 0.0, segs, opts)
  }

  function Concat(cs: seq<seq<Segment>>): seq<Segment>
  {
    if cs == [] then [] else cs[0] + Concat(cs[1..])
  }

  /** The start of the entry before chunk `k` (0.0 before the first one, `last` from a state). */
  function LastTime(cs: seq<seq<Segment>>, last: real, k: nat): real
    requires k < |cs| && forall i :: 0 <= i < |cs| ==> cs[i] != []
  {
    if k == 0 then last else cs[k - 1][0].start
  }

  /**
   * From a state with a non-empty chunk: the chunks are non-empty, read
   * back to the chunk and the unread segments, and the first one extends
   * the chunk being built.
   */
  lemma {:induction false} ChunksShape(chunk: seq<Segment>, last: real, rest: seq<Segment>, opts: OutlineOptions)
    requires chunk != []
    ensures var cs := ChunksFrom(chunk, last, rest, opts);
      && 1 <= |cs| <= 1 + |rest|
      && (forall k :: 0 <= k < |cs| ==> cs[k] != [])
      && Concat(cs) == chunk + rest
      && |chunk| <= |cs[0]| && cs[0][..|chunk|] == chunk
    decreases |rest|
  {
    if rest != [] {
      if Boundary(chunk, last, rest[0], opts) {
        var tail := ChunksFrom([rest[0]], chunk[0].start, rest[1..], opts);
        ChunksShape([rest[0]], chunk[0].start, rest[1..], opts);
        assert ([chunk] + tail)[1..] == tail;
        assert [rest[0]] + rest[1..] == rest;
        assert chunk + ([rest[0]] + rest[1..]) == chunk + rest;
      } else {
        ChunksShape(chunk + [rest[0]], last, rest[1..], opts);
        assert (chunk + [rest[0]]) + rest[1..] == chunk + rest;
        var c0 := ChunksFrom(chunk, last, rest, opts)[0];
        assert c0[..|chunk| + 1][..|chunk|] == c0[..|chunk|];
      }
    } else {
      assert [chunk][1..] == [];
    }
  }

  /** Every chunk after the first opens on a boundary of the chunk before it. */
  lemma {:induction false} ChunksOpen(chunk: seq<Segment>, last: real, rest: seq<Segment>, opts: OutlineOptions, k: nat)
    requires chunk != []
    requires 1 <= k < |ChunksFrom(chunk, last, rest, opts)|
    ensures var cs := ChunksFrom(chunk, last, rest, opts);
      (forall i :: 0 <= i < |cs| ==> cs[i] != []) &&
      Boundary(cs[k - 1], LastTime(cs, last, k - 1), cs[k][0], opts)
    decreases |rest|
  {
    ChunksShape(chunk, last, rest, opts);
    var cs := ChunksFrom(chunk, last, rest, opts);
    if Boundary(chunk, last, rest[0], opts) {
      var tail := ChunksFrom([rest[0]], chunk[0].start, rest[1..], opts);
      ChunksShape([rest[0]], chunk[0].start, rest[1..], opts);
      assert cs == [chunk] + tail;
      if k >= 2 {
        ChunksOpen([rest[0]], chunk[0].start, rest[1..], opts, k - 1);
        assert LastTime(cs, last, k - 1) == LastTime(tail, chunk[0].start, k - 2);
      } else {
        assert tail[0][..1] == [rest[0]];
      }
    } else {
      ChunksOpen(chunk + [rest[0]], last, rest[1..], opts, k);
    }
  }

  /** No segment inside a chunk, after its first, is a boundary. */
  lemma {:induction false} ChunksStay(chunk: seq<Segment>, last: real, rest: seq<Segment>, opts: OutlineOptions, k: nat, j: nat)
    requires chunk != []
    requires k < |ChunksFrom(chunk, last, rest, opts)|
    requires 1 <= j < |ChunksFrom(chunk, last, rest, opts)[k]|
    requires k == 0 ==> |chunk| <= j
    ensures var cs := ChunksFrom(chunk, last, rest, opts);
      (forall i :: 0 <= i < |cs| ==> cs[i] != []) &&
      !Boundary(cs[k][..j], LastTime(cs, last, k), cs[k][j], opts)
    decreases |rest|
  {
    ChunksShape(chunk, last, rest, opts);
    var cs := ChunksFrom(chunk, last, rest, opts);
    if rest == [] {
    } else if Boundary(chunk, last, rest[0], opts) {
      var tail := ChunksFrom([rest[0]], chunk[0].start, rest[1..], opts);
      ChunksShape([rest[0]], chunk[0].start, rest[1..], opts);
      assert cs == [chunk] + tail;
      ChunksStay([rest[0]], chunk[0].start, rest[1..], opts, k - 1, j);
      assert LastTime(cs, last, k) == LastTime(tail, chunk[0].start, k - 1);
    } else {
      var grown := chunk + [rest[0]];
      ChunksShape(grown, last, rest[1..], opts);
      if k == 0 && j == |chunk| {
        assert cs[0][..|grown|] == grown;
        assert cs[0][..j] == chunk by {
          assert cs[0][..|grown|][..j] == cs[0][..j];
        }
        assert cs[0][j] == cs[0][..|grown|][j] == rest[0];
      } else {
        ChunksStay(grown, last, rest[1..], opts, k, j);
      }
    }
  }

  /**
   * The chunks of a transcript: they are non-empty, read back to the
   * transcript in order (so there are at most as many as segments), each
   * one after the first opens exactly where the boundary test fires on the
   * chunk before it, and the test never fires inside a chunk.
   */
  lemma ChunksAreBoundaries(segs: seq<Segment>, opts: OutlineOptions)
    ensures var cs := Chunks(segs, opts);
      && |cs| <= |segs|
      && (segs != [] ==> |cs| >= 1)
      && (forall k :: 0 <= k < |cs| ==> cs[k] != [])
      && Concat(cs) == segs
      && (forall k :: 1 <= k < |cs| ==> Boundary(cs[k - 1], LastTime(cs, 0.0, k - 1), cs[k][0], opts))
      && (forall k, j :: 0 <= k < |cs| && 1 <= j < |cs[k]| ==> !Boundary(cs[k][..j], LastTime(cs, 0.0, k), cs[k][j], opts))
  {
    if segs != [] {
      var first := [segs[0]];
      assert [] + first == first;
      assert Chunks(segs, opts) == ChunksFrom(first, 0.0, segs[1..], opts);
      ChunksShape(first, 0.0, segs[1..], opts);
      assert first + segs[1..] == segs;
      var cs := Chunks(segs, opts);
      forall k | 1 <= k < |cs|
        ensures Boundary(cs[k - 1], LastTime(cs, 0.0, k - 1), cs[k][0], opts)
      {
        ChunksOpen(first, 0.0, segs[1..], opts, k);
      }
      forall k, j | 0 <= k < |cs| && 1 <= j < |cs[k]|
        ensures !Boundary(cs[k][..j], LastTime(cs, 0.0, k), cs[k][j], opts)
      {
        ChunksStay(first, 0.0, segs[1..], opts, k, j);
      }
    } else {
      assert Chunks(segs, opts) == [];
    }
  }

  /** The stripped texts of a chunk joined by spaces. */
  function ChunkText(chunk: seq<Segment>): string
  {
    Join(" ", seq(|chunk|, i requires 0 <= i < |chunk| => Strip(chunk[i].text)))
  }

  /** The entry of a chunk: its first segment's start and speaker ("Unknown" if none), and its summary. */
  function Entry(chunk: seq<Segment>, opts: OutlineOptions): (e: OutlineEntry)
    requires chunk != []
    ensures e.timestamp == chunk[0].start && e.speaker == chunk[0].speaker.GetOr("Unknown")
  {
    OutlineEntry(
      chunk[0].start,
      FormatTimestampAnchor(chunk[0].start),
      chunk[0].speaker.GetOr("Unknown"),
      ExtractKeyPhrases(ChunkText(chunk), opts.maxSummaryWords))
  }

  /** `Entry` with the options fixed, as a partial function of the chunk. */
  function EntryOf(opts: OutlineOptions): seq<Segment> --> OutlineEntry
  {
    c requires c != [] => Entry(c, opts)
  }

  /** `f` applied to each chunk, in order. */
  function MapChunks(cs: seq<seq<Segment>>, f: seq<Segment> --> OutlineEntry): (es: seq<OutlineEntry>)
    requires forall k :: 0 <= k < |cs| ==> f.requires(cs[k])
    ensures |es| == |cs|
  {
    seq(|cs|, k requires 0 <= k < |cs| => f(cs[k]))
  }

  lemma MapChunksSnoc(cs: seq<seq<Segment>>, c: seq<Segment>, f: seq<Segment> --> OutlineEntry)
    requires forall k :: 0 <= k < |cs| ==> f.requires(cs[k])
    requires f.requires(c)
    ensures forall k :: 0 <= k < |cs + [c]| ==> f.requires((cs + [c])[k])
    ensures MapChunks(cs + [c], f) == MapChunks(cs, f) + [f(c)]
  {
    var ab := cs + [c];
    assert forall k :: 0 <= k < |cs| ==> ab[k] == cs[k];
  }

  /** One entry per chunk, in order. */
  function Entries(cs: seq<seq<Segment>>, opts: OutlineOptions): (es: seq<OutlineEntry>)
    requires forall k :: 0 <= k < |cs| ==> cs[k] != []
    ensures |es| == |cs|
  {
    MapChunks(cs, EntryOf(opts))
  }

  lemma EntriesSnoc(cs: seq<seq<Segment>>, c: seq<Segment>, opts: OutlineOptions)
    requires forall k :: 0 <= k < |cs| ==> cs[k] != []
    requires c != []
    ensures forall k :: 0 <= k < |cs + [c]| ==> (cs + [c])[k] != []
    ensures Entries(cs + [c], opts) == Entries(cs, opts) + [Entry(c, opts)]
  {
    MapChunksSnoc(cs, c, EntryOf(opts));
  }

  /** The k-th entry is the entry of the k-th chunk. */
  lemma EntriesAt(cs: seq<seq<Segment>>, opts: OutlineOptions, k: nat)
    requires forall i :: 0 <= i < |cs| ==> cs[i] != []
    requires k < |cs|
    ensures Entries(cs, opts)[k] == Entry(cs[k], opts)
  {
  }

  /** `generate_outline`: one entry per chunk, in order. */
  function GenerateOutline(segs: seq<Segment>, opts: OutlineOptions): (es: seq<OutlineEntry>)
    ensures |es| <= |segs| && (segs == [] <==> es == [])
  {
    ChunksAreBoundaries(segs, opts);
    Entries(Chunks(segs, opts), opts)
  }

  /**
   * Each outline entry is made from one chunk, in order: it carries the
   * chunk's first start time, that time's anchor, its first speaker
   * ("Unknown" if none) and the key phrases of its text.
   */
  lemma OutlineEntryOfChunk(segs: seq<Segment>, opts: OutlineOptions, k: nat)
    requires k < |GenerateOutline(segs, opts)|
    ensures var cs := Chunks(segs, opts);
      && k < |cs| && cs[k] != []
      && GenerateOutline(segs, opts)[k] == OutlineEntry(cs[k][0].start, FormatTimestampAnchor(cs[k][0].start),
           cs[k][0].speaker.GetOr("Unknown"), ExtractKeyPhrases(ChunkText(cs[k]), opts.maxSummaryWords))
  {
    ChunksAreBoundaries(segs, opts);
    EntriesAt(Chunks(segs, opts), opts, k);
  }

  /** A boundary emits the chunk being built and restarts it at the segment. */
  lemma ChunksStepBoundary(emitted: seq<seq<Segment>>, chunk: seq<Segment>, last: real, seg: Segment, rest: seq<Segment>,
                           opts: OutlineOptions)
    requires chunk != [] && Boundary(chunk, last, seg, opts)
    ensures emitted + ChunksFrom(chunk, last, [seg] + rest, opts)
      == (emitted + [chunk]) + ChunksFrom([seg], chunk[0].start, rest, opts)
  {
    assert ([seg] + rest)[1..] == rest;
    var later := ChunksFrom([seg], chunk[0].start, rest, opts);
    assert emitted + ([chunk] + later) == (emitted + [chunk]) + later;
  }

  /** Without a boundary the segment joins the chunk being built. */
  lemma ChunksStepStay(chunk: seq<Segment>, last: real, seg: Segment, rest: seq<Segment>, opts: OutlineOptions)
    requires chunk == [] || !Boundary(chunk, last, seg, opts)
    ensures ChunksFrom(chunk, last, [seg] + rest, opts) == ChunksFrom(chunk + [seg], last, rest, opts)
  {
    assert ([seg] + rest)[1..] == rest;
  }

  /** The loop's test is the boundary test on the chunk being built. */
  lemma BoundaryTest(chunk: seq<Segment>, prev: Option<Segment>, last: real, seg: Segment, opts: OutlineOptions,
                     isTopicChange: bool, timeForEntry: bool)
    requires chunk != [] ==> prev == Some(chunk[|chunk| - 1])
    requires isTopicChange == (opts.autoDetectTopics && DetectTopicChange(prev, seg, opts.gapThreshold))
    requires timeForEntry == (opts.interval.Some? && seg.start - last >= opts.interval.value)
    ensures ((isTopicChange || timeForEntry) && chunk != []) == (chunk != [] && Boundary(chunk, last, seg, opts))
  {
  }

  /** `outline_entries.append(...)` for the chunk just closed. */
  method AppendEntry(entries: seq<OutlineEntry>, ghost emitted: seq<seq<Segment>>, chunk: seq<Segment>, opts: OutlineOptions)
    returns (r: seq<OutlineEntry>)
    requires forall k :: 0 <= k < |emitted| ==> emitted[k] != []
    requires chunk != [] && entries == Entries(emitted, opts)
    ensures forall k :: 0 <= k < |emitted + [chunk]| ==> (emitted + [chunk])[k] != []
    ensures r == Entries(emitted + [chunk], opts)
  {
    EntriesSnoc(emitted, chunk, opts);
    r := entries + [Entry(chunk, opts)];
  }

  /**
   * One pass of the loop of `generate_outline`: at a boundary the chunk being
   * built is emitted as an entry and the segment opens the next chunk, the
   * last entry time becoming the emitted chunk's start; otherwise the segment
   * joins the chunk.
   */
  method OutlineStep(entries: seq<OutlineEntry>, ghost emitted: seq<seq<Segment>>, chunk: seq<Segment>, last: real,
                     prev: Option<Segment>, seg: Segment, ghost rest: seq<Segment>, opts: OutlineOptions)
    returns (entries': seq<OutlineEntry>, ghost emitted': seq<seq<Segment>>, chunk': seq<Segment>, last': real)
    requires chunk != [] ==> prev == Some(chunk[|chunk| - 1])
    requires forall k :: 0 <= k < |emitted| ==> emitted[k] != []
    requires entries == Entries(emitted, opts)
    ensures chunk' != [] && chunk'[|chunk'| - 1] == seg
    ensures forall k :: 0 <= k < |emitted'| ==> emitted'[k] != []
    ensures entries' == Entries(emitted', opts)
    ensures emitted' + ChunksFrom(chunk', last', rest, opts) == emitted + ChunksFrom(chunk, last, [seg] + rest, opts)
  {
    var isTopicChange := false;
    if opts.autoDetectTopics {
      isTopicChange := DetectTopicChange(prev, seg, opts.gapThreshold);
    }
    var timeForEntry := opts.interval.Some? && seg.start - last >= opts.interval.value;
    BoundaryTest(chunk, prev, last, seg, opts, isTopicChange, timeForEntry);
    if (isTopicChange || timeForEntry) && chunk != [] {
      ChunksStepBoundary(emitted, chunk, last, seg, rest, opts);
      entries' := AppendEntry(entries, emitted, chunk, opts);
      emitted' := emitted + [chunk];
      last' := chunk[0].start;
      chunk' := [seg];
    } else {
      ChunksStepStay(chunk, last, seg, rest, opts);
      entries', emitted', last' := entries, emitted, last;
      chunk' := chunk + [seg];
    }
  }

  /** The loop of `generate_outline`, building the chunk and emitting entries at boundaries. */
  method GenerateOutlineLoop(segs: seq<Segment>, opts: OutlineOptions) returns (entries: seq<OutlineEntry>)
    ensures entries == GenerateOutline(segs, opts)
  {
    if segs == [] {
      return [];
    }
    entries := [];
    var lastOutlineTime := 0.0;
    var currentChunk: seq<Segment> := [];
    var prev: Option<Segment> := None;
    ghost var emitted: seq<seq<Segment>> := [];
    ghost var target := Chunks(segs, opts);
    var i := 0;
    while i < |segs|
      invariant 0 <= i <= |segs|
      invariant i == 0 ==> currentChunk == [] && prev.None?
      invariant i > 0 ==> currentChunk != [] && prev == Some(currentChunk[|currentChunk| - 1])
      invariant forall k :: 0 <= k < |emitted| ==> emitted[k] != []
      invariant entries == Entries(emitted, opts)
      invariant emitted + ChunksFrom(currentChunk, lastOutlineTime, segs[i..], opts) == target
    {
      var segment := segs[i];
      assert segs[i..] == [segment] + segs[i + 1..];
      entries, emitted, currentChunk, lastOutlineTime :=
        OutlineStep(entries, emitted, currentChunk, lastOutlineTime, prev, segment, segs[i + 1..], opts);
      prev := Some(segment);
      i := i + 1;
    }
    entries := AppendEntry(entries, emitted, currentChunk, opts);
    emitted := emitted + [currentChunk];
  }

  // ---------------------------------------------------------------------
  // format_outline_markdown
  // ---------------------------------------------------------------------

  /** The three lines of an entry: its heading, its summary and a blank line. */
  function EntryLines(e: OutlineEntry): seq<string>
  {
    ["## " + e.timestampFormatted + " " + e.speaker, e.summary, ""]
  }

  function BodyLines(es: seq<OutlineEntry>): (ls: seq<string>)
    ensures |ls| == 3 * |es|
    ensures forall k :: 0 <= k < |es| ==> ls[3 * k..3 * k + 3] == EntryLines(es[k])
  {
    if es == [] then []
    else
      var tail := BodyLines(es[1..]);
      var ls := EntryLines(es[0]) + tail;
      assert forall k :: 1 <= k < |es| ==> ls[3 * k..3 * k + 3] == tail[3 * (k - 1)..3 * (k - 1) + 3];
      ls
  }

  /** All the lines: the title heading, a blank line, then each entry's lines in order. */
  function OutlineLines(es: seq<OutlineEntry>, title: string): seq<string>
  {
    ["# " + title, ""] + BodyLines(es)
  }

  /** `format_outline_markdown`: the lines joined by newlines. */
  function FormatOutlineMarkdown(es: seq<OutlineEntry>, title: string): string
  {
    Join("\n", OutlineLines(es, title))
  }

  predicate OneLine(s: string) { '\n' !in s }

  /**
   * When no field holds a newline, the Markdown splits back into the
   * title heading, a blank line and, for each entry in order, its heading
   * `## <anchor> <speaker>`, its summary and a blank line.
   */
  lemma MarkdownLines(es: seq<OutlineEntry>, title: string)
    requires OneLine(title)
    requires forall k :: 0 <= k < |es| ==>
      OneLine(es[k].timestampFormatted) && OneLine(es[k].speaker) && OneLine(es[k].summary)
    ensures var ls := Split(FormatOutlineMarkdown(es, title), "\n");
      && |ls| == 2 + 3 * |es|
      && ls[0] == "# " + title && ls[1] == ""
      && forall k :: 0 <= k < |es| ==>
           ls[2 + 3 * k] == "## " + es[k].timestampFormatted + " " + es[k].speaker
           && ls[3 + 3 * k] == es[k].summary && ls[4 + 3 * k] == ""
  {
    var ls := OutlineLines(es, title);
    OutlineLinesOneLine(es, title);
    SplitJoin(ls, '\n');
    forall k | 0 <= k < |es|
      ensures ls[2 + 3 * k] == "## " + es[k].timestampFormatted + " " + es[k].speaker
      ensures ls[3 + 3 * k] == es[k].summary && ls[4 + 3 * k] == ""
    {
      OutlineLinesAt(es, title, k);
    }
  }

  lemma OutlineLinesAt(es: seq<OutlineEntry>, title: string, k: nat)
    requires k < |es|
    ensures var ls := OutlineLines(es, title);
      && |ls| == 2 + 3 * |es|
      && ls[2 + 3 * k] == "## " + es[k].timestampFormatted + " " + es[k].speaker
      && ls[3 + 3 * k] == es[k].summary && ls[4 + 3 * k] == ""
  {
    var ls := OutlineLines(es, title);
    var body := BodyLines(es);
    var el := EntryLines(es[k]);
    assert body[3 * k..3 * k + 3] == el;
    assert ls[2 + 3 * k] == body[3 * k] == el[0];
    assert ls[3 + 3 * k] == body[3 * k + 1] == el[1];
    assert ls[4 + 3 * k] == body[3 * k + 2] == el[2];
  }

  lemma OutlineLinesOneLine(es: seq<OutlineEntry>, title: string)
    requires OneLine(title)
    requires forall k :: 0 <= k < |es| ==>
      OneLine(es[k].timestampFormatted) && OneLine(es[k].speaker) && OneLine(es[k].summary)
    ensures var ls := OutlineLines(es, title);
      forall i :: 0 <= i < |ls| ==> '\n' !in ls[i]
  {
    var ls := OutlineLines(es, title);
    var body := BodyLines(es);
    forall i | 0 <= i < |ls|
      ensures '\n' !in ls[i]
    {
      if i >= 2 {
        var k := (i - 2) / 3;
        OutlineLinesAt(es, title, k);
        assert i == 2 + 3 * k || i == 3 + 3 * k || i == 4 + 3 * k;
      }
    }
  }
}
