/**
 * The pure core of the MIDI converter, tools/midiconv/midiconv.js:
 * `mergeTracks`, which merges the tracks of a MIDI file into one by start
 * tick, and `convertMidi`, which flattens the merged track into a list of
 * [frequency, duration] pairs, the highest key winning among notes struck
 * together and silences filling the gaps. Reading the MIDI file and
 * writing the output file are not modelled.
 */
module Midi {
  import opened Common

  /** A note as the MIDI reader reports it: key number, start in ticks, start and length in seconds. */
  datatype Note = Note(midi: int, ticks: int, time: real, duration: real)

  /** The parsed MIDI file; `mergeTracks` replaces its tracks. */
  class MidiData {
    var tracks: seq<seq<Note>>

    constructor (tracks: seq<seq<Note>>)
      ensures this.tracks == tracks
    {
      this.tracks := tracks;
    }
  }

  /** All notes of all tracks, track after track. */
  function Concat(tracks: seq<seq<Note>>): seq<Note>
  {
    if tracks == [] then [] else Concat(tracks[..|tracks| - 1]) + tracks[|tracks| - 1]
  }

  /** Whether `pos` holds a read position within each track. */
  predicate Positions(tracks: seq<seq<Note>>, pos: seq<int>)
  {
    |pos| == |tracks| && forall t :: 0 <= t < |tracks| ==> 0 <= pos[t] <= |tracks[t]|
  }

  /** The notes of the first `n` tracks that are not read yet. */
  function Rest(tracks: seq<seq<Note>>, pos: seq<int>, n: int): seq<Note>
    requires Positions(tracks, pos) && 0 <= n <= |tracks|
  {
    if n == 0 then [] else Rest(tracks, pos, n - 1) + tracks[n - 1][pos[n - 1]..]
  }

  /** With nothing read, what is left is every note. */
  lemma {:induction false} RestAtStart(tracks: seq<seq<Note>>, pos: seq<int>, n: int)
    requires Positions(tracks, pos) && 0 <= n <= |tracks|
    requires forall t :: 0 <= t < |tracks| ==> pos[t] == 0
    ensures Rest(tracks, pos, n) == Concat(tracks[..n])
  {
    if n > 0 {
      RestAtStart(tracks, pos, n - 1);
      assert tracks[..n][..n - 1] == tracks[..n - 1];
      assert tracks[n - 1][pos[n - 1]..] == tracks[n - 1];
    }
  }

  /** With everything read, nothing is left. */
  lemma {:induction false} RestAtEnd(tracks: seq<seq<Note>>, pos: seq<int>, n: int)
    requires Positions(tracks, pos) && 0 <= n <= |tracks|
    requires forall t :: 0 <= t < |tracks| ==> pos[t] == |tracks[t]|
    ensures Rest(tracks, pos, n) == []
  {
    if n > 0 {
      RestAtEnd(tracks, pos, n - 1);
    }
  }

  /** Reading a note of track `t` does not change what is left of the tracks before it. */
  lemma {:induction false} RestBefore(tracks: seq<seq<Note>>, pos: seq<int>, pos': seq<int>, t: int, n: int)
    requires Positions(tracks, pos) && Positions(tracks, pos') && 0 <= n <= t < |tracks|
    requires forall u :: 0 <= u < |tracks| && u != t ==> pos'[u] == pos[u]
    ensures Rest(tracks, pos', n) == Rest(tracks, pos, n)
  {
    if n > 0 {
      RestBefore(tracks, pos, pos', t, n - 1);
    }
  }

  /** Reading one note of track `t` takes exactly that note out of what is left: `Rest` splits around it. */
  lemma {:induction false} RestStep(tracks: seq<seq<Note>>, pos: seq<int>, pos': seq<int>, t: int, n: int)
    returns (before: seq<Note>, after: seq<Note>)
    requires Positions(tracks, pos) && 0 <= t < n <= |tracks| && pos[t] < |tracks[t]|
    requires pos' == pos[t := pos[t] + 1]
    ensures Positions(tracks, pos')
    ensures Rest(tracks, pos, n) == before + [tracks[t][pos[t]]] + after
    ensures Rest(tracks, pos', n) == before + after
  {
    var x := tracks[t][pos[t]];
    if n - 1 == t {
      RestBefore(tracks, pos, pos', t, t);
      before, after := Rest(tracks, pos, t), tracks[t][pos'[t]..];
      assert tracks[t][pos[t]..] == [x] + after;
      assert Rest(tracks, pos, n) == before + ([x] + after);
    } else {
      var b0, a0 := RestStep(tracks, pos, pos', t, n - 1);
      var tail := tracks[n - 1][pos[n - 1]..];
      assert tracks[n - 1][pos'[n - 1]..] == tail;
      assert Rest(tracks, pos, n) == (b0 + [x] + a0) + tail;
      assert Rest(tracks, pos', n) == (b0 + a0) + tail;
      before, after := b0, a0 + tail;
    }
  }

  /** `trackHead` entries: the next unread note of track `trackId` is at `offs`. */
  datatype Head = Head(trackId: int, offs: int)

  /** The heads point at unread notes, in increasing track order. */
  predicate HeadsValid(tracks: seq<seq<Note>>, heads: seq<Head>)
  {
    (forall k :: 0 <= k < |heads| ==> 0 <= heads[k].trackId < |tracks| && 0 <= heads[k].offs < |tracks[heads[k].trackId]|) &&
    (forall k, l :: 0 <= k < l < |heads| ==> heads[k].trackId < heads[l].trackId)
  }

  /** The start tick of the note a head points at. */
  function HeadTicks(tracks: seq<seq<Note>>, h: Head): int
    requires 0 <= h.trackId < |tracks| && 0 <= h.offs < |tracks[h.trackId]|
  {
    tracks[h.trackId][h.offs].ticks
  }

  predicate NonNegativeTicks(tracks: seq<seq<Note>>)
  {
    forall t, k :: 0 <= t < |tracks| && 0 <= k < |tracks[t]| ==> tracks[t][k].ticks >= 0
  }

  /**
   * The inner loop of `mergeTracks`: the head whose note starts first. With
   * the loop's sentinel of -1 for "none yet" this is the first head of
   * least start tick as long as no tick is negative.
   */
  method PickHead(tracks: seq<seq<Note>>, heads: seq<Head>) returns (minI: int)
    requires HeadsValid(tracks, heads) && |heads| > 0
    ensures 0 <= minI < |heads|
    ensures NonNegativeTicks(tracks) ==>
              (forall k :: 0 <= k < |heads| ==> HeadTicks(tracks, heads[minI]) <= HeadTicks(tracks, heads[k])) &&
              (forall k :: 0 <= k < minI ==> HeadTicks(tracks, heads[minI]) < HeadTicks(tracks, heads[k]))
  {
    minI := -1;
    var minTicks := -1;
    for i := 0 to |heads|
      invariant minI == -1 <==> i == 0
      invariant minI == -1 ==> minTicks == -1
      invariant -1 <= minI < i
      invariant minI >= 0 ==> minTicks == HeadTicks(tracks, heads[minI])
      invariant NonNegativeTicks(tracks) && minI >= 0 ==>
                  (forall k :: 0 <= k < i ==> minTicks <= HeadTicks(tracks, heads[k])) &&
                  (forall k :: 0 <= k < minI ==> minTicks < HeadTicks(tracks, heads[k]))
    {
      var ticks := HeadTicks(tracks, heads[i]);
      if minTicks == -1 || ticks < minTicks {
        minTicks := ticks;
        minI := i;
      }
    }
  }

  /** The read positions of track `t` that `origin` records, in merge order. */
  function Taken(origin: seq<(int, int)>, t: int): seq<int>
  {
    if origin == [] then []
    else Taken(origin[..|origin| - 1], t) + (if origin[|origin| - 1].0 == t then [origin[|origin| - 1].1] else [])
  }

  lemma TakenAppend(origin: seq<(int, int)>, x: (int, int), t: int)
    ensures Taken(origin + [x], t) == Taken(origin, t) + (if x.0 == t then [x.1] else [])
  {
    assert (origin + [x])[..|origin|] == origin;
  }

  /** 0, 1, ..., n - 1 */
  function Range(n: nat): (r: seq<int>)
    ensures |r| == n && forall i :: 0 <= i < n ==> r[i] == i
  {
    seq(n, i => i)
  }

  lemma RangeStep(n: nat)
    ensures Range(n + 1) == Range(n) + [n]
  {
    assert Range(n + 1)[..n] == Range(n);
  }

  /**
   * `merged` is a merge of `tracks`, and `origin` says where each of its
   * notes came from: every note of every track appears exactly once, and
   * the notes of each track appear in their original order.
   */
  ghost predicate IsMerge(tracks: seq<seq<Note>>, merged: seq<Note>, origin: seq<(int, int)>)
  {
    |origin| == |merged| &&
    (forall k :: 0 <= k < |merged| ==>
       0 <= origin[k].0 < |tracks| && 0 <= origin[k].1 < |tracks[origin[k].0]| &&
       merged[k] == tracks[origin[k].0][origin[k].1]) &&
    forall t :: 0 <= t < |tracks| ==> Taken(origin, t) == Range(|tracks[t]|)
  }

  predicate SortedByTicks(ns: seq<Note>)
  {
    forall k, l :: 0 <= k < l < |ns| ==> ns[k].ticks <= ns[l].ticks
  }

  predicate AllSorted(tracks: seq<seq<Note>>)
  {
    forall t :: 0 <= t < |tracks| ==> SortedByTicks(tracks[t])
  }

  /** The merge loop's state: what has been merged, where each note came from, how far each track is read. */
  ghost predicate MergeState(tracks: seq<seq<Note>>, merged: seq<Note>, origin: seq<(int, int)>, pos: seq<int>)
  {
    Positions(tracks, pos) && |origin| == |merged| &&
    (forall k :: 0 <= k < |merged| ==>
       0 <= origin[k].0 < |tracks| && 0 <= origin[k].1 < |tracks[origin[k].0]| &&
       merged[k] == tracks[origin[k].0][origin[k].1]) &&
    (forall t :: 0 <= t < |tracks| ==> Taken(origin, t) == Range(pos[t])) &&
    multiset(merged) + multiset(Rest(tracks, pos, |tracks|)) == multiset(Concat(tracks))
  }

  /** The heads are exactly the tracks with notes left, each at its read position. */
  ghost predicate HeadsMatch(tracks: seq<seq<Note>>, heads: seq<Head>, pos: seq<int>)
    requires Positions(tracks, pos)
  {
    HeadsValid(tracks, heads) &&
    (forall k :: 0 <= k < |heads| ==> heads[k].offs == pos[heads[k].trackId]) &&
    (forall t :: 0 <= t < |tracks| && pos[t] < |tracks[t]| ==> Head(t, pos[t]) in heads)
  }

  /** For sorted tracks, the merged notes are in order and none starts after a note still to come. */
  ghost predicate MergeOrdered(tracks: seq<seq<Note>>, merged: seq<Note>, pos: seq<int>)
    requires Positions(tracks, pos)
  {
    SortedByTicks(merged) &&
    (|merged| > 0 ==> forall t :: 0 <= t < |tracks| && pos[t] < |tracks[t]| ==> merged[|merged| - 1].ticks <= tracks[t][pos[t]].ticks)
  }

  /** A head for a later track may be appended to valid heads. */
  lemma HeadsValidSnoc(tracks: seq<seq<Note>>, heads: seq<Head>, h: Head)
    requires HeadsValid(tracks, heads) && 0 <= h.trackId < |tracks| && 0 <= h.offs < |tracks[h.trackId]|
    requires forall k :: 0 <= k < |heads| ==> heads[k].trackId < h.trackId
    ensures HeadsValid(tracks, heads + [h])
  {
  }

  /** Heads at 0 for every track with notes match the start, where nothing has been read. */
  lemma HeadsAtStart(tracks: seq<seq<Note>>, heads: seq<Head>)
    requires HeadsValid(tracks, heads)
    requires forall k :: 0 <= k < |heads| ==> heads[k].offs == 0
    requires forall t :: 0 <= t < |tracks| && 0 < |tracks[t]| ==> Head(t, 0) in heads
    ensures Positions(tracks, seq(|tracks|, _ => 0)) && HeadsMatch(tracks, heads, seq(|tracks|, _ => 0))
  {
    var pos := seq(|tracks|, _ => 0);
    assert forall t :: 0 <= t < |tracks| ==> pos[t] == 0;
  }

  /** The set-up loop of `mergeTracks`: a head at 0 for each track with notes, in track order. */
  method InitialHeads(tracks: seq<seq<Note>>) returns (heads: seq<Head>)
    ensures HeadsMatch(tracks, heads, seq(|tracks|, _ => 0))
  {
    heads := [];
    for i := 0 to |tracks|
      invariant HeadsValid(tracks, heads)
      invariant forall k :: 0 <= k < |heads| ==> heads[k].offs == 0 && heads[k].trackId < i
      invariant forall t :: 0 <= t < i && 0 < |tracks[t]| ==> Head(t, 0) in heads
    {
      if |tracks[i]| != 0 {
        HeadsValidSnoc(tracks, heads, Head(i, 0));
        heads := heads + [Head(i, 0)];
      }
    }
    HeadsAtStart(tracks, heads);
  }

  /** Recording that position `pos[t]` of track `t` was taken extends its record by that position. */
  lemma TakenStep(origin: seq<(int, int)>, pos: seq<int>, t: int, n: int, origin': seq<(int, int)>, pos': seq<int>)
    requires |pos| == n && 0 <= t < n && forall u :: 0 <= u < n ==> 0 <= pos[u] && Taken(origin, u) == Range(pos[u])
    requires origin' == origin + [(t, pos[t])] && pos' == pos[t := pos[t] + 1]
    ensures forall u :: 0 <= u < n ==> Taken(origin', u) == Range(pos'[u])
  {
    forall u | 0 <= u < n
      ensures Taken(origin', u) == Range(pos'[u])
    {
      TakenAppend(origin, (t, pos[t]), u);
      if u == t {
        RangeStep(pos[u]);
      }
    }
  }

  /** Taking the note at track `t`'s read position moves it from what is left to what is merged. */
  lemma NotesStep(tracks: seq<seq<Note>>, merged: seq<Note>, pos: seq<int>, t: int, merged': seq<Note>, pos': seq<int>)
    requires Positions(tracks, pos) && 0 <= t < |tracks| && pos[t] < |tracks[t]|
    requires multiset(merged) + multiset(Rest(tracks, pos, |tracks|)) == multiset(Concat(tracks))
    requires merged' == merged + [tracks[t][pos[t]]] && pos' == pos[t := pos[t] + 1]
    ensures Positions(tracks, pos')
    ensures multiset(merged') + multiset(Rest(tracks, pos', |tracks|)) == multiset(Concat(tracks))
    ensures |Rest(tracks, pos', |tracks|)| < |Rest(tracks, pos, |tracks|)|
  {
    var before, after := RestStep(tracks, pos, pos', t, |tracks|);
    assert multiset(Rest(tracks, pos, |tracks|)) == multiset(before) + multiset{tracks[t][pos[t]]} + multiset(after);
  }

  /** The merged notes keep their origins when one more is appended. */
  lemma OriginStep(tracks: seq<seq<Note>>, merged: seq<Note>, origin: seq<(int, int)>, t: int, o: int, merged': seq<Note>, origin': seq<(int, int)>)
    requires |origin| == |merged| && 0 <= t < |tracks| && 0 <= o < |tracks[t]|
    requires forall k :: 0 <= k < |merged| ==>
       0 <= origin[k].0 < |tracks| && 0 <= origin[k].1 < |tracks[origin[k].0]| &&
       merged[k] == tracks[origin[k].0][origin[k].1]
    requires merged' == merged + [tracks[t][o]] && origin' == origin + [(t, o)]
    ensures |origin'| == |merged'|
    ensures forall k :: 0 <= k < |merged'| ==>
       0 <= origin'[k].0 < |tracks| && 0 <= origin'[k].1 < |tracks[origin'[k].0]| &&
       merged'[k] == tracks[origin'[k].0][origin'[k].1]
  {
    assert forall k :: 0 <= k < |merged| ==> merged'[k] == merged[k] && origin'[k] == origin[k];
  }

  /** Taking the note at track `t`'s read position keeps the merge state. */
  lemma StateStep(tracks: seq<seq<Note>>, merged: seq<Note>, origin: seq<(int, int)>, pos: seq<int>, t: int,
                  merged': seq<Note>, origin': seq<(int, int)>, pos': seq<int>)
    requires MergeState(tracks, merged, origin, pos) && 0 <= t < |tracks| && pos[t] < |tracks[t]|
    requires merged' == merged + [tracks[t][pos[t]]] && origin' == origin + [(t, pos[t])] && pos' == pos[t := pos[t] + 1]
    ensures MergeState(tracks, merged', origin', pos')
    ensures |Rest(tracks, pos', |tracks|)| < |Rest(tracks, pos, |tracks|)|
  {
    NotesStep(tracks, merged, pos, t, merged', pos');
    TakenStep(origin, pos, t, |tracks|, origin', pos');
    OriginStep(tracks, merged, origin, t, pos[t], merged', origin');
  }

  /** Splicing out entry m of a sequence shifts the later entries down by one. */
  lemma SpliceOut<T>(xs: seq<T>, m: int, ys: seq<T>)
    requires 0 <= m < |xs| && ys == xs[..m] + xs[m + 1..]
    ensures |ys| == |xs| - 1
    ensures forall k :: 0 <= k < |ys| ==> ys[k] == xs[if k < m then k else k + 1]
  {
  }

  lemma DropValid(tracks: seq<seq<Note>>, heads: seq<Head>, m: int, heads': seq<Head>)
    requires HeadsValid(tracks, heads) && 0 <= m < |heads| && heads' == heads[..m] + heads[m + 1..]
    ensures HeadsValid(tracks, heads')
    ensures forall k :: 0 <= k < |heads'| ==> heads'[k].trackId != heads[m].trackId
  {
    SpliceOut(heads, m, heads');
  }

  lemma DropOffsets(tracks: seq<seq<Note>>, heads: seq<Head>, pos: seq<int>, m: int, heads': seq<Head>, pos': seq<int>)
    requires 0 <= m < |heads| && heads' == heads[..m] + heads[m + 1..] && |pos| == |tracks|
    requires forall k :: 0 <= k < |heads| ==> 0 <= heads[k].trackId < |tracks| && heads[k].offs == pos[heads[k].trackId]
    requires forall k :: 0 <= k < |heads'| ==> heads'[k].trackId != heads[m].trackId
    requires pos' == pos[heads[m].trackId := heads[m].offs + 1]
    ensures forall k :: 0 <= k < |heads'| ==> heads'[k].offs == pos'[heads'[k].trackId]
  {
    SpliceOut(heads, m, heads');
  }

  lemma DropCovers(tracks: seq<seq<Note>>, heads: seq<Head>, pos: seq<int>, m: int, heads': seq<Head>, pos': seq<int>)
    requires 0 <= m < |heads| && heads' == heads[..m] + heads[m + 1..] && |pos| == |tracks|
    requires 0 <= heads[m].trackId < |tracks| && heads[m].offs + 1 == |tracks[heads[m].trackId]|
    requires forall t :: 0 <= t < |tracks| && pos[t] < |tracks[t]| ==> Head(t, pos[t]) in heads
    requires pos' == pos[heads[m].trackId := heads[m].offs + 1]
    ensures forall u :: 0 <= u < |tracks| && pos'[u] < |tracks[u]| ==> Head(u, pos'[u]) in heads'
  {
    forall u | 0 <= u < |tracks| && pos'[u] < |tracks[u]|
      ensures Head(u, pos'[u]) in heads'
    {
      var k :| 0 <= k < |heads| && heads[k] == Head(u, pos[u]);
      assert heads'[if k < m then k else k - 1] == heads[k];
    }
  }

  /** Splicing out the head of a track whose last note was just taken keeps the heads matching. */
  lemma HeadsDrop(tracks: seq<seq<Note>>, heads: seq<Head>, pos: seq<int>, m: int, heads': seq<Head>, pos': seq<int>)
    requires Positions(tracks, pos) && HeadsMatch(tracks, heads, pos) && 0 <= m < |heads|
    requires heads[m].offs + 1 == |tracks[heads[m].trackId]|
    requires heads' == heads[..m] + heads[m + 1..] && pos' == pos[heads[m].trackId := heads[m].offs + 1]
    ensures Positions(tracks, pos') && HeadsMatch(tracks, heads', pos')
  {
    DropValid(tracks, heads, m, heads');
    DropOffsets(tracks, heads, pos, m, heads', pos');
    DropCovers(tracks, heads, pos, m, heads', pos');
  }

  /** Moving a head on to its track's next note keeps the heads matching. */
  lemma HeadsAdvance(tracks: seq<seq<Note>>, heads: seq<Head>, pos: seq<int>, m: int, heads': seq<Head>, pos': seq<int>)
    requires Positions(tracks, pos) && HeadsMatch(tracks, heads, pos) && 0 <= m < |heads|
    requires heads[m].offs + 1 < |tracks[heads[m].trackId]|
    requires heads' == heads[m := Head(heads[m].trackId, heads[m].offs + 1)] && pos' == pos[heads[m].trackId := heads[m].offs + 1]
    ensures Positions(tracks, pos') && HeadsMatch(tracks, heads', pos')
  {
    var t := heads[m].trackId;
    assert forall k :: 0 <= k < |heads| && k != m ==> heads[k].trackId != t;
    forall u | 0 <= u < |tracks| && pos'[u] < |tracks[u]|
      ensures Head(u, pos'[u]) in heads'
    {
      var k :| 0 <= k < |heads| && heads[k] == Head(u, pos[u]);
      assert heads'[if u == t then m else k] == Head(u, pos'[u]);
    }
  }

  /** Taking a note that starts no later than any other unread note keeps the merged notes in order. */
  lemma OrderStep(tracks: seq<seq<Note>>, merged: seq<Note>, heads: seq<Head>, pos: seq<int>, m: int, merged': seq<Note>, pos': seq<int>)
    requires Positions(tracks, pos) && HeadsMatch(tracks, heads, pos) && 0 <= m < |heads|
    requires AllSorted(tracks) && MergeOrdered(tracks, merged, pos)
    requires forall k :: 0 <= k < |heads| ==> HeadTicks(tracks, heads[m]) <= HeadTicks(tracks, heads[k])
    requires merged' == merged + [tracks[heads[m].trackId][heads[m].offs]] && pos' == pos[heads[m].trackId := heads[m].offs + 1]
    ensures Positions(tracks, pos') && MergeOrdered(tracks, merged', pos')
  {
    var t, o := heads[m].trackId, heads[m].offs;
    forall u | 0 <= u < |tracks| && pos'[u] < |tracks[u]|
      ensures tracks[t][o].ticks <= tracks[u][pos'[u]].ticks
    {
      if u == t {
        assert SortedByTicks(tracks[t]);
      } else {
        var k :| 0 <= k < |heads| && heads[k] == Head(u, pos[u]);
        assert HeadTicks(tracks, heads[m]) <= HeadTicks(tracks, heads[k]);
      }
    }
    if |merged| > 0 {
      assert merged[|merged| - 1].ticks <= tracks[t][pos[t]].ticks;
    }
  }

  /**
   * One pass of the merge loop: the note at head `m` is appended, its
   * track's read position moves on, and the head moves with it or, at the
   * end of the track, is spliced out.
   */
  method MergeStep(tracks: seq<seq<Note>>, merged0: seq<Note>, heads0: seq<Head>, m: int,
                   ghost origin0: seq<(int, int)>, ghost pos0: seq<int>)
    returns (merged: seq<Note>, heads: seq<Head>, ghost origin: seq<(int, int)>, ghost pos: seq<int>)
    requires MergeState(tracks, merged0, origin0, pos0) && HeadsMatch(tracks, heads0, pos0) && 0 <= m < |heads0|
    requires NonNegativeTicks(tracks) && AllSorted(tracks) && MergeOrdered(tracks, merged0, pos0) ==>
               forall k :: 0 <= k < |heads0| ==> HeadTicks(tracks, heads0[m]) <= HeadTicks(tracks, heads0[k])
    ensures MergeState(tracks, merged, origin, pos) && HeadsMatch(tracks, heads, pos)
    ensures merged == merged0 + [tracks[heads0[m].trackId][heads0[m].offs]]
    ensures |Rest(tracks, pos, |tracks|)| < |Rest(tracks, pos0, |tracks|)|
    ensures NonNegativeTicks(tracks) && AllSorted(tracks) && MergeOrdered(tracks, merged0, pos0) ==> MergeOrdered(tracks, merged, pos)
  {
    var h := heads0[m];
    var t := h.trackId;
    merged := merged0 + [tracks[t][h.offs]];
    origin := origin0 + [(t, h.offs)];
    pos := pos0[t := h.offs + 1];
    StateStep(tracks, merged0, origin0, pos0, t, merged, origin, pos);
    if NonNegativeTicks(tracks) && AllSorted(tracks) && MergeOrdered(tracks, merged0, pos0) {
      OrderStep(tracks, merged0, heads0, pos0, m, merged, pos);
    }
    if h.offs + 1 >= |tracks[t]| {
      heads := heads0[..m] + heads0[m + 1..];
      HeadsDrop(tracks, heads0, pos0, m, heads, pos);
    } else {
      heads := heads0[m := Head(t, h.offs + 1)];
      HeadsAdvance(tracks, heads0, pos0, m, heads, pos);
    }
  }

  /**
   * `mergeTracks(midiData)`: with at most one track nothing changes;
   * otherwise the tracks are replaced by a single track holding a merge of
   * them, built by repeatedly taking the note that starts first among the
   * tracks' next notes (the lowest track on a tie). When every track is
   * sorted by start tick, so is the merged track.
   */
  method MergeTracks(d: MidiData) returns (ghost origin: seq<(int, int)>)
    modifies d`tracks
    ensures |old(d.tracks)| <= 1 ==> d.tracks == old(d.tracks)
    ensures |old(d.tracks)| > 1 ==> |d.tracks| == 1 && IsMerge(old(d.tracks), d.tracks[0], origin)
    ensures |old(d.tracks)| > 1 ==> multiset(d.tracks[0]) == multiset(Concat(old(d.tracks)))
    ensures |old(d.tracks)| > 1 && NonNegativeTicks(old(d.tracks)) && AllSorted(old(d.tracks)) ==> SortedByTicks(d.tracks[0])
  {
    origin := [];
    if |d.tracks| <= 1 {
      return;
    }
    var tracks := d.tracks;
    var merged: seq<Note> := [];
    var heads := InitialHeads(tracks);
    ghost var pos := seq(|tracks|, _ => 0);
    MergeStart(tracks, pos);
    while |heads| > 0
      invariant MergeState(tracks, merged, origin, pos) && HeadsMatch(tracks, heads, pos)
      invariant NonNegativeTicks(tracks) && AllSorted(tracks) ==> MergeOrdered(tracks, merged, pos)
      decreases |Rest(tracks, pos, |tracks|)|
    {
      var m := PickHead(tracks, heads);
      merged, heads, origin, pos := MergeStep(tracks, merged, heads, m, origin, pos);
    }
    MergeEnd(tracks, merged, origin, heads, pos);
    d.tracks := [merged];
  }

  /** Before the loop nothing is merged and every note is left. */
  lemma MergeStart(tracks: seq<seq<Note>>, pos: seq<int>)
    requires pos == seq(|tracks|, _ => 0)
    ensures MergeState(tracks, [], [], pos) && MergeOrdered(tracks, [], pos)
  {
    RestAtStart(tracks, pos, |tracks|);
    assert tracks[..|tracks|] == tracks;
  }

  /** Once no head is left, every note has been merged. */
  lemma MergeEnd(tracks: seq<seq<Note>>, merged: seq<Note>, origin: seq<(int, int)>, heads: seq<Head>, pos: seq<int>)
    requires MergeState(tracks, merged, origin, pos) && HeadsMatch(tracks, heads, pos) && heads == []
    ensures IsMerge(tracks, merged, origin) && multiset(merged) == multiset(Concat(tracks))
  {
    assert forall t :: 0 <= t < |tracks| ==> pos[t] == |tracks[t]|;
    RestAtEnd(tracks, pos, |tracks|);
  }

  /**
   * `midiKeyValues`: the frequency in hertz of each of the 128 MIDI key
   * numbers, written here in rows of sixteen keys.
   */
  const MIDI_KEY_VALUES: seq<real> :=
    KEY_ROW_0 + KEY_ROW_1 + KEY_ROW_2 + KEY_ROW_3 + KEY_ROW_4 + KEY_ROW_5 + KEY_ROW_6 + KEY_ROW_7
  const KEY_ROW_0: seq<real> := [8.18, 8.66, 9.18, 9.72, 10.3, 10.91, 11.56, 12.25, 12.98, 13.75, 14.57, 15.43, 16.35, 17.32, 18.35, 19.45]
  const KEY_ROW_1: seq<real> := [20.6, 21.83, 23.12, 24.5, 25.96, 27.5, 29.14, 30.87, 32.7, 34.65, 36.71, 38.89, 41.2, 43.65, 46.25, 49.0]
  const KEY_ROW_2: seq<real> := [51.91, 55.0, 58.27, 61.74, 65.41, 69.3, 73.42, 77.78, 82.41, 87.31, 92.5, 98.0, 103.83, 110.0, 116.54, 123.47]
  const KEY_ROW_3: seq<real> := [130.81, 138.59, 146.83, 155.56, 164.81, 174.61, 185.0, 196.0, 207.65, 220.0, 233.08, 246.94, 261.63, 277.18, 293.66, 311.13]
  const KEY_ROW_4: seq<real> := [329.63, 349.23, 369.99, 392.0, 415.3, 440.0, 466.16, 493.88, 523.25, 554.37, 587.33, 622.25, 659.26, 698.46, 739.99, 783.99]
  const KEY_ROW_5: seq<real> := [830.61, 880.0, 932.33, 987.77, 1046.5, 1108.73, 1174.66, 1244.51, 1318.51, 1396.91, 1479.98, 1567.98, 1661.22, 1760.0, 1864.66, 1975.53]
  const KEY_ROW_6: seq<real> := [2093.0, 2217.46, 2349.32, 2489.02, 2637.02, 2793.83, 2959.96, 3135.96, 3322.44, 3520.0, 3729.31, 3951.07, 4186.01, 4434.92, 4698.64, 4978.03]
  const KEY_ROW_7: seq<real> := [5274.04, 5587.65, 5919.91, 6271.93, 6644.88, 7040.0, 7458.62, 7902.13, 8372.02, 8869.84, 9397.27, 9956.06, 10548.08, 11175.3, 11839.82, 12543.85]

  predicate AllPositive(s: seq<real>)
  {
    forall k :: 0 <= k < |s| ==> s[k] > 0.0
  }

  lemma AllPositiveAppend(a: seq<real>, b: seq<real>)
    requires AllPositive(a) && AllPositive(b)
    ensures AllPositive(a + b)
  {
  }

  /** Every key has a (positive) frequency, so a tone is never mistaken for a silence. */
  lemma KeyValuesPositive()
    ensures |MIDI_KEY_VALUES| == 128 && AllPositive(MIDI_KEY_VALUES)
  {
    assert AllPositive(KEY_ROW_0);
    assert AllPositive(KEY_ROW_1);
    AllPositiveAppend(KEY_ROW_0, KEY_ROW_1);
    assert AllPositive(KEY_ROW_2);
    AllPositiveAppend(KEY_ROW_0 + KEY_ROW_1, KEY_ROW_2);
    assert AllPositive(KEY_ROW_3);
    AllPositiveAppend(KEY_ROW_0 + KEY_ROW_1 + KEY_ROW_2, KEY_ROW_3);
    assert AllPositive(KEY_ROW_4);
    AllPositiveAppend(KEY_ROW_0 + KEY_ROW_1 + KEY_ROW_2 + KEY_ROW_3, KEY_ROW_4);
    assert AllPositive(KEY_ROW_5);
    AllPositiveAppend(KEY_ROW_0 + KEY_ROW_1 + KEY_ROW_2 + KEY_ROW_3 + KEY_ROW_4, KEY_ROW_5);
    assert AllPositive(KEY_ROW_6);
    AllPositiveAppend(KEY_ROW_0 + KEY_ROW_1 + KEY_ROW_2 + KEY_ROW_3 + KEY_ROW_4 + KEY_ROW_5, KEY_ROW_6);
    assert AllPositive(KEY_ROW_7);
    AllPositiveAppend(KEY_ROW_0 + KEY_ROW_1 + KEY_ROW_2 + KEY_ROW_3 + KEY_ROW_4 + KEY_ROW_5 + KEY_ROW_6, KEY_ROW_7);
  }

  /** The frequency of MIDI key `key`; never zero, which marks a silence. */
  function KeyFrequency(key: int): (f: real)
    requires 0 <= key < 128
    ensures f > 0.0
  {
    KeyValuesPositive();
    MIDI_KEY_VALUES[key]
  }

  /** An entry of the output, `[frequency, duration]`; frequency 0 is a silence. */
  datatype Tone = Tone(frequency: real, duration: real)

  /** Every key number is one of the 128 MIDI keys, as the MIDI format's 7-bit key numbers are. */
  predicate ValidKeys(ns: seq<Note>)
  {
    forall k :: 0 <= k < |ns| ==> 0 <= ns[k].midi < 128
  }

  /** No note from j up to note i starts earlier than note i. */
  ghost predicate NoneStartEarlier(ns: seq<Note>, j: int, i: int)
    requires 0 <= j <= i < |ns|
  {
    forall k :: j <= k < i ==> ns[k].ticks >= ns[i].ticks
  }

  /** No note after note i up to note j starts later than note i. */
  ghost predicate NoneStartLater(ns: seq<Note>, i: int, j: int)
    requires 0 <= i <= j < |ns|
  {
    forall k :: i < k <= j ==> ns[k].ticks <= ns[i].ticks
  }

  /**
   * The backward scan of `convertMidi`: walking back from note i, a higher
   * key is met before any note that starts earlier than note i.
   */
  ghost predicate OutvoicedBefore(ns: seq<Note>, i: int)
    requires 0 <= i < |ns|
  {
    exists j {:trigger NoneStartEarlier(ns, j, i)} :: 0 <= j < i && ns[j].midi > ns[i].midi && NoneStartEarlier(ns, j, i)
  }

  /** The forward scan: walking on from note i, a higher key is met before any note that starts later. */
  ghost predicate OutvoicedAfter(ns: seq<Note>, i: int)
    requires 0 <= i < |ns|
  {
    exists j {:trigger NoneStartLater(ns, i, j)} :: i < j < |ns| && ns[j].midi > ns[i].midi && NoneStartLater(ns, i, j)
  }

  /** Note i is dropped: a higher key sounds at its start. */
  ghost predicate Ignored(ns: seq<Note>, i: int)
    requires 0 <= i < |ns|
  {
    OutvoicedBefore(ns, i) || OutvoicedAfter(ns, i)
  }

  /** The first inner loop of `convertMidi`, walking back from note i. */
  method ScanBack(ns: seq<Note>, i: int) returns (ignore: bool)
    requires 0 <= i < |ns|
    ensures ignore == OutvoicedBefore(ns, i)
  {
    var j := i - 1;
    while j >= 0
      invariant -1 <= j < i
      invariant forall k :: j < k < i ==> ns[k].ticks >= ns[i].ticks && ns[k].midi <= ns[i].midi
      decreases j
    {
      if ns[j].ticks < ns[i].ticks {
        return false;
      }
      if ns[j].midi > ns[i].midi {
        assert NoneStartEarlier(ns, j, i);
        return true;
      }
      j := j - 1;
    }
    return false;
  }

  /** The second inner loop of `convertMidi`, walking on from note i. */
  method ScanOn(ns: seq<Note>, i: int) returns (ignore: bool)
    requires 0 <= i < |ns|
    ensures ignore == OutvoicedAfter(ns, i)
  {
    var j := i + 1;
    while j < |ns|
      invariant i < j <= |ns|
      invariant forall k :: i < k < j ==> ns[k].ticks <= ns[i].ticks && ns[k].midi <= ns[i].midi
    {
      if ns[j].ticks > ns[i].ticks {
        return false;
      }
      if ns[j].midi > ns[i].midi {
        assert NoneStartLater(ns, i, j);
        return true;
      }
      j := j + 1;
    }
    return false;
  }

  /**
   * What one kept note adds to the list, the previous kept note having
   * ended at `lastTime`: a silence filling the gap before it if there is
   * one, then the note's frequency and duration.
   */
  function Emitted(n: Note, lastTime: real): seq<Tone>
    requires 0 <= n.midi < 128
  {
    (if n.time > lastTime then [Tone(0.0, n.time - lastTime)] else []) + [Tone(KeyFrequency(n.midi), n.duration)]
  }

  /**
   * What `convertMidi` emits from note i on, the previous kept note having
   * ended at `lastTime`: each note no higher key outvoices, with the
   * silence before it, and at the end the terminator [0, 0].
   */
  ghost function ConvertFrom(ns: seq<Note>, i: int, lastTime: real): seq<Tone>
    requires 0 <= i <= |ns| && ValidKeys(ns)
    decreases |ns| - i
  {
    if i == |ns| then [Tone(0.0, 0.0)]
    else if Ignored(ns, i) then ConvertFrom(ns, i + 1, lastTime)
    else Emitted(ns[i], lastTime) + ConvertFrom(ns, i + 1, ns[i].time + ns[i].duration)
  }

  /**
   * The main loop of `convertMidi` over the merged notes: each note that no
   * higher key outvoices is emitted, after a silence when it starts after
   * the previous kept note ended; the list ends with [0, 0].
   */
  method Flatten(ns: seq<Note>) returns (notes: seq<Tone>)
    requires ValidKeys(ns)
    ensures notes == ConvertFrom(ns, 0, 0.0)
  {
    var lastTime := 0.0;
    notes := [];
    for i := 0 to |ns|
      invariant notes + ConvertFrom(ns, i, lastTime) == ConvertFrom(ns, 0, 0.0)
    {
      var back := ScanBack(ns, i);
      var on := ScanOn(ns, i);
      if !(back || on) {
        var emitted := Emitted(ns[i], lastTime);
        var rest := ConvertFrom(ns, i + 1, ns[i].time + ns[i].duration);
        assert ConvertFrom(ns, i, lastTime) == emitted + rest;
        assert notes + (emitted + rest) == (notes + emitted) + rest;
        notes := notes + emitted;
        lastTime := ns[i].time + ns[i].duration;
      }
    }
    assert ConvertFrom(ns, |ns|, lastTime) == [Tone(0.0, 0.0)];
    notes := notes + [Tone(0.0, 0.0)];
  }

  /** Every key number in every track is a MIDI key. */
  predicate TracksValidKeys(tracks: seq<seq<Note>>)
  {
    forall t :: 0 <= t < |tracks| ==> ValidKeys(tracks[t])
  }

  /**
   * `convertMidi(midiData)`: the tracks are merged, and the single track
   * left is flattened into the [frequency, duration] list that the
   * converter writes out. A file without tracks has no track 0, which the
   * converter does not handle.
   */
  method ConvertMidi(d: MidiData) returns (notes: seq<Tone>, ghost origin: seq<(int, int)>)
    requires |d.tracks| >= 1 && TracksValidKeys(d.tracks)
    modifies d`tracks
    ensures |d.tracks| >= 1 && ValidKeys(d.tracks[0])
    ensures |old(d.tracks)| == 1 ==> d.tracks == old(d.tracks)
    ensures |old(d.tracks)| > 1 ==> |d.tracks| == 1 && IsMerge(old(d.tracks), d.tracks[0], origin)
    ensures notes == ConvertFrom(d.tracks[0], 0, 0.0)
  {
    origin := MergeTracks(d);
    assert ValidKeys(d.tracks[0]);
    notes := Flatten(d.tracks[0]);
  }

  /** The list always ends with the terminator [0, 0]. */
  lemma {:induction false} ConvertEndsWithStop(ns: seq<Note>, i: int, lastTime: real)
    requires 0 <= i <= |ns| && ValidKeys(ns)
    ensures var out := ConvertFrom(ns, i, lastTime); |out| > 0 && out[|out| - 1] == Tone(0.0, 0.0)
    decreases |ns| - i
  {
    if i < |ns| {
      if Ignored(ns, i) {
        ConvertEndsWithStop(ns, i + 1, lastTime);
      } else {
        var end := ns[i].time + ns[i].duration;
        ConvertEndsWithStop(ns, i + 1, end);
        var e := Emitted(ns[i], lastTime);
        var rest := ConvertFrom(ns, i + 1, end);
        assert ConvertFrom(ns, i, lastTime) == e + rest;
        assert (e + rest)[|e + rest| - 1] == rest[|rest| - 1];
      }
    }
  }

  /** Apart from the last entry, every silence of the list has a positive duration. */
  predicate GapsPositive(out: seq<Tone>)
  {
    forall k :: 0 <= k < |out| - 1 && out[k].frequency == 0.0 ==> out[k].duration > 0.0
  }

  /** A kept note's entries: a silence only for a real gap, and a tone that is not a silence. */
  lemma EmittedEntries(n: Note, lastTime: real)
    requires 0 <= n.midi < 128
    ensures var e := Emitted(n, lastTime); |e| > 0 && e[|e| - 1].frequency > 0.0
    ensures var e := Emitted(n, lastTime); forall k :: 0 <= k < |e| - 1 ==> e[k].frequency == 0.0 && e[k].duration > 0.0
  {
  }

  /** Only the terminator is a silence of length zero: every other silence fills a real gap. */
  lemma {:induction false} SilencesArePositive(ns: seq<Note>, i: int, lastTime: real)
    requires 0 <= i <= |ns| && ValidKeys(ns)
    ensures GapsPositive(ConvertFrom(ns, i, lastTime))
    decreases |ns| - i
  {
    if i < |ns| {
      if Ignored(ns, i) {
        SilencesArePositive(ns, i + 1, lastTime);
      } else {
        var end := ns[i].time + ns[i].duration;
        SilencesArePositive(ns, i + 1, end);
        var emitted := Emitted(ns[i], lastTime);
        var rest := ConvertFrom(ns, i + 1, end);
        EmittedEntries(ns[i], lastTime);
        var out := emitted + rest;
        forall k | 0 <= k < |out| - 1 && out[k].frequency == 0.0
          ensures out[k].duration > 0.0
        {
          if k >= |emitted| {
            assert out[k] == rest[k - |emitted|];
          }
        }
      }
    }
  }

  /** The tones of the list, silences left out. */
  function Voiced(out: seq<Tone>): seq<Tone>
  {
    if out == [] then [] else (if out[0].frequency != 0.0 then [out[0]] else []) + Voiced(out[1..])
  }

  lemma {:induction false} VoicedAppend(a: seq<Tone>, b: seq<Tone>)
    ensures Voiced(a + b) == Voiced(a) + Voiced(b)
  {
    if a != [] {
      assert (a + b)[0] == a[0];
      assert (a + b)[1..] == a[1..] + b;
      VoicedAppend(a[1..], b);
    } else {
      assert a + b == b;
    }
  }

  /** What a kept note contributes once silences are left out: its tone alone. */
  lemma VoicedEmitted(n: Note, lastTime: real)
    requires 0 <= n.midi < 128
    ensures Voiced(Emitted(n, lastTime)) == [Tone(KeyFrequency(n.midi), n.duration)]
  {
    var tone := [Tone(KeyFrequency(n.midi), n.duration)];
    assert Voiced(tone) == tone + Voiced([]);
    if n.time > lastTime {
      var gap := [Tone(0.0, n.time - lastTime)];
      VoicedAppend(gap, tone);
      assert Voiced(gap) == [] + Voiced([]);
    }
  }

  /** The notes from i on that are kept, as the tones they become. */
  ghost function Sounds(ns: seq<Note>, i: int): seq<Tone>
    requires 0 <= i <= |ns| && ValidKeys(ns)
    decreases |ns| - i
  {
    if i == |ns| then []
    else (if Ignored(ns, i) then [] else [Tone(KeyFrequency(ns[i].midi), ns[i].duration)]) + Sounds(ns, i + 1)
  }

  /** One kept note: its tone, then what the notes after it give. */
  lemma VoicedKeptStep(ns: seq<Note>, i: int, lastTime: real)
    requires 0 <= i < |ns| && ValidKeys(ns) && !Ignored(ns, i)
    ensures Voiced(ConvertFrom(ns, i, lastTime)) ==
            [Tone(KeyFrequency(ns[i].midi), ns[i].duration)] + Voiced(ConvertFrom(ns, i + 1, ns[i].time + ns[i].duration))
  {
    var rest := ConvertFrom(ns, i + 1, ns[i].time + ns[i].duration);
    assert ConvertFrom(ns, i, lastTime) == Emitted(ns[i], lastTime) + rest;
    VoicedAppend(Emitted(ns[i], lastTime), rest);
    VoicedEmitted(ns[i], lastTime);
  }

  /** The terminator [0, 0] is a silence. */
  lemma VoicedStop(ns: seq<Note>, lastTime: real)
    requires ValidKeys(ns)
    ensures Voiced(ConvertFrom(ns, |ns|, lastTime)) == []
  {
    var stop := [Tone(0.0, 0.0)];
    assert stop[1..] == [];
    assert Voiced(stop) == [];
  }

  /** Note i, kept or not, contributes to both sides what `Sounds` gives it, ahead of the notes after it. */
  lemma VoicedStep(ns: seq<Note>, i: int, lastTime: real, next: real)
    requires 0 <= i < |ns| && ValidKeys(ns)
    requires next == if Ignored(ns, i) then lastTime else ns[i].time + ns[i].duration
    requires Voiced(ConvertFrom(ns, i + 1, next)) == Sounds(ns, i + 1)
    ensures Voiced(ConvertFrom(ns, i, lastTime)) == Sounds(ns, i)
  {
    if Ignored(ns, i) {
      assert ConvertFrom(ns, i, lastTime) == ConvertFrom(ns, i + 1, lastTime);
      assert Sounds(ns, i) == [] + Sounds(ns, i + 1);
    } else {
      VoicedKeptStep(ns, i, lastTime);
      assert Sounds(ns, i) == [Tone(KeyFrequency(ns[i].midi), ns[i].duration)] + Sounds(ns, i + 1);
    }
  }

  /**
   * Leaving out the silences, the list is exactly the kept notes in their
   * order, each at its key's frequency and for its duration: the silences
   * only ever fill gaps.
   */
  lemma {:induction false} VoicedAreKeptNotes(ns: seq<Note>, i: int, lastTime: real)
    requires 0 <= i <= |ns| && ValidKeys(ns)
    ensures Voiced(ConvertFrom(ns, i, lastTime)) == Sounds(ns, i)
    decreases |ns| - i
  {
    if i == |ns| {
      VoicedStop(ns, lastTime);
    } else {
      var next := if Ignored(ns, i) then lastTime else ns[i].time + ns[i].duration;
      VoicedAreKeptNotes(ns, i + 1, next);
      VoicedStep(ns, i, lastTime, next);
    }
  }

  /**
   * On notes sorted by start tick the two scans say simply: a note is
   * dropped exactly when another note starting on the same tick has a
   * higher key.
   */
  lemma IgnoredWhenSorted(ns: seq<Note>, i: int)
    requires SortedByTicks(ns) && 0 <= i < |ns|
    ensures Ignored(ns, i) <==> exists j :: 0 <= j < |ns| && j != i && ns[j].ticks == ns[i].ticks && ns[j].midi > ns[i].midi
  {
    if j :| 0 <= j < |ns| && j != i && ns[j].ticks == ns[i].ticks && ns[j].midi > ns[i].midi {
      if j < i {
        assert NoneStartEarlier(ns, j, i);
      } else {
        assert NoneStartLater(ns, i, j);
      }
    }
    if OutvoicedBefore(ns, i) {
      var j :| 0 <= j < i && ns[j].midi > ns[i].midi && NoneStartEarlier(ns, j, i);
      assert ns[j].ticks == ns[i].ticks;
    }
    if OutvoicedAfter(ns, i) {
      var j :| i < j < |ns| && ns[j].midi > ns[i].midi && NoneStartLater(ns, i, j);
      assert ns[j].ticks == ns[i].ticks;
    }
  }
}
