/**
 * The sound sequencer (lib/dosemu-sound.mjs): a player walks through a
 * sequence of (frequency, duration) notes as the game clock advances,
 * restarts it while loops remain, and the engine drops the players that
 * have finished. The Web Audio nodes are reduced to what the sequencer
 * decides about them: the oscillator's wave form and frequency, and
 * whether the player has been stopped.
 */
module Sound {

  /** The wave forms an oscillator accepts. */
  const WAVE_FORMS: seq<string> := ["sine", "square", "triangle", "sawtooth"]

  /** `sanitizeWaveForm(waveForm)`: a supported wave form is kept, anything else becomes "sine". */
  function SanitizeWaveForm(waveForm: string): (r: string)
    ensures r in WAVE_FORMS
    ensures waveForm in WAVE_FORMS ==> r == waveForm
    ensures waveForm !in WAVE_FORMS ==> r == "sine"
  {
    if waveForm in WAVE_FORMS then waveForm else "sine"
  }

  /** One entry of a sequence: the pair [frequency, duration]. */
  datatype Note = Note(freq: real, duration: real)

  /** Where a player is in its sequence: the current note and the time spent on it. */
  datatype Cursor = Cursor(index: int, time: real)

  /** What one update of a player does to its cursor, and whether it just played the last note out. */
  datatype Tick = Tick(cursor: Cursor, ended: bool)

  /**
   * `Player.update(dt)` on the cursor: the time grows by dt and, once it
   * exceeds the current note's duration, the cursor moves to the next note,
   * whose time starts at zero. Moving past the last note ends the sequence
   * (the caller then schedules `loopOrStop`), and the time keeps counting.
   */
  function Advance(sequence: seq<Note>, c: Cursor, dt: real): (r: Tick)
    requires 0 <= c.index <= |sequence|
    ensures 0 <= r.cursor.index <= |sequence|
    ensures r.cursor.index == c.index || r.cursor.index == c.index + 1
    ensures r.cursor.index == c.index + 1 <==> c.index < |sequence| && c.time + dt > sequence[c.index].duration
    ensures r.cursor.index == c.index ==> r.cursor.time == c.time + dt
    ensures r.cursor.index == c.index + 1 < |sequence| ==> r.cursor.time == 0.0
    ensures r.ended <==> r.cursor.index == c.index + 1 == |sequence|
    ensures r.ended ==> r.cursor.time == c.time + dt
  {
    var t := c.time + dt;
    if c.index < |sequence| && t > sequence[c.index].duration then
      if c.index + 1 == |sequence| then Tick(Cursor(c.index + 1, t), true)
      else Tick(Cursor(c.index + 1, 0.0), false)
    else
      Tick(Cursor(c.index, t), false)
  }

  /** The cursor after one update per element of `dts`. */
  function Play(sequence: seq<Note>, c: Cursor, dts: seq<real>): (r: Cursor)
    requires 0 <= c.index <= |sequence|
    ensures c.index <= r.index <= |sequence|
    decreases |dts|
  {
    if dts == [] then c else Play(sequence, Advance(sequence, c, dts[0]).cursor, dts[1..])
  }

  /** A time step longer than every note of the sequence. */
  predicate Outlasts(dt: real, sequence: seq<Note>)
  {
    forall n :: 0 <= n < |sequence| ==> dt > sequence[n].duration
  }

  /**
   * With time steps longer than any note, every update moves on by exactly
   * one note until the sequence is over.
   */
  lemma {:induction false} PlayNoteByNote(sequence: seq<Note>, c: Cursor, dts: seq<real>)
    requires 0 <= c.index <= |sequence| && (c.index == |sequence| || c.time >= 0.0)
    requires forall k :: 0 <= k < |dts| ==> Outlasts(dts[k], sequence)
    ensures Play(sequence, c, dts).index == if c.index + |dts| <= |sequence| then c.index + |dts| else |sequence|
    decreases |dts|
  {
    if dts != [] {
      var next := Advance(sequence, c, dts[0]).cursor;
      assert Outlasts(dts[0], sequence);
      assert forall k :: 0 <= k < |dts[1..]| ==> dts[1..][k] == dts[k + 1];
      PlayNoteByNote(sequence, next, dts[1..]);
    }
  }

  /** `reset()` on the loop counter: a positive count is used up by one; zero stays, and a negative count means forever. */
  function ResetLoops(loops: int): (r: int)
    ensures loops > 0 ==> r == loops - 1
    ensures loops <= 0 ==> r == loops
  {
    if loops > 0 then loops - 1 else loops
  }

  /** The loop counter after k resets. */
  function LoopsAfter(loops: int, k: nat): int
  {
    if k == 0 then loops else ResetLoops(LoopsAfter(loops, k - 1))
  }

  lemma {:induction false} LoopsAfterValue(loops: int, k: nat)
    ensures loops >= 0 ==> LoopsAfter(loops, k) == if k <= loops then loops - k else 0
    ensures loops < 0 ==> LoopsAfter(loops, k) == loops
  {
    if k > 0 {
      LoopsAfterValue(loops, k - 1);
    }
  }

  /**
   * How many times a sequence is played. The constructor resets once
   * before the first play and `loopOrStop` resets again after each play
   * while the counter is not zero, so play m is the last one exactly when
   * the counter is zero after m resets: a player made with loops ≥ 1 plays
   * the sequence `loops` times, with 0 once, and with a negative count it
   * never stops.
   */
  lemma PlayCount(loops: int, m: nat)
    requires m >= 1
    ensures LoopsAfter(loops, m) == 0 <==> loops >= 0 && m >= (if loops >= 1 then loops else 1)
  {
    LoopsAfterValue(loops, m);
  }

  /** The oscillator's frequency before the first note is set. */
  const DEFAULT_FREQUENCY := 440.0

  /**
   * A `Player`: its sequence, the note cursor (`crtNoteIndex`,
   * `timeInCrtNote`), the loop counter and the `finished` flag, with the
   * oscillator reduced to its wave form, its frequency and whether it has
   * been stopped.
   */
  class Player {
    const sequence: seq<Note>
    const oscillatorType: string
    var frequency: real
    var crtNoteIndex: int
    var timeInCrtNote: real
    var finished: bool
    var loopsRemaining: int
    var stopped: bool

    ghost predicate Valid()
      reads this
    {
      |sequence| > 0 && 0 <= crtNoteIndex <= |sequence|
    }

    /** The note cursor. */
    function Position(): Cursor
      reads this`crtNoteIndex, this`timeInCrtNote
    {
      Cursor(crtNoteIndex, timeInCrtNote)
    }

    /** `new Player(audioCtx, sequence, waveForm, onFinishedCallback, loops)`: the oscillator gets a sanitized wave form, then `reset()`. */
    constructor (sequence: seq<Note>, waveForm: string, loops: int)
      requires |sequence| > 0
      ensures Valid() && this.sequence == sequence && oscillatorType == SanitizeWaveForm(waveForm)
      ensures crtNoteIndex == 0 && timeInCrtNote == 0.0 && frequency == sequence[0].freq
      ensures loopsRemaining == ResetLoops(loops) && !finished && !stopped
    {
      this.sequence := sequence;
      oscillatorType := SanitizeWaveForm(waveForm);
      frequency := DEFAULT_FREQUENCY;
      crtNoteIndex := 0;
      timeInCrtNote := 0.0;
      finished := false;
      loopsRemaining := loops;
      stopped := false;
      new;
      Reset();
    }

    /** `reset()`: back to the first note with its frequency, using up one loop if the count is positive. */
    method Reset()
      requires Valid()
      modifies this`loopsRemaining, this`timeInCrtNote, this`crtNoteIndex, this`frequency
      ensures Valid()
      ensures loopsRemaining == ResetLoops(old(loopsRemaining))
      ensures crtNoteIndex == 0 && timeInCrtNote == 0.0 && frequency == sequence[0].freq
    {
      if loopsRemaining > 0 {
        loopsRemaining := loopsRemaining - 1;
      }
      timeInCrtNote := 0.0;
      crtNoteIndex := 0;
      frequency := sequence[0].freq;
    }

    /**
     * `update(dt)`. On moving to a further note the oscillator takes its
     * frequency; on moving past the last one, `ended` is true: the source
     * ramps the gain down and schedules `loopOrStop`, which is left to the
     * caller.
     */
    method Update(dt: real) returns (ended: bool)
      requires Valid()
      modifies this`timeInCrtNote, this`crtNoteIndex, this`frequency
      ensures Valid()
      ensures Tick(Position(), ended) == Advance(sequence, old(Position()), dt)
      ensures crtNoteIndex != old(crtNoteIndex) && crtNoteIndex < |sequence| ==> frequency == sequence[crtNoteIndex].freq
      ensures crtNoteIndex == old(crtNoteIndex) || crtNoteIndex == |sequence| ==> frequency == old(frequency)
    {
      timeInCrtNote := timeInCrtNote + dt;
      ended := false;
      if crtNoteIndex < |sequence| && timeInCrtNote > sequence[crtNoteIndex].duration {
        crtNoteIndex := crtNoteIndex + 1;
        if crtNoteIndex == |sequence| {
          ended := true;
        } else {
          frequency := sequence[crtNoteIndex].freq;
          timeInCrtNote := 0.0;
        }
      }
    }

    /** `cleanUp()`: the oscillator is stopped and disconnected. */
    method CleanUp()
      modifies this`stopped
      ensures stopped
    {
      stopped := true;
    }

    /** `loopOrStop()`: while the loop counter is not zero the sequence restarts, otherwise the player stops. */
    method LoopOrStop()
      requires Valid()
      modifies this`loopsRemaining, this`timeInCrtNote, this`crtNoteIndex, this`frequency, this`stopped
      ensures Valid()
      ensures old(loopsRemaining) != 0 ==>
        loopsRemaining == ResetLoops(old(loopsRemaining)) && crtNoteIndex == 0 && timeInCrtNote == 0.0 &&
        frequency == sequence[0].freq && stopped == old(stopped)
      ensures old(loopsRemaining) == 0 ==>
        stopped && loopsRemaining == 0 && crtNoteIndex == old(crtNoteIndex) &&
        timeInCrtNote == old(timeInCrtNote) && frequency == old(frequency)
    {
      if loopsRemaining != 0 {
        Reset();
      } else {
        CleanUp();
      }
    }
  }

  /** The players of `ps` that have not finished, in their order. */
  function Live(ps: seq<Player>): (r: seq<Player>)
    reads (set p | p in ps)`finished
    ensures |r| <= |ps|
    decreases |ps|
  {
    if ps == [] then [] else (if ps[0].finished then [] else [ps[0]]) + Live(ps[1..])
  }

  /** The players kept are exactly those of `ps` that have not finished. */
  lemma {:induction false} LiveMembers(ps: seq<Player>)
    ensures forall k :: 0 <= k < |Live(ps)| ==> Live(ps)[k] in ps && !Live(ps)[k].finished
    ensures forall k :: 0 <= k < |ps| && !ps[k].finished ==> ps[k] in Live(ps)
    decreases |ps|
  {
    if ps != [] {
      LiveMembers(ps[1..]);
      var head := if ps[0].finished then [] else [ps[0]];
      assert Live(ps) == head + Live(ps[1..]);
      assert forall k :: 1 <= k < |ps| ==> ps[k] == ps[1..][k - 1];
    }
  }

  /** Dropping the finished players keeps the order of the rest: filtering a concatenation filters each part. */
  lemma {:induction false} LiveAppend(a: seq<Player>, b: seq<Player>)
    ensures Live(a + b) == Live(a) + Live(b)
    decreases |a|
  {
    if a != [] {
      assert (a + b)[0] == a[0] && (a + b)[1..] == a[1..] + b;
      LiveAppend(a[1..], b);
    } else {
      assert a + b == b;
    }
  }

  lemma LiveSnoc(ps: seq<Player>, p: Player)
    ensures Live(ps + [p]) == Live(ps) + (if p.finished then [] else [p])
  {
    LiveAppend(ps, [p]);
    assert [p][1..] == [];
  }

  /**
   * One turn of the update loop on the list: with the first j players of
   * `orig` already filtered into `ps[..i]`, player j is kept or spliced out.
   */
  lemma SpliceStep(ps: seq<Player>, i: int, orig: seq<Player>, j: int)
    requires 0 <= j < |orig| && 0 <= i <= |ps|
    requires ps[..i] == Live(orig[..j]) && ps[i..] == orig[j..]
    ensures i < |ps| && ps[i] == orig[j]
    ensures orig[j].finished ==> (ps[..i] + ps[i + 1..])[..i] == Live(orig[..j + 1]) && (ps[..i] + ps[i + 1..])[i..] == orig[j + 1..]
    ensures !orig[j].finished ==> ps[..i + 1] == Live(orig[..j + 1]) && ps[i + 1..] == orig[j + 1..]
  {
    var p := orig[j];
    assert ps[i] == ps[i..][0] == p;
    assert ps[i + 1..] == ps[i..][1..] == orig[j + 1..];
    assert orig[..j + 1] == orig[..j] + [p];
    LiveSnoc(orig[..j], p);
    if p.finished {
      assert (ps[..i] + ps[i + 1..])[..i] == ps[..i];
      assert (ps[..i] + ps[i + 1..])[i..] == ps[i + 1..];
    } else {
      assert ps[..i + 1] == ps[..i] + [p];
    }
  }

  /** Where each player of `ps` is in its sequence. */
  ghost function Positions(ps: seq<Player>): (r: seq<Cursor>)
    reads (set p | p in ps)`crtNoteIndex, (set p | p in ps)`timeInCrtNote
    ensures |r| == |ps| && forall k :: 0 <= k < |ps| ==> r[k] == ps[k].Position()
    decreases |ps|
  {
    if ps == [] then [] else [ps[0].Position()] + Positions(ps[1..])
  }

  /** When no player has finished, none is dropped. */
  lemma {:induction false} LiveKeepsAll(ps: seq<Player>)
    requires forall k :: 0 <= k < |ps| ==> !ps[k].finished
    ensures Live(ps) == ps
    decreases |ps|
  {
    if ps != [] {
      LiveKeepsAll(ps[1..]);
    }
  }

  /** Filtering a list without repetitions gives a list without repetitions. */
  lemma {:induction false} LiveDistinct(ps: seq<Player>)
    requires forall i, j :: 0 <= i < j < |ps| ==> ps[i] != ps[j]
    ensures forall i, j :: 0 <= i < j < |Live(ps)| ==> Live(ps)[i] != Live(ps)[j]
    decreases |ps|
  {
    if ps != [] {
      LiveDistinct(ps[1..]);
      LiveMembers(ps[1..]);
      assert ps[0] !in ps[1..];
      assert ps[0] !in Live(ps[1..]);
    }
  }

  /** The oscillator's frequencies of the players of `ps`. */
  ghost function Frequencies(ps: seq<Player>): (r: seq<real>)
    reads (set p | p in ps)`frequency
    ensures |r| == |ps| && forall k :: 0 <= k < |ps| ==> r[k] == ps[k].frequency
    decreases |ps|
  {
    if ps == [] then [] else [ps[0].frequency] + Frequencies(ps[1..])
  }

  /**
   * The frequency of a player whose cursor was at note `from` with
   * frequency `f0`: the note it moved on to inside the sequence, or `f0`
   * when it stayed on its note or ran past the last one.
   */
  ghost predicate FrequencyAfter(p: Player, from: int, f0: real)
    reads p
  {
    (p.crtNoteIndex != from && p.crtNoteIndex < |p.sequence| ==> 0 <= p.crtNoteIndex && p.frequency == p.sequence[p.crtNoteIndex].freq) &&
    (p.crtNoteIndex == from || p.crtNoteIndex == |p.sequence| ==> p.frequency == f0)
  }

  /** No player appears twice, and each is valid. */
  ghost predicate PlayersValid(ps: seq<Player>)
    reads set p | p in ps
  {
    (forall i, j :: 0 <= i < j < |ps| ==> ps[i] != ps[j]) && forall p | p in ps :: p.Valid()
  }

  /** The module's `data.players`: the sequences being played. */
  class SoundEngine {
    var players: seq<Player>

    ghost predicate Valid()
      reads this, set p | p in players
    {
      PlayersValid(players)
    }

    constructor ()
      ensures Valid() && players == []
    {
      players := [];
    }

    /** `sound(seq, onFinishedCallback, waveForm)`: a new player for one play of the sequence. */
    method Sound(sequence: seq<Note>, waveForm: string)
      requires Valid() && |sequence| > 0
      modifies this
      ensures Valid()
      ensures |players| == |old(players)| + 1 && players[..|old(players)|] == old(players)
      ensures fresh(players[|old(players)|])
      ensures players[|old(players)|].sequence == sequence && players[|old(players)|].oscillatorType == SanitizeWaveForm(waveForm)
      ensures players[|old(players)|].loopsRemaining == 0 && !players[|old(players)|].finished
    {
      var p := new Player(sequence, waveForm, 1);
      players := players + [p];
    }

    /** `loop(seq, times, onFinishedCallback, waveForm)`: a new player that repeats the sequence (forever if `times` is negative). */
    method Loop(sequence: seq<Note>, times: int, waveForm: string)
      requires Valid() && |sequence| > 0
      modifies this
      ensures Valid()
      ensures |players| == |old(players)| + 1 && players[..|old(players)|] == old(players)
      ensures fresh(players[|old(players)|])
      ensures players[|old(players)|].sequence == sequence && players[|old(players)|].oscillatorType == SanitizeWaveForm(waveForm)
      ensures players[|old(players)|].loopsRemaining == ResetLoops(times) && !players[|old(players)|].finished
    {
      var p := new Player(sequence, waveForm, times);
      players := players + [p];
    }

    /**
     * Where the module's update loop stands after the first j players of
     * `orig`: those have been updated once from their `start` positions and
     * filtered into `players[..i]`, and the rest are untouched.
     */
    ghost predicate Progress(orig: seq<Player>, start: seq<Cursor>, j: int, i: int, dt: real)
      reads this, set p | p in orig
    {
      |start| == |orig| && 0 <= j <= |orig| && 0 <= i <= |players| &&
      players[..i] == Live(orig[..j]) && players[i..] == orig[j..] &&
      (forall a, b :: 0 <= a < b < |orig| ==> orig[a] != orig[b]) &&
      Advanced(orig, start, j, dt)
    }

    /** The cursors along the update loop: the first j players of `orig` have advanced from their `start` positions, the rest are still there. */
    ghost predicate Advanced(orig: seq<Player>, start: seq<Cursor>, j: int, dt: real)
      reads set p | p in orig
    {
      |start| == |orig| && 0 <= j <= |orig| &&
      (forall k :: 0 <= k < |orig| ==> orig[k].Valid() && 0 <= start[k].index <= |orig[k].sequence|) &&
      (forall k :: 0 <= k < j ==> orig[k].Position() == Advance(orig[k].sequence, start[k], dt).cursor) &&
      (forall k :: j <= k < |orig| ==> orig[k].Position() == start[k])
    }

    /**
     * The frequencies along the update loop: the first j players of `orig`
     * have the frequency their move from the note `start[k].index` gives
     * (`FrequencyAfter`), and the rest still have their `freqs`.
     */
    ghost predicate Tuning(orig: seq<Player>, start: seq<Cursor>, freqs: seq<real>, j: int)
      reads set p | p in orig
    {
      |start| == |orig| && |freqs| == |orig| && 0 <= j <= |orig| &&
      (forall k :: 0 <= k < j ==> FrequencyAfter(orig[k], start[k].index, freqs[k])) &&
      (forall k :: j <= k < |orig| ==> orig[k].frequency == freqs[k])
    }

    lemma StartProgress(orig: seq<Player>, start: seq<Cursor>, dt: real)
      requires Valid() && orig == players && start == Positions(orig)
      ensures Progress(orig, start, 0, 0, dt)
    {
      assert orig[..0] == [];
    }

    lemma EndProgress(orig: seq<Player>, start: seq<Cursor>, j: int, i: int, dt: real)
      requires Progress(orig, start, j, i, dt) && i == |players|
      ensures Valid() && players == Live(orig)
      ensures (forall k :: 0 <= k < |orig| ==> !orig[k].finished) ==> players == orig
      ensures forall k :: 0 <= k < |orig| ==> orig[k].Position() == Advance(orig[k].sequence, start[k], dt).cursor
      ensures j == |orig|
    {
      assert orig[..j] == orig;
      assert players == players[..i];
      LiveDistinct(orig);
      LiveMembers(orig);
      if forall k :: 0 <= k < |orig| ==> !orig[k].finished {
        LiveKeepsAll(orig);
      }
    }

    /** The update of player i, the j-th of `orig`: its cursor advances and its frequency follows, and no other player changes. */
    method TunePlayer(i: int, dt: real, ghost orig: seq<Player>, ghost start: seq<Cursor>, ghost freqs: seq<real>, ghost j: int)
      requires Advanced(orig, start, j, dt) && Tuning(orig, start, freqs, j) && j < |orig| && 0 <= i < |players| && players[i] == orig[j]
      requires forall a, b :: 0 <= a < b < |orig| ==> orig[a] != orig[b]
      modifies {orig[j]}`timeInCrtNote, {orig[j]}`crtNoteIndex, {orig[j]}`frequency
      ensures Advanced(orig, start, j + 1, dt) && Tuning(orig, start, freqs, j + 1)
    {
      var _ := players[i].Update(dt);
    }

    /**
     * One turn of the module's update loop: player i, the j-th of the
     * original list, is updated, and spliced out if it has finished.
     */
    method UpdatePlayer(i: int, dt: real, ghost orig: seq<Player>, ghost start: seq<Cursor>, ghost freqs: seq<real>, ghost j: int) returns (next: int)
      requires Progress(orig, start, j, i, dt) && Tuning(orig, start, freqs, j) && j < |orig|
      modifies this`players, {orig[j]}`timeInCrtNote, {orig[j]}`crtNoteIndex, {orig[j]}`frequency
      ensures Progress(orig, start, j + 1, next, dt) && Tuning(orig, start, freqs, j + 1)
    {
      assert players[i] == players[i..][0];
      TunePlayer(i, dt, orig, start, freqs, j);
      next := SplicePlayer(i, orig, j);
    }

    /** Player i, the j-th of `orig`, stays in the list unless it has finished. */
    method SplicePlayer(i: int, ghost orig: seq<Player>, ghost j: int) returns (next: int)
      requires 0 <= j < |orig| && 0 <= i <= |players|
      requires players[..i] == Live(orig[..j]) && players[i..] == orig[j..]
      modifies this`players
      ensures 0 <= next <= |players| && players[..next] == Live(orig[..j + 1]) && players[next..] == orig[j + 1..]
    {
      SpliceStep(players, i, orig, j);
      if players[i].finished {
        players := players[..i] + players[i + 1..];
        next := i;
      } else {
        next := i + 1;
      }
    }

    /**
     * The module's `update(dt)`: every player is updated once, in order,
     * and the finished ones are spliced out of the list.
     */
    method Update(dt: real)
      requires Valid()
      modifies this, (set p | p in players)`timeInCrtNote, (set p | p in players)`crtNoteIndex, (set p | p in players)`frequency
      ensures Valid()
      ensures players == Live(old(players))
      ensures (forall k :: 0 <= k < |old(players)| ==> !old(players)[k].finished) ==> players == old(players)
      ensures forall p | p in old(players) :: p.Position() == Advance(p.sequence, old(p.Position()), dt).cursor
      ensures forall k :: 0 <= k < |old(players)| ==> FrequencyAfter(old(players[k]), old(players[k].crtNoteIndex), old(players[k].frequency))
    {
      ghost var orig := players;
      ghost var start := Positions(orig);
      ghost var freqs := Frequencies(orig);
      StartProgress(orig, start, dt);
      ghost var j := 0;
      var i := 0;
      while i < |players|
        invariant Progress(orig, start, j, i, dt) && Tuning(orig, start, freqs, j)
        decreases |orig| - j
      {
        i := UpdatePlayer(i, dt, orig, start, freqs, j);
        j := j + 1;
      }
      EndProgress(orig, start, j, i, dt);
    }
  }
}
