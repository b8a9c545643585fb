/**
 * The lesson-31 melody player (MelodyPlayer.h/.cpp): `Play` takes a range of
 * notes (frequencies in Hz, 0 for a pause) and a note duration, starts a
 * metronome timer that fires once per note, and plays the first note at
 * once; every metronome tick plays the next note, and once the range is
 * exhausted each tick silences the output. The note range is held as a
 * sequence; the LEDC calls that drive the buzzer are recorded in order.
 */
module MelodyPlayer {
  import opened Io

  /** `note_t` is `uint`: a 32-bit unsigned frequency, 0 meaning a pause. */
  predicate IsNote(n: int) { 0 <= n < TWO_32 }

  /** The metronome counts at 100 kHz: one tick is 10 microseconds. */
  const RESOLUTION_HZ: int := 100 * 1000

  /** Half of the 8-bit duty range, `(1 << LEDC_TIMER_8_BIT) / 2`: a square wave. */
  const HALF_DUTY: int := 128

  /** One call into the LEDC driver on the buzzer's timer and channel. */
  datatype LedcCall = SetFreq(hz: int) | SetDuty(duty: int) | UpdateDuty | StopOutput

  /** `play_note`'s driver calls: a note sets its frequency and a half duty; a pause sets duty 0. */
  function NoteCalls(note: int): seq<LedcCall> {
    if note != 0 then [SetFreq(note), SetDuty(HALF_DUTY), UpdateDuty]
    else [SetDuty(0), UpdateDuty]
  }

  /** The driver calls of the notes `m[lo..hi]`, played one after another in index order. */
  function Played(m: seq<int>, lo: int, hi: int): seq<LedcCall>
    requires 0 <= lo <= hi <= |m|
    decreases hi - lo
  {
    if lo == hi then [] else Played(m, lo, hi - 1) + NoteCalls(m[hi - 1])
  }

  /** The alarm count for a note duration in ms, computed in 32-bit unsigned arithmetic. */
  function AlarmCount(noteDuration: int): int {
    Wrap32(noteDuration * RESOLUTION_HZ) / 1000
  }

  /** The player as a value: the note range, the progress, whether the metronome runs, and the driver calls so far. */
  datatype Player = Player(melody: seq<int>, progress: int, running: bool, calls: seq<LedcCall>)

  /** `on_metronome_tick` on a held player. */
  function Tick(p: Player): (r: Player)
    requires 0 <= p.progress
    ensures p.progress <= r.progress <= p.progress + 1
  {
    if p.progress < |p.melody| then
      p.(progress := p.progress + 1, calls := p.calls + NoteCalls(p.melody[p.progress]))
    else
      p.(calls := p.calls + [StopOutput])
  }

  /** `k` metronome ticks. */
  function Ticks(p: Player, k: nat): (r: Player)
    requires 0 <= p.progress
    ensures p.progress <= r.progress <= p.progress + k
    decreases k
  {
    if k == 0 then p else Tick(Ticks(p, k - 1))
  }

  class MelodyPlayer {
    /** The range `m_begin`..`m_end`. */
    var melody: seq<int>
    /** `m_progress` */
    var progress: int
    /** Whether the metronome timer is started. */
    var running: bool
    /** The metronome's alarm count. */
    var alarmCount: int
    /** Every LEDC call, in order. */
    var calls: seq<LedcCall>

    function Snapshot(): Player
      reads this
    {
      Player(melody, progress, running, calls)
    }

    ghost predicate Valid()
      reads this
    {
      0 <= progress <= |melody|
    }

    /** A fresh player: an empty range, no progress, the metronome stopped. */
    constructor ()
      ensures Valid() && Snapshot() == Player([], 0, false, [])
      ensures !IsPlaying()
    {
      melody := [];
      progress := 0;
      running := false;
      alarmCount := 0;
      calls := [];
    }

    /** `Progress` */
    function Progress(): int
      reads this
    {
      progress
    }

    /** `IsPlaying` */
    predicate IsPlaying()
      reads this
    {
      progress < |melody|
    }

    /** `Play`: the range must hold at least one note, which is played at once. */
    method Play(notes: seq<int>, noteDuration: int)
      requires |notes| > 0
      requires forall i :: 0 <= i < |notes| ==> IsNote(notes[i])
      requires 0 <= noteDuration < TWO_32
      modifies this
      ensures Valid()
      ensures melody == notes && progress == 1 && running
      ensures alarmCount == AlarmCount(noteDuration)
      ensures calls == old(calls) + Played(notes, 0, 1)
    {
      melody := notes;
      progress := 0;
      alarmCount := Wrap32(noteDuration * RESOLUTION_HZ) / 1000;
      running := true;
      PlayNote(melody[progress]);
    }

    /** `Stop`: the metronome stops and the output is silenced; the progress stays. */
    method Stop()
      modifies this
      ensures !running && calls == old(calls) + [StopOutput]
      ensures melody == old(melody) && progress == old(progress) && alarmCount == old(alarmCount)
    {
      running := false;
      calls := calls + [StopOutput];
    }

    /** `play_note` */
    method PlayNote(note: int)
      modifies this
      ensures progress == old(progress) + 1
      ensures calls == old(calls) + NoteCalls(note)
      ensures melody == old(melody) && running == old(running) && alarmCount == old(alarmCount)
    {
      if note != 0 {
        calls := calls + [SetFreq(note), SetDuty(HALF_DUTY), UpdateDuty];
      } else {
        calls := calls + [SetDuty(0), UpdateDuty];
      }
      progress := progress + 1;
    }

    /** `on_metronome_tick`; returns false (no task to wake). */
    method OnMetronomeTick() returns (wake: bool)
      requires Valid()
      modifies this
      ensures Valid() && !wake
      ensures Snapshot() == Tick(old(Snapshot()))
      ensures alarmCount == old(alarmCount)
    {
      if progress < |melody| {
        PlayNote(melody[progress]);
      } else {
        calls := calls + [StopOutput];
      }
      wake := false;
    }
  }

  // ----- Lemmas -----

  /** A note sets the frequency to itself and the duty to half; a pause sets duty 0 and leaves the frequency alone. */
  lemma NoteCallsCases(note: int)
    ensures note != 0 ==> SetFreq(note) in NoteCalls(note) && SetDuty(HALF_DUTY) in NoteCalls(note)
    ensures note == 0 ==> SetDuty(0) in NoteCalls(note) && forall c :: c in NoteCalls(note) ==> !c.SetFreq?
    ensures NoteCalls(note)[|NoteCalls(note)| - 1] == UpdateDuty
  {
  }

  /** The notes of a range are those of its two halves, one after the other. */
  lemma {:induction false} PlayedSplit(m: seq<int>, lo: int, mid: int, hi: int)
    requires 0 <= lo <= mid <= hi <= |m|
    ensures Played(m, lo, hi) == Played(m, lo, mid) + Played(m, mid, hi)
    decreases hi - mid
  {
    if mid < hi {
      PlayedSplit(m, lo, mid, hi - 1);
      ConcatAssoc(Played(m, lo, mid), Played(m, mid, hi - 1), NoteCalls(m[hi - 1]));
    }
  }

  /**
   * From progress `p`, `k` ticks that stay within the melody play notes
   * p..p+k-1, in index order, each once, and move the progress to p + k.
   */
  lemma {:induction false} PlaysInOrder(s: Player, k: nat)
    requires 0 <= s.progress && s.progress + k <= |s.melody|
    ensures Ticks(s, k).progress == s.progress + k
    ensures Ticks(s, k).calls == s.calls + Played(s.melody, s.progress, s.progress + k)
    ensures Ticks(s, k).melody == s.melody && Ticks(s, k).running == s.running
    decreases k
  {
    if k > 0 {
      PlaysInOrder(s, k - 1);
      var t := Ticks(s, k - 1);
      TickPlaysNext(t);
      ConcatAssoc(s.calls, Played(s.melody, s.progress, s.progress + k - 1), NoteCalls(s.melody[s.progress + k - 1]));
    }
  }

  /** A tick within the melody plays the note at the progress and moves on by one. */
  lemma TickPlaysNext(t: Player)
    requires 0 <= t.progress < |t.melody|
    ensures Tick(t) == t.(progress := t.progress + 1, calls := t.calls + NoteCalls(t.melody[t.progress]))
  {
  }

  /** Once every note has played, each tick only silences the output and the progress stays at the length. */
  lemma {:induction false} SilentAfterTheEnd(s: Player, k: nat)
    requires s.progress == |s.melody|
    ensures Ticks(s, k).progress == |s.melody| && Ticks(s, k).melody == s.melody
    ensures Ticks(s, k).calls == s.calls + seq(k, _ => StopOutput)
    decreases k
  {
    if k > 0 {
      SilentAfterTheEnd(s, k - 1);
      assert seq(k, _ => StopOutput) == seq(k - 1, _ => StopOutput) + [StopOutput];
    }
  }

  /**
   * After `Play` of n notes and `k` ticks, the player is still playing
   * exactly while k + 1 < n, the progress never passes n, and the whole
   * melody has been played once in order when it stops.
   */
  lemma PlayingUntilTheLastTick(notes: seq<int>, calls: seq<LedcCall>, k: nat)
    requires |notes| > 0
    ensures var s := Ticks(Player(notes, 1, true, calls + Played(notes, 0, 1)), k);
      && s.progress <= |notes|
      && (s.progress < |notes| <==> k + 1 < |notes|)
      && (k + 1 == |notes| ==> s.calls == calls + Played(notes, 0, |notes|))
  {
    var s0 := Player(notes, 1, true, calls + Played(notes, 0, 1));
    if k + 1 <= |notes| {
      PlaysInOrder(s0, k);
      if k + 1 == |notes| {
        PlayedSplit(notes, 0, 1, |notes|);
        ConcatAssoc(calls, Played(notes, 0, 1), Played(notes, 1, |notes|));
      }
    } else {
      var m := |notes| - 1;
      PlaysInOrder(s0, m);
      TicksAppend(s0, m, k - m);
      SilentAfterTheEnd(Ticks(s0, m), k - m);
    }
  }

  /** Concatenation of driver calls is associative. */
  lemma ConcatAssoc(a: seq<LedcCall>, b: seq<LedcCall>, c: seq<LedcCall>)
    ensures (a + b) + c == a + (b + c)
  {
  }

  /** Ticks compose. */
  lemma {:induction false} TicksAppend(s: Player, a: nat, b: nat)
    requires 0 <= s.progress
    ensures Ticks(s, a + b) == Ticks(Ticks(s, a), b)
    decreases b
  {
    if b > 0 {
      TicksAppend(s, a, b - 1);
    }
  }

  /** For note durations under about 43 s the alarm fires every 100 counts per millisecond of duration; longer ones wrap. */
  lemma AlarmCountPerMs(noteDuration: int)
    requires 0 <= noteDuration && noteDuration * RESOLUTION_HZ < TWO_32
    ensures AlarmCount(noteDuration) == noteDuration * 100
  {
  }
}
