/**
 * The lesson-22 interrupt handlers (handler_base.cpp with state_based.cpp,
 * time_based.cpp and no_debounce.cpp): a common handler keeps the debounce
 * stamps, runs one of three counting strategies, and records each sample in a
 * 100-entry buffer that `LogSamples` prints and empties.
 *
 * The three subclasses become one class with a `strategy` constant; the
 * virtual `HandlerImpl` dispatches on it.
 */
module HandlerBase {
  import opened Io
  import opened Debounce

  /** Which `HandlerImpl` runs. */
  datatype Strategy = StateBased | TimeBased | NoDebounce

  /** The edges the interrupt fires on. */
  datatype Edge = AnyEdge | NegEdge

  const BUFFER_SIZE: nat := 100

  /** `DEBOUNCE_GUARD_TIME_US`: 50 000 us, that is 50 ms. */
  const DEBOUNCE_GUARD_TIME_US: int := 50 * 1000

  /** One recorded sample: core, sample time, depress, release, level, counter. */
  datatype Sample = Sample(core: int, sampleTime: int, depressTime: int, releaseTime: int, level: int, counter: int)

  const EMPTY_SAMPLE: Sample := Sample(0, 0, 0, 0, 0, 0)

  /** One line `LogSamples` prints; `sinceLast` is the time since the previous sample (0 for the first). */
  datatype LogLine = LogLine(core: int, sampleTime: int, level: int, sinceLast: int,
                             depressTime: int, releaseTime: int, counter: int)

  function TagOf(s: Strategy): string {
    match s
    case StateBased => "StateBased"
    case TimeBased => "TimeBased"
    case NoDebounce => "NoDebounce"
  }

  /** `Init(int_type)` of each subclass. */
  function EdgeOf(s: Strategy): Edge {
    if s == StateBased then AnyEdge else NegEdge
  }

  /** Whether `HandlerImpl` counts this interrupt, given the updated stamps and the previous interrupt's time. */
  predicate Counts(strategy: Strategy, post: Stamps, lastInterTime: int) {
    match strategy
    case StateBased => GuardedPress(post)
    case TimeBased => post.sampleTime > lastInterTime + DEBOUNCE_GUARD_TIME_US
    case NoDebounce => true
  }

  /** Line i of the printout of the first n samples. */
  function LineOf(buf: seq<Sample>, i: nat): LogLine
    requires i < |buf|
  {
    var r := buf[if i > 0 then i - 1 else 0];
    var s := buf[i];
    LogLine(s.core, s.sampleTime, s.level, s.sampleTime - r.sampleTime, s.depressTime, s.releaseTime, s.counter)
  }

  function LogLines(buf: seq<Sample>, n: nat): (r: seq<LogLine>)
    requires n <= |buf|
    ensures |r| == n
  {
    seq(n, i requires 0 <= i < n => LineOf(buf, i))
  }

  class Handler {
    const strategy: Strategy
    const tag: string
    var counter: int
    var sampleTime: int
    var depressTime: int
    var releaseTime: int
    var level: int
    /** `m_last_inter_time` of TimeBased. */
    var lastInterTime: int
    /** Where the next sample goes. */
    var index: int
    const buffer: array<Sample>
    /** The interrupt edges configured by `Init`, once it ran. */
    var edges: seq<Edge>
    /** The lines printed so far. */
    var output: seq<LogLine>

    ghost predicate Valid()
      reads this
    {
      buffer.Length == BUFFER_SIZE && 0 <= index <= BUFFER_SIZE && IsInt32(counter)
    }

    function Stamps(): Stamps
      reads this
    {
      Debounce.Stamps(level, sampleTime, depressTime, releaseTime)
    }

    /** The constructor: the tag names the strategy; atomics, the buffer and `m_last_inter_time` start at 0. */
    constructor (strategy: Strategy)
      ensures Valid() && fresh(buffer)
      ensures this.strategy == strategy && tag == TagOf(strategy)
      ensures counter == 0 && index == 0 && lastInterTime == 0 && Stamps() == Debounce.Stamps(0, 0, 0, 0)
      ensures forall i :: 0 <= i < BUFFER_SIZE ==> buffer[i] == EMPTY_SAMPLE
      ensures edges == [] && output == []
    {
      this.strategy := strategy;
      tag := TagOf(strategy);
      counter, sampleTime, depressTime, releaseTime, level := 0, 0, 0, 0, 0;
      lastInterTime := 0;
      index := 0;
      buffer := new Sample[BUFFER_SIZE](_ => EMPTY_SAMPLE);
      edges := [];
      output := [];
    }

    /** `Init`: configure the strategy's interrupt edge, stamp both times with `now`, pin released. */
    method Init(now: nat)
      requires Valid()
      modifies this
      ensures Valid()
      ensures edges == old(edges) + [EdgeOf(strategy)]
      ensures Stamps() == Initial(old(Stamps()), now)
      ensures counter == old(counter) && index == old(index) && lastInterTime == old(lastInterTime)
      ensures output == old(output)
    {
      edges := edges + [EdgeOf(strategy)];
      depressTime := now;
      releaseTime := now;
      level := 1;
    }

    /**
     * `Handler`: one interrupt at `now` on `core` reading `level`. The stamps
     * are updated, the strategy counts (the counter must not overflow), and the
     * sample is recorded while the buffer has room.
     */
    method Handler(now: nat, level: int, core: int)
      requires Valid() && IsLevel(level)
      requires Counts(strategy, Sampled(Stamps(), now, level), lastInterTime) ==> counter < INT32_MAX
      modifies this, buffer
      ensures Valid()
      ensures Stamps() == Sampled(old(Stamps()), now, level)
      ensures counter == old(counter) + (if Counts(strategy, Stamps(), old(lastInterTime)) then 1 else 0)
      ensures lastInterTime == if strategy == TimeBased then now else old(lastInterTime)
      ensures old(index) < BUFFER_SIZE ==>
        && index == old(index) + 1
        && buffer[..] == old(buffer[..])[old(index) := Sample(core, now, depressTime, releaseTime, level, counter)]
      ensures old(index) >= BUFFER_SIZE ==> index == old(index) && buffer[..] == old(buffer[..])
      ensures edges == old(edges) && output == old(output)
    {
      if this.level == level {
        if level != 0 {
          depressTime := 0;
        } else {
          releaseTime := 0;
        }
      } else {
        if level != 0 {
          releaseTime := now;
        } else {
          depressTime := now;
        }
      }
      this.level := level;
      sampleTime := now;

      HandlerImpl();

      if index < buffer.Length {
        buffer[index] := Sample(core, sampleTime, depressTime, releaseTime, this.level, counter);
        index := index + 1;
      }
    }

    /**
     * A run of interrupts, one `Handler` call per entry of `times` and `levels`:
     * the counter grows by what the strategy's count over those times says.
     */
    method HandleAll(times: seq<nat>, levels: seq<int>, core: int)
      requires Valid() && |levels| == |times|
      requires forall i :: 0 <= i < |levels| ==> IsLevel(levels[i])
      requires counter + |times| < INT32_MAX
      modifies this, buffer
      ensures Valid()
      ensures strategy == TimeBased ==> counter == old(counter) + TimeBasedCount(old(lastInterTime), times)
      ensures strategy == NoDebounce ==> counter == old(counter) + NoDebounceCount(times)
      ensures counter <= old(counter) + |times|
      ensures edges == old(edges) && output == old(output)
    {
      var i := 0;
      while i < |times|
        invariant 0 <= i <= |times| && Valid()
        invariant old(counter) <= counter <= old(counter) + i
        invariant strategy == TimeBased ==>
          counter + TimeBasedCount(lastInterTime, times[i..]) == old(counter) + TimeBasedCount(old(lastInterTime), times)
        invariant strategy == NoDebounce ==> counter == old(counter) + i
        invariant edges == old(edges) && output == old(output)
      {
        Handler(times[i], levels[i], core);
        assert times[i..][0] == times[i] && times[i..][1..] == times[i + 1..];
        i := i + 1;
      }
    }

    /** `HandlerImpl` of the three subclasses. */
    method HandlerImpl()
      requires Valid()
      requires Counts(strategy, Stamps(), lastInterTime) ==> counter < INT32_MAX
      modifies this
      ensures Valid()
      ensures counter == old(counter) + (if Counts(strategy, Stamps(), old(lastInterTime)) then 1 else 0)
      ensures lastInterTime == if strategy == TimeBased then sampleTime else old(lastInterTime)
      ensures Stamps() == old(Stamps()) && index == old(index) && edges == old(edges) && output == old(output)
    {
      match strategy
      case StateBased =>
        if level == 0 && depressTime != 0 && releaseTime != 0
          && depressTime - releaseTime > HIGH_STATE_GUARD_INTERVAL_US
        {
          counter := counter + 1;
        }
      case TimeBased =>
        if sampleTime > lastInterTime + DEBOUNCE_GUARD_TIME_US {
          counter := counter + 1;
        }
        lastInterTime := sampleTime;
      case NoDebounce =>
        counter := counter + 1;
    }

    /** `LogSamples`: print the recorded samples and empty the buffer; false, changing nothing, when it is empty. */
    method LogSamples() returns (logged: bool)
      requires Valid()
      modifies this
      ensures Valid()
      ensures logged <==> old(index) > 0
      ensures logged ==> index == 0 && output == old(output) + LogLines(buffer[..], old(index))
      ensures !logged ==> index == old(index) && output == old(output)
      ensures counter == old(counter) && Stamps() == old(Stamps()) && lastInterTime == old(lastInterTime)
      ensures edges == old(edges)
    {
      if index != 0 {
        var i := 0;
        while i < index
          invariant index == old(index) && 0 <= i <= index
          invariant counter == old(counter) && Stamps() == old(Stamps()) && lastInterTime == old(lastInterTime)
          invariant edges == old(edges)
          invariant output == old(output) + LogLines(buffer[..], i)
        {
          var r := buffer[if i > 0 then i - 1 else 0];
          var s := buffer[i];
          output := output + [LogLine(s.core, s.sampleTime, s.level, s.sampleTime - r.sampleTime,
                                      s.depressTime, s.releaseTime, s.counter)];
          assert LogLines(buffer[..], i + 1) == LogLines(buffer[..], i) + [LineOf(buffer[..], i)];
          i := i + 1;
        }
        index := 0;
        logged := true;
      } else {
        logged := false;
      }
    }
  }

  // ----- Lemmas -----

  /** The printout starts at 0 and then shows the gap between consecutive samples. */
  lemma LogLinesGaps(buf: seq<Sample>, n: nat, i: nat)
    requires n <= |buf| && i < n
    ensures LogLines(buf, n)[i].sampleTime == buf[i].sampleTime
    ensures i == 0 ==> LogLines(buf, n)[i].sinceLast == 0
    ensures i > 0 ==> LogLines(buf, n)[i].sinceLast == buf[i].sampleTime - buf[i - 1].sampleTime
  {
  }

  /** The state-based strategy counts exactly the guarded presses, which only happen on a falling edge. */
  lemma StateBasedCountsPresses(s: Stamps, now: nat, level: int, last: int)
    requires IsLevel(level)
    ensures Counts(StateBased, Sampled(s, now, level), last) <==> GuardedPress(Sampled(s, now, level))
    ensures Counts(StateBased, Sampled(s, now, level), last) ==> s.level != 0 && level == 0
  {
    PressOnlyOnFallingEdge(s, now, level);
  }

  /** The state-based guard interval is the push button's. */
  lemma SameGuardAsButton()
    ensures HIGH_STATE_GUARD_INTERVAL_US == 10000 && DEBOUNCE_GUARD_TIME_US == 50000
  {
  }

  /** How many of the interrupts at times `ts` the time-based strategy counts, starting from `last`. */
  function TimeBasedCount(last: int, ts: seq<nat>): nat
    decreases |ts|
  {
    if ts == [] then 0
    else (if ts[0] > last + DEBOUNCE_GUARD_TIME_US then 1 else 0) + TimeBasedCount(ts[0], ts[1..])
  }

  /** The no-debounce strategy counts every interrupt. */
  function NoDebounceCount(ts: seq<nat>): nat {
    |ts|
  }

  /** Consecutive interrupts at most 50 ms apart. */
  predicate Burst(ts: seq<nat>) {
    forall i :: 0 < i < |ts| ==> ts[i] <= ts[i - 1] + DEBOUNCE_GUARD_TIME_US
  }

  /**
   * A burst of bounces at most 50 ms apart counts at most once, and not at all
   * when it starts within 50 ms of the previous interrupt.
   */
  lemma {:induction false} BurstCountsOnce(last: int, ts: seq<nat>)
    requires Burst(ts)
    ensures TimeBasedCount(last, ts) <= 1
    ensures ts != [] && ts[0] <= last + DEBOUNCE_GUARD_TIME_US ==> TimeBasedCount(last, ts) == 0
    decreases |ts|
  {
    if ts != [] {
      var rest := ts[1..];
      assert Burst(rest) by {
        forall i | 0 < i < |rest|
          ensures rest[i] <= rest[i - 1] + DEBOUNCE_GUARD_TIME_US
        {
          assert rest[i] == ts[i + 1] && rest[i - 1] == ts[i];
        }
      }
      if rest != [] {
        assert rest[0] <= ts[0] + DEBOUNCE_GUARD_TIME_US;
      }
      BurstCountsOnce(ts[0], rest);
    }
  }

  /** Interrupts more than 50 ms apart are all counted. */
  lemma {:induction false} SpacedInterruptsAllCount(last: int, ts: seq<nat>)
    requires ts != [] ==> ts[0] > last + DEBOUNCE_GUARD_TIME_US
    requires forall i :: 0 < i < |ts| ==> ts[i] > ts[i - 1] + DEBOUNCE_GUARD_TIME_US
    ensures TimeBasedCount(last, ts) == NoDebounceCount(ts)
    decreases |ts|
  {
    if ts != [] {
      var rest := ts[1..];
      forall i | 0 < i < |rest|
        ensures rest[i] > rest[i - 1] + DEBOUNCE_GUARD_TIME_US
      {
        assert rest[i] == ts[i + 1] && rest[i - 1] == ts[i];
      }
      SpacedInterruptsAllCount(ts[0], rest);
    }
  }

  /** The time-based count never exceeds the number of interrupts. */
  lemma {:induction false} TimeBasedAtMostAll(last: int, ts: seq<nat>)
    ensures TimeBasedCount(last, ts) <= NoDebounceCount(ts)
    decreases |ts|
  {
    if ts != [] {
      TimeBasedAtMostAll(ts[0], ts[1..]);
    }
  }
}
