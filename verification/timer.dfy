/**
 * The stopwatch of src/Timer.cpp.
 *
 * A timer keeps, for the CPU clock and for the wall clock separately, the total,
 * the longest, the shortest and the last recorded interval, and counts the
 * intervals.  `start` remembers the two clock readings; `stop` subtracts them from
 * the current readings and records the differences.  The timer is "started" while
 * the remembered CPU reading is non-negative: the constructor, `reset` and every
 * `stop` put -1 there.  Clock readings are parameters here.
 */
module Timing {
  import opened Results
  import opened Seqs
  import opened Vectors

  /** What is kept about one clock. `last` is `None` until the first stop. */
  datatype Watch = Watch(total: real, longest: real, shortest: real, last: Option<real>)

  datatype Timer = Timer(startCpu: real, startWc: real, numCalls: int, cpu: Watch, wc: Watch)

  /** A pair of readings of the CPU clock and the wall clock, in seconds. */
  datatype Reading = Reading(cpu: real, wc: real)

  /** The record of a clock that has measured nothing yet. */
  function EmptyWatch(last: Option<real>): (w: Watch)
    ensures w.total == 0.0 && w.longest == -DblMax && w.shortest == DblMax && w.last == last
  {
    Watch(0.0, -DblMax, DblMax, last)
  }

  predicate Started(t: Timer)
  {
    t.startCpu >= 0.0
  }

  /** The freshly constructed timer: not started, nothing recorded. */
  function NewTimer(): (t: Timer)
    ensures !Started(t) && t.numCalls == 0
    ensures t.cpu == EmptyWatch(None) && t.wc == EmptyWatch(None)
  {
    Timer(-1.0, -1.0, 0, EmptyWatch(None), EmptyWatch(None))
  }

  /** `start` remembers the current readings and leaves every record alone. */
  function Start(t: Timer, now: Reading): (r: Timer)
    ensures Started(r) <==> now.cpu >= 0.0
    ensures r.numCalls == t.numCalls && r.cpu == t.cpu && r.wc == t.wc
  {
    t.(startCpu := now.cpu, startWc := now.wc)
  }

  /** Records one interval: added to the total, compared with the longest and shortest. */
  function Record(w: Watch, interval: real): (r: Watch)
    ensures r.total == w.total + interval && r.last == Some(interval)
    ensures r.longest >= w.longest && r.longest >= interval && (r.longest == w.longest || r.longest == interval)
    ensures r.shortest <= w.shortest && r.shortest <= interval && (r.shortest == w.shortest || r.shortest == interval)
  {
    Watch(w.total + interval,
          if w.longest < interval then interval else w.longest,
          if interval < w.shortest then interval else w.shortest,
          Some(interval))
  }

  /**
   * `stop` fails with a runtime error unless the timer is started; otherwise it
   * records now minus the start readings on both clocks, counts one more interval
   * and clears the start marks.
   */
  function Stop(t: Timer, now: Reading): (r: Result<Timer>)
    ensures r.Err? <==> !Started(t)
    ensures r.Err? ==> r.error.RuntimeError?
    ensures r.Ok? ==> !Started(r.value) && r.value.numCalls == t.numCalls + 1
    ensures r.Ok? ==> r.value.cpu.last == Some(now.cpu - t.startCpu) && r.value.wc.last == Some(now.wc - t.startWc)
  {
    if t.startCpu < 0.0 then Err(RuntimeError("Need to call start() before calling stop()"))
    else Ok(Timer(-1.0, -1.0, t.numCalls + 1, Record(t.cpu, now.cpu - t.startCpu), Record(t.wc, now.wc - t.startWc)))
  }

  /**
   * `reset` restores the constructed state, except that the last recorded intervals,
   * which the constructor leaves uninitialised, keep their values.
   */
  function Reset(t: Timer): (r: Timer)
    ensures !Started(r) && r.numCalls == 0
    ensures r.cpu == EmptyWatch(t.cpu.last) && r.wc == EmptyWatch(t.wc.last)
    ensures r.(cpu := NewTimer().cpu, wc := NewTimer().wc) == NewTimer()
  {
    Timer(-1.0, -1.0, 0, EmptyWatch(t.cpu.last), EmptyWatch(t.wc.last))
  }

  /** A stop straight after construction fails. */
  lemma StopBeforeStartFails(now: Reading)
    ensures Stop(NewTimer(), now).Err?
  {
  }

  /** A second stop without a start in between fails. */
  lemma StopTwiceFails(t: Timer, first: Reading, second: Reading)
    requires Stop(t, first).Ok?
    ensures Stop(Stop(t, first).value, second).Err?
  {
  }

  /** An interval a double can hold. */
  predicate Finite(x: real)
  {
    -DblMax <= x <= DblMax
  }

  /**
   * `w` is the record of exactly the intervals `lasts`: their sum, a longest and a
   * shortest that bound every one of them and are attained, and the last one.
   */
  predicate Records(w: Watch, lasts: seq<real>)
  {
    && w.total == Sum(lasts)
    && (forall i :: 0 <= i < |lasts| ==> w.shortest <= lasts[i] <= w.longest)
    && (|lasts| == 0 ==> w.longest == -DblMax && w.shortest == DblMax)
    && (|lasts| > 0 ==> w.last == Some(lasts[|lasts| - 1]))
    && (|lasts| > 0 ==> exists i :: 0 <= i < |lasts| && lasts[i] == w.longest)
    && (|lasts| > 0 ==> exists i :: 0 <= i < |lasts| && lasts[i] == w.shortest)
  }

  /** Recording a finite interval keeps a record exact. */
  lemma RecordKeepsRecords(w: Watch, lasts: seq<real>, x: real)
    requires Records(w, lasts) && Finite(x)
    ensures Records(Record(w, x), lasts + [x])
  {
    var r := Record(w, x);
    var s := lasts + [x];
    SumAppend(lasts, [x]);
    SumSingleton(x);
    assert s[|lasts|] == x;
    if |lasts| > 0 {
      if r.longest == w.longest {
        var i :| 0 <= i < |lasts| && lasts[i] == w.longest;
        assert s[i] == r.longest;
      } else {
        assert s[|lasts|] == r.longest;
      }
      if r.shortest == w.shortest {
        var i :| 0 <= i < |lasts| && lasts[i] == w.shortest;
        assert s[i] == r.shortest;
      } else {
        assert s[|lasts|] == r.shortest;
      }
    } else {
      assert r.longest == x && r.shortest == x;
    }
    forall i | 0 <= i < |s|
      ensures r.shortest <= s[i] <= r.longest
    {
      if i < |lasts| {
        assert s[i] == lasts[i];
      }
    }
  }

  /** One start/stop pair: the readings at `start` and at `stop`. */
  datatype Lap = Lap(begin: Reading, end: Reading)

  /** Runs start, stop for every lap in turn; the first failing stop ends the run. */
  function Laps(t: Timer, laps: seq<Lap>): Result<Timer>
    decreases |laps|
  {
    if |laps| == 0 then Ok(t)
    else match Stop(Start(t, laps[0].begin), laps[0].end)
      case Err(e) => Err(e)
      case Ok(t') => Laps(t', laps[1..])
  }

  function CpuIntervals(laps: seq<Lap>): (r: seq<real>)
    ensures |r| == |laps| && forall i :: 0 <= i < |laps| ==> r[i] == laps[i].end.cpu - laps[i].begin.cpu
  {
    if |laps| == 0 then [] else [laps[0].end.cpu - laps[0].begin.cpu] + CpuIntervals(laps[1..])
  }

  function WcIntervals(laps: seq<Lap>): (r: seq<real>)
    ensures |r| == |laps| && forall i :: 0 <= i < |laps| ==> r[i] == laps[i].end.wc - laps[i].begin.wc
  {
    if |laps| == 0 then [] else [laps[0].end.wc - laps[0].begin.wc] + WcIntervals(laps[1..])
  }

  /** Every lap starts at a non-negative CPU reading and measures finite intervals. */
  predicate WellTimed(laps: seq<Lap>)
  {
    forall i :: 0 <= i < |laps| ==>
      laps[i].begin.cpu >= 0.0 && Finite(laps[i].end.cpu - laps[i].begin.cpu) && Finite(laps[i].end.wc - laps[i].begin.wc)
  }

  /** Records the intervals `xs` one after another. */
  function RecordAll(w: Watch, xs: seq<real>): Watch
    decreases |xs|
  {
    if |xs| == 0 then w else RecordAll(Record(w, xs[0]), xs[1..])
  }

  /** Recording finite intervals one by one keeps a record exact. */
  lemma {:induction false} RecordAllKeepsRecords(w: Watch, done: seq<real>, xs: seq<real>)
    requires Records(w, done)
    requires forall i :: 0 <= i < |xs| ==> Finite(xs[i])
    ensures Records(RecordAll(w, xs), done + xs)
    decreases |xs|
  {
    if |xs| == 0 {
      assert done + xs == done;
    } else {
      RecordKeepsRecords(w, done, xs[0]);
      RecordAllKeepsRecords(Record(w, xs[0]), done + [xs[0]], xs[1..]);
      calc {
        done + [xs[0]] + xs[1..];
      == { Assoc(done, [xs[0]], xs[1..]); }
        done + ([xs[0]] + xs[1..]);
      == { assert [xs[0]] + xs[1..] == xs; }
        done + xs;
      }
    }
  }

  /** Recording finite intervals on an empty record gives their exact record. */
  lemma FromScratch(w: Watch, xs: seq<real>)
    requires w == EmptyWatch(None)
    requires forall i :: 0 <= i < |xs| ==> Finite(xs[i])
    ensures Records(RecordAll(w, xs), xs)
  {
    RecordAllKeepsRecords(w, [], xs);
    assert [] + xs == xs;
  }

  /**
   * Well-timed laps all succeed; each counts one call and records its CPU and wall
   * clock intervals, in lap order.
   */
  lemma {:induction false} LapsRecord(t: Timer, laps: seq<Lap>)
    requires WellTimed(laps)
    ensures Laps(t, laps).Ok?
    ensures Laps(t, laps).value.numCalls == t.numCalls + |laps|
    ensures Laps(t, laps).value.cpu == RecordAll(t.cpu, CpuIntervals(laps))
    ensures Laps(t, laps).value.wc == RecordAll(t.wc, WcIntervals(laps))
    decreases |laps|
  {
    if |laps| > 0 {
      var t' := Stop(Start(t, laps[0].begin), laps[0].end).value;
      assert WellTimed(laps[1..]) by {
        forall i | 0 <= i < |laps[1..]|
          ensures laps[1..][i] == laps[i + 1]
        {
        }
      }
      LapsRecord(t', laps[1..]);
      assert CpuIntervals(laps)[1..] == CpuIntervals(laps[1..]);
      assert WcIntervals(laps)[1..] == WcIntervals(laps[1..]);
    }
  }

  /**
   * After k well-timed laps from construction (or from a reset), the timer counts k
   * calls and, on each clock, its total is the sum of the k intervals and its
   * shortest and longest bound every one of them.
   */
  lemma TimerTotals(laps: seq<Lap>)
    requires WellTimed(laps)
    ensures Laps(NewTimer(), laps).Ok?
    ensures var t := Laps(NewTimer(), laps).value;
      && t.numCalls == |laps|
      && Records(t.cpu, CpuIntervals(laps))
      && Records(t.wc, WcIntervals(laps))
  {
    var t := NewTimer();
    LapsRecord(t, laps);
    FromScratch(t.cpu, CpuIntervals(laps));
    FromScratch(t.wc, WcIntervals(laps));
  }
}
