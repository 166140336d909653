/** The fields of one supervised upstream that its run loop, its list-changed
    handlers and its readers share, and the critical sections that write them. */
module Upstream {

  import opened Prelude
  import opened ToolTable

  datatype State = Starting | Ready | Failed | Stopped | NeedsLogin

  datatype Shared = Shared(
    state: State, tools: seq<Tool>, session: bool, pid: nat,
    failures: nat, restarts: nat, pingBroken: bool)

  const NEW := Shared(Starting, [], false, 0, 0, 0, false)

  /** What readers of the tool list see. */
  function Visible(s: Shared): seq<Tool> {
    if s.state == Ready then s.tools else []
  }

  /** One finished run: a run that stayed up long enough resets the counter first. */
  function Counted(s: Shared, stable: bool): Shared {
    s.(failures := (if stable then 0 else s.failures) + 1, restarts := s.restarts + 1)
  }

  function TornDown(s: Shared): Shared {
    s.(session := false, pid := 0, tools := [])
  }

  /** The failure counter a history of finished runs leaves behind. */
  function Streak(runs: seq<bool>): (r: nat)
    ensures runs != [] ==> r >= 1
  {
    if runs == [] then 0
    else if runs[|runs| - 1] then 1
    else Streak(runs[..|runs| - 1]) + 1
  }

  /** The counter is the number of runs since, and including, the last stable
      one, or of all runs when none was stable. */
  lemma {:induction false} StreakCountsFromLastStable(runs: seq<bool>)
    ensures var k := |runs| - Streak(runs);
            && 0 <= k <= |runs|
            && (forall i :: k < i < |runs| ==> !runs[i])
            && (k < |runs| && k > 0 ==> runs[k])
            && (k == |runs| <==> runs == [])
  {
    if runs != [] && !runs[|runs| - 1] {
      StreakCountsFromLastStable(runs[..|runs| - 1]);
    }
  }

  /** A window of unstable runs is no longer than the counter at its end. */
  lemma {:induction false} UnstableWindow(runs: seq<bool>, i: nat)
    requires i <= |runs| && forall k :: i <= k < |runs| ==> !runs[k]
    ensures |runs| - i <= Streak(runs)
  {
    if i < |runs| {
      UnstableWindow(runs[..|runs| - 1], i);
    }
  }

  const INT64_SPAN: int := 0x1_0000_0000_0000_0000
  const INT64_MAX: int := 0x7fff_ffff_ffff_ffff

  /** Two's-complement wrap-around to 64 bits. */
  function Wrap64(x: int): (r: int)
    ensures -INT64_MAX - 1 <= r <= INT64_MAX
    ensures -INT64_MAX - 1 <= x <= INT64_MAX ==> r == x
  {
    var m := x % INT64_SPAN;
    if m > INT64_MAX then m - INT64_SPAN else m
  }

  function Min(a: int, b: int): int { if a < b then a else b }

  /** The pause after the `f`-th consecutive failure: a 64-bit left shift,
      capped. */
  function Delay(backoffMin: int, backoffMax: int, f: nat): int
    requires f >= 1
  {
    Min(Wrap64(backoffMin * Pow(2, f - 1)), backoffMax)
  }

  /** The pause intended: doubling from the minimum up to the maximum. */
  function IdealDelay(backoffMin: int, backoffMax: int, f: nat): int
    requires f >= 1
  {
    Min(backoffMin * Pow(2, f - 1), backoffMax)
  }

  lemma Distribute(x: int, a: int, b: int)
    ensures x * a + x * b == x * (a + b) == (a + b) * x
  {
  }

  lemma FittingDelay(backoffMin: int, backoffMax: int, f: nat)
    requires f >= 1 && 0 < backoffMin && 0 < backoffMax <= INT64_MAX && backoffMin * Pow(2, f - 1) <= INT64_MAX
    ensures Delay(backoffMin, backoffMax, f) == IdealDelay(backoffMin, backoffMax, f)
  {
    MulMonotone(backoffMin, 0, Pow(2, f - 1));
  }

  /** The first product past 64 bits wraps to a negative number. */
  lemma {:induction false} FirstOverflow(backoffMin: int, n: nat) returns (f: nat)
    requires 0 < backoffMin <= INT64_MAX && backoffMin * Pow(2, n) > INT64_MAX
    ensures 0 < f <= n && backoffMin * Pow(2, f) > INT64_MAX && Wrap64(backoffMin * Pow(2, f)) < 0
  {
    if backoffMin * Pow(2, n - 1) > INT64_MAX {
      f := FirstOverflow(backoffMin, n - 1);
    } else {
      f := n;
      assert n > 0 by {
        assert Pow(2, 0) == 1;
      }
      Associate(backoffMin, 2, Pow(2, n - 1));
      WrapsNegative(backoffMin * Pow(2, n - 1));
    }
  }

  lemma WrapsNegative(x: int)
    requires x <= INT64_MAX < 2 * x
    ensures Wrap64(2 * x) < 0
  {
  }

  /** Every pause the loop can take is the intended one exactly when the largest
      shift it can get to fits in 64 bits. */
  lemma DelayIsIdealIff(backoffMin: int, backoffMax: int, maxFailures: nat)
    requires 0 < backoffMin <= INT64_MAX && 0 < backoffMax <= INT64_MAX && maxFailures >= 2
    ensures (forall f :: 1 <= f < maxFailures ==> Delay(backoffMin, backoffMax, f) == IdealDelay(backoffMin, backoffMax, f))
       <==> backoffMin * Pow(2, maxFailures - 2) <= INT64_MAX
  {
    if backoffMin * Pow(2, maxFailures - 2) <= INT64_MAX {
      forall f | 1 <= f < maxFailures
        ensures Delay(backoffMin, backoffMax, f) == IdealDelay(backoffMin, backoffMax, f)
      {
        DelaysWithinBudget(backoffMin, backoffMax, maxFailures, f);
      }
    } else {
      var f := FirstOverflow(backoffMin, maxFailures - 2);
      assert Delay(backoffMin, backoffMax, f + 1) < 0 < IdealDelay(backoffMin, backoffMax, f + 1);
    }
  }

  /** While the largest shift in use fits, every pause is the intended one,
      positive, and no shorter than the one before. */
  lemma DelaysWithinBudget(backoffMin: int, backoffMax: int, maxFailures: nat, f: nat)
    requires 0 < backoffMin && 0 < backoffMax <= INT64_MAX
    requires 1 <= f < maxFailures && backoffMin * Pow(2, maxFailures - 2) <= INT64_MAX
    ensures Delay(backoffMin, backoffMax, f) == IdealDelay(backoffMin, backoffMax, f)
    ensures 0 < Delay(backoffMin, backoffMax, f) <= backoffMax
    ensures f > 1 ==> Delay(backoffMin, backoffMax, f - 1) <= Delay(backoffMin, backoffMax, f)
  {
    PowMonotone(2, f - 1, maxFailures - 2);
    MulMonotone(backoffMin, Pow(2, f - 1), Pow(2, maxFailures - 2));
    MulMonotone(backoffMin, 1, Pow(2, f - 1));
    FittingDelay(backoffMin, backoffMax, f);
    if f > 1 {
      MulMonotone(backoffMin, Pow(2, f - 2), Pow(2, f - 1));
      MulMonotone(backoffMin, 1, Pow(2, f - 2));
      FittingDelay(backoffMin, backoffMax, f - 1);
    }
  }

  /** The pauses after failures 1 to `n`, added up. */
  function TotalDelay(backoffMin: int, backoffMax: int, n: nat): int {
    if n == 0 then 0 else TotalDelay(backoffMin, backoffMax, n - 1) + Delay(backoffMin, backoffMax, n)
  }

  /** That sum stays below both bounds. */
  lemma {:induction false} TotalDelayBound(backoffMin: int, backoffMax: int, maxFailures: nat, n: nat)
    requires 0 < backoffMin && 0 < backoffMax <= INT64_MAX
    requires n < maxFailures && (maxFailures >= 2 ==> backoffMin * Pow(2, maxFailures - 2) <= INT64_MAX)
    ensures TotalDelay(backoffMin, backoffMax, n) <= backoffMin * (Pow(2, n) - 1)
    ensures 0 <= TotalDelay(backoffMin, backoffMax, n) <= n * backoffMax
  {
    if n > 0 {
      TotalDelayBound(backoffMin, backoffMax, maxFailures, n - 1);
      DelaysWithinBudget(backoffMin, backoffMax, maxFailures, n);
      var p := Pow(2, n - 1);
      Distribute(backoffMin, p - 1, p);
      AtMostTimes(TotalDelay(backoffMin, backoffMax, n - 1), Delay(backoffMin, backoffMax, n), n - 1, backoffMax);
    }
  }

  lemma AtMostTimes(total: int, d: int, n: nat, x: int)
    requires total <= n * x && d <= x
    ensures total + d <= (n + 1) * x
  {
  }

  /** Outside that range the pause can vanish: with the default one-second
      minimum the 56th consecutive failure is retried at once. */
  lemma ShiftCanOverflow()
    ensures Delay(1_000_000_000, 60_000_000_000, 56) == 0
    ensures IdealDelay(1_000_000_000, 60_000_000_000, 56) == 60_000_000_000
  {
    assert Pow(2, 11) == 2048;
    PowAdd(2, 11, 11);
    assert Pow(2, 22) == 0x40_0000;
    PowAdd(2, 22, 22);
    assert Pow(2, 44) == 0x1000_0000_0000;
    PowAdd(2, 44, 11);
    assert Pow(2, 55) == 0x80_0000_0000_0000;
    assert 1_000_000_000 * 0x80_0000_0000_0000 == INT64_SPAN * 1_953_125;
  }

  /** How one call of runOnce ended: whether the context was cancelled by then,
      whether the run counted as stable, and whether cancellation won the race
      against the pause that follows. */
  datatype Report = Report(cancelled: bool, stable: bool, cancelledInPause: bool)

  /** What the restart loop has done so far: the runs it counted, the pauses it
      took, the states it wrote and the last of them. */
  datatype Loop = Loop(runs: seq<bool>, delays: seq<int>, written: seq<State>, end: State)

  const FRESH := Loop([], [], [], Starting)

  datatype Tuning = Tuning(maxFailures: int, backoffMin: int, backoffMax: int)

  /** The loop body after one run has returned. */
  function Advance(o: Tuning, l: Loop, r: Report): Loop {
    if r.cancelled then l.(written := l.written + [Stopped], end := Stopped)
    else
      var runs := l.runs + [r.stable];
      if Streak(runs) >= o.maxFailures then Loop(runs, l.delays, l.written + [Failed], Failed)
      else
        var delays := l.delays + [Delay(o.backoffMin, o.backoffMax, Streak(runs))];
        if r.cancelledInPause then Loop(runs, delays, l.written + [Starting, Stopped], Stopped)
        else Loop(runs, delays, l.written + [Starting], Starting)
  }

  /** The loop over a script of reports; it ends in Stopped or Failed. */
  function Supervise(o: Tuning, l: Loop, script: seq<Report>): Loop
    decreases |script|
  {
    if script == [] || l.end != Starting then l
    else Supervise(o, Advance(o, l, script[0]), script[1..])
  }

  /** The counter stayed below the maximum after each of the first `n - 1` runs. */
  ghost predicate Below(maxFailures: int, runs: seq<bool>, n: nat)
    requires n <= |runs| + 1
  {
    forall k :: 0 < k < n ==> Streak(runs[..k]) < maxFailures
  }

  lemma BelowExtends(maxFailures: int, runs: seq<bool>, stable: bool)
    requires Below(maxFailures, runs, |runs| + 1)
    ensures Below(maxFailures, runs + [stable], |runs| + 1)
    ensures Streak(runs + [stable]) < maxFailures ==> Below(maxFailures, runs + [stable], |runs| + 2)
  {
    var runs' := runs + [stable];
    forall k | 0 < k <= |runs| ensures Streak(runs'[..k]) < maxFailures {
      assert runs'[..k] == runs[..k];
    }
    assert runs'[..|runs'|] == runs';
  }

  /** What holds of the loop between two runs: the counter is below the maximum
      after every run but possibly the last, Failed is entered exactly when the
      last one reaches it, every counted run but a failing one took its pause,
      and every pause was announced as Starting. */
  ghost predicate LoopInv(o: Tuning, l: Loop) {
    && Below(o.maxFailures, l.runs, |l.runs|)
    && (l.end == Failed <==> l.runs != [] && Streak(l.runs) >= o.maxFailures)
    && l.end in {Starting, Stopped, Failed}
    && |l.delays| == (if l.end == Failed then |l.runs| - 1 else |l.runs|)
    && l.delays == Pauses(o.backoffMin, o.backoffMax, l.runs[..|l.delays|])
    && l.written == (if l.end == Starting then Starts(|l.delays|) else Starts(|l.delays|) + [l.end])
  }

  lemma StopKeeps(o: Tuning, l: Loop)
    requires LoopInv(o, l) && l.end == Starting
    ensures LoopInv(o, l.(written := l.written + [Stopped], end := Stopped))
  {
  }

  lemma GiveUpKeeps(o: Tuning, l: Loop, runs: seq<bool>)
    requires LoopInv(o, l) && l.end == Starting
    requires |runs| == |l.runs| + 1 && runs[..|l.runs|] == l.runs
    requires Below(o.maxFailures, runs, |runs|) && Streak(runs) >= o.maxFailures
    ensures LoopInv(o, Loop(runs, l.delays, l.written + [Failed], Failed))
  {
    assert l.runs[..|l.runs|] == l.runs;
  }

  lemma PauseKeeps(o: Tuning, l: Loop, runs: seq<bool>, delay: int)
    requires LoopInv(o, l) && l.end == Starting
    requires |runs| == |l.runs| + 1
    requires Below(o.maxFailures, runs, |runs|) && Streak(runs) < o.maxFailures
    requires Pauses(o.backoffMin, o.backoffMax, runs) == Pauses(o.backoffMin, o.backoffMax, l.runs) + [delay]
    ensures LoopInv(o, Loop(runs, l.delays + [delay], l.written + [Starting], Starting))
  {
    assert runs[..|runs|] == runs && l.runs[..|l.runs|] == l.runs;
  }

  lemma PausesGrow(backoffMin: int, backoffMax: int, before: seq<bool>, runs: seq<bool>)
    requires |runs| == |before| + 1 && runs[..|before|] == before
    ensures Pauses(backoffMin, backoffMax, runs) ==
            Pauses(backoffMin, backoffMax, before) + [Delay(backoffMin, backoffMax, Streak(runs))]
  {
  }

  lemma AdvanceKeeps(o: Tuning, l: Loop, r: Report)
    requires LoopInv(o, l) && l.end == Starting
    ensures LoopInv(o, Advance(o, l, r))
  {
    var runs := l.runs + [r.stable];
    AppendRun(l.runs, r.stable);
    BelowNow(o, l);
    BelowExtends(o.maxFailures, l.runs, r.stable);
    if r.cancelled {
      StopKeeps(o, l);
    } else if Streak(runs) >= o.maxFailures {
      GiveUpKeeps(o, l, runs);
    } else {
      var delay := Delay(o.backoffMin, o.backoffMax, Streak(runs));
      PausesGrow(o.backoffMin, o.backoffMax, l.runs, runs);
      PauseKeeps(o, l, runs, delay);
      StopKeeps(o, Loop(runs, l.delays + [delay], l.written + [Starting], Starting));
      AppendTwo(l.written, Starting, Stopped);
    }
  }

  lemma AppendTwo(written: seq<State>, a: State, b: State)
    ensures written + [a] + [b] == written + [a, b]
  {
  }

  lemma BelowNow(o: Tuning, l: Loop)
    requires LoopInv(o, l) && l.end == Starting
    ensures Below(o.maxFailures, l.runs, |l.runs| + 1)
  {
    assert l.runs[..|l.runs|] == l.runs;
  }

  lemma {:induction false} SuperviseKeeps(o: Tuning, l: Loop, script: seq<Report>)
    requires LoopInv(o, l)
    ensures LoopInv(o, Supervise(o, l, script))
    decreases |script|
  {
    if script != [] && l.end == Starting {
      AdvanceKeeps(o, l, script[0]);
      SuperviseKeeps(o, Advance(o, l, script[0]), script[1..]);
    }
  }

  lemma {:induction false} ScriptEnds(o: Tuning, l: Loop, script: seq<Report>)
    requires l.end == Starting
    ensures var l' := Supervise(o, l, script);
            && l.runs <= l'.runs
            && var m := |l'.runs| - |l.runs|;
            && m <= |script|
            && (l'.end == Stopped ==> (m < |script| && script[m].cancelled) || (m > 0 && script[m - 1].cancelledInPause))
            && (l'.end == Starting ==> m == |script|)
    decreases |script|
  {
    if script != [] && !script[0].cancelled {
      var l1 := Advance(o, l, script[0]);
      if l1.end == Starting {
        ScriptEnds(o, l1, script[1..]);
      }
    }
  }

  /** Run `k` from here on is counted as report `k` of the script says. */
  predicate CountedAs(l: Loop, l': Loop, script: seq<Report>, k: nat) {
    k < |script| && |l.runs| + k < |l'.runs| && l'.runs[|l.runs| + k] == script[k].stable && !script[k].cancelled
  }

  lemma CountedLater(l: Loop, l1: Loop, l': Loop, script: seq<Report>, k: nat)
    requires k > 0 && script != [] && |l1.runs| == |l.runs| + 1 && CountedAs(l1, l', script[1..], k - 1)
    ensures CountedAs(l, l', script, k)
  {
  }

  /** Every counted run is one report of the script, in order, and the loop ends
      in Stopped only at a cancellation. */
  lemma {:induction false} ScriptConsumed(o: Tuning, l: Loop, script: seq<Report>)
    requires l.end == Starting
    ensures var l' := Supervise(o, l, script);
            && l.runs <= l'.runs
            && var m := |l'.runs| - |l.runs|;
            && m <= |script|
            && (forall k :: 0 <= k < m ==> CountedAs(l, l', script, k))
            && (l'.end == Stopped ==> (m < |script| && script[m].cancelled) || (m > 0 && script[m - 1].cancelledInPause))
            && (l'.end == Starting ==> m == |script|)
    decreases |script|
  {
    ScriptEnds(o, l, script);
    if script != [] && !script[0].cancelled {
      var l1, l' := Advance(o, l, script[0]), Supervise(o, l, script);
      if l1.end == Starting {
        ScriptConsumed(o, l1, script[1..]);
        forall k | 0 < k < |l'.runs| - |l.runs| ensures CountedAs(l, l', script, k) {
          CountedLater(l, l1, l', script, k);
        }
      }
    }
  }

  /** A streak of unstable runs that ends in Failed, or goes on, is at most
      `maxFailures` runs long. */
  lemma UnstableStreakBounded(o: Tuning, script: seq<Report>, i: nat, j: nat)
    requires o.maxFailures >= 1
    requires var runs := Supervise(o, FRESH, script).runs;
             i <= j <= |runs| && forall k :: i <= k < j ==> !runs[k]
    ensures j - i <= o.maxFailures
  {
    SuperviseKeeps(o, FRESH, script);
    StreakAtMost(o, Supervise(o, FRESH, script), j);
    UnstableWindow(Supervise(o, FRESH, script).runs[..j], i);
  }

  lemma StreakAtMost(o: Tuning, l: Loop, j: nat)
    requires o.maxFailures >= 1 && LoopInv(o, l) && j <= |l.runs|
    ensures Streak(l.runs[..j]) <= o.maxFailures
  {
    if j > 0 {
      StreakStep(l.runs[..j]);
      assert l.runs[..j][..j - 1] == l.runs[..j - 1];
    }
  }

  lemma StreakStep(runs: seq<bool>)
    requires runs != []
    ensures Streak(runs) <= Streak(runs[..|runs| - 1]) + 1
  {
  }

  lemma AppendRun(runs: seq<bool>, stable: bool)
    ensures var runs' := runs + [stable];
            && runs'[..|runs|] == runs && runs'[..|runs'|] == runs' && runs[..|runs|] == runs
            && Streak(runs') == (if stable then 0 else Streak(runs)) + 1
  {
    var runs' := runs + [stable];
    assert runs'[..|runs|] == runs;
  }

  /** The pauses a history of counted runs leads to. */
  function Pauses(backoffMin: int, backoffMax: int, runs: seq<bool>): seq<int> {
    if runs == [] then []
    else Pauses(backoffMin, backoffMax, runs[..|runs| - 1]) + [Delay(backoffMin, backoffMax, Streak(runs))]
  }

  lemma {:induction false} PausesAt(backoffMin: int, backoffMax: int, runs: seq<bool>, k: nat)
    requires k < |runs|
    ensures |Pauses(backoffMin, backoffMax, runs)| == |runs|
    ensures Pauses(backoffMin, backoffMax, runs)[k] == Delay(backoffMin, backoffMax, Streak(runs[..k + 1]))
  {
    var n := |runs| - 1;
    if n > 0 {
      PausesAt(backoffMin, backoffMax, runs[..n], if k < n then k else 0);
    }
    if k < n {
      assert runs[..n][..k + 1] == runs[..k + 1];
    } else {
      assert runs[..k + 1] == runs;
    }
  }

  function Sum(s: seq<int>): int {
    if s == [] then 0 else Sum(s[..|s| - 1]) + s[|s| - 1]
  }

  ghost predicate Fits(o: Tuning) {
    && o.maxFailures >= 1 && 0 < o.backoffMin && 0 < o.backoffMax <= INT64_MAX
    && (o.maxFailures >= 2 ==> o.backoffMin * Pow(2, o.maxFailures - 2) <= INT64_MAX)
  }

  lemma NoNegativeTotal(o: Tuning, n: nat)
    requires Fits(o) && n < o.maxFailures
    ensures 0 <= TotalDelay(o.backoffMin, o.backoffMax, n)
  {
    TotalDelayBound(o.backoffMin, o.backoffMax, o.maxFailures, n);
  }

  /** The pauses over a window of runs in which only the first may be stable. */
  lemma {:induction false} WindowPause(o: Tuning, runs: seq<bool>, delays: seq<int>, i: nat, j: nat)
    requires Fits(o) && i <= j <= |runs| && |delays| >= j && Streak(runs[..j]) < o.maxFailures
    requires forall k :: 0 <= k < j ==> delays[k] == Delay(o.backoffMin, o.backoffMax, Streak(runs[..k + 1]))
    requires forall k :: i < k < j ==> !runs[k]
    ensures Sum(delays[i..j]) <= TotalDelay(o.backoffMin, o.backoffMax, Streak(runs[..j]))
    decreases j - i
  {
    var n := Streak(runs[..j]);
    NoNegativeTotal(o, n);
    if i < j {
      NoNegativeTotal(o, n - 1);
      assert runs[..j][..j - 1] == runs[..j - 1];
      if i < j - 1 {
        WindowPause(o, runs, delays, i, j - 1);
      }
      WindowStep(o.backoffMin, o.backoffMax, delays, i, j, n);
    }
  }

  lemma WindowStep(backoffMin: int, backoffMax: int, delays: seq<int>, i: nat, j: nat, n: nat)
    requires i < j <= |delays| && n >= 1 && delays[j - 1] == Delay(backoffMin, backoffMax, n)
    requires 0 <= TotalDelay(backoffMin, backoffMax, n - 1)
    requires i < j - 1 ==> Sum(delays[i..j - 1]) <= TotalDelay(backoffMin, backoffMax, n - 1)
    ensures Sum(delays[i..j]) <= TotalDelay(backoffMin, backoffMax, n)
  {
    assert delays[i..j][..j - i - 1] == delays[i..j - 1];
  }

  /** Each pause the loop takes is that of the counter at its time. */
  lemma LoopPauses(o: Tuning, l: Loop, k: nat)
    requires LoopInv(o, l) && k < |l.delays|
    ensures |l.delays| <= |l.runs| && l.delays[k] == Delay(o.backoffMin, o.backoffMax, Streak(l.runs[..k + 1]))
    ensures Streak(l.runs[..k + 1]) < o.maxFailures
  {
    var counted := l.runs[..|l.delays|];
    PausesAt(o.backoffMin, o.backoffMax, counted, k);
    assert counted[..k + 1] == l.runs[..k + 1];
    if k + 1 == |l.runs| {
      assert l.runs[..k + 1] == l.runs;
    }
  }

  lemma WithinBudget(backoffMin: int, backoffMax: int, maxFailures: nat, n: nat)
    requires 0 < backoffMin && 0 < backoffMax <= INT64_MAX
    requires n < maxFailures && (maxFailures >= 2 ==> backoffMin * Pow(2, maxFailures - 2) <= INT64_MAX)
    ensures TotalDelay(backoffMin, backoffMax, n) <= backoffMin * (Pow(2, maxFailures - 1) - 1)
    ensures TotalDelay(backoffMin, backoffMax, n) <= (maxFailures - 1) * backoffMax
  {
    TotalDelayBound(backoffMin, backoffMax, maxFailures, n);
    PowMonotone(2, n, maxFailures - 1);
    MulMonotone(backoffMin, Pow(2, n) - 1, Pow(2, maxFailures - 1) - 1);
    MulMonotone(backoffMax, n, maxFailures - 1);
    Commute(backoffMax, n);
    Commute(backoffMax, maxFailures - 1);
  }

  lemma Commute(x: int, y: int)
    ensures x * y == y * x
  {
  }

  lemma LoopWindow(o: Tuning, l: Loop, i: nat, j: nat)
    requires Fits(o) && LoopInv(o, l) && i <= j <= |l.delays| <= |l.runs| && forall k :: i < k < j ==> !l.runs[k]
    ensures Streak(l.runs[..j]) < o.maxFailures
    ensures Sum(l.delays[i..j]) <= TotalDelay(o.backoffMin, o.backoffMax, Streak(l.runs[..j]))
  {
    forall k | 0 <= k < j
      ensures l.delays[k] == Delay(o.backoffMin, o.backoffMax, Streak(l.runs[..k + 1]))
    {
      LoopPauses(o, l, k);
    }
    if j > 0 {
      LoopPauses(o, l, j - 1);
    }
    WindowPause(o, l.runs, l.delays, i, j);
  }

  /** The pauses the loop takes over any streak of unstable runs, the stable run
      before it included, add up to no more than both bounds. */
  lemma StreakPause(o: Tuning, script: seq<Report>, i: nat, j: nat)
    requires Fits(o)
    requires var l := Supervise(o, FRESH, script);
             i <= j <= |l.delays| && forall k :: i < k < j && k < |l.runs| ==> !l.runs[k]
    ensures var paused := Sum(Supervise(o, FRESH, script).delays[i..j]);
            && paused <= o.backoffMin * (Pow(2, o.maxFailures - 1) - 1)
            && paused <= (o.maxFailures - 1) * o.backoffMax
  {
    SuperviseKeeps(o, FRESH, script);
    LoopStreak(o, Supervise(o, FRESH, script), i, j);
  }

  lemma LoopStreak(o: Tuning, l: Loop, i: nat, j: nat)
    requires Fits(o) && LoopInv(o, l)
    requires i <= j <= |l.delays| && forall k :: i < k < j && k < |l.runs| ==> !l.runs[k]
    ensures Sum(l.delays[i..j]) <= o.backoffMin * (Pow(2, o.maxFailures - 1) - 1)
    ensures Sum(l.delays[i..j]) <= (o.maxFailures - 1) * o.backoffMax
  {
    if j > 0 {
      LoopPauses(o, l, j - 1);
    }
    LoopWindow(o, l, i, j);
    WithinBudget(o.backoffMin, o.backoffMax, o.maxFailures, Streak(l.runs[..j]));
  }

  /** `n` writes of Starting. */
  function Starts(n: nat): seq<State> {
    if n == 0 then [] else Starts(n - 1) + [Starting]
  }

  /** The upstream object. `written` is the sequence of states written, each of
      which is followed by a change notification. */
  class Upstream {
    var state: State
    var tools: seq<Tool>
    var session: bool
    var pid: nat
    var failures: nat
    var restarts: nat
    var pingBroken: bool
    var written: seq<State>

    constructor ()
      ensures Fields() == NEW && written == []
    {
      state, tools, session, pid := Starting, [], false, 0;
      failures, restarts, pingBroken := 0, 0, false;
      written := [];
    }

    ghost function Fields(): Shared
      reads this
    {
      Shared(state, tools, session, pid, failures, restarts, pingBroken)
    }

    method Tools() returns (r: seq<Tool>)
      ensures r == Visible(Fields())
      ensures state == Ready ==> r == tools
      ensures state != Ready ==> r == []
    {
      if state != Ready {
        return [];
      }
      return tools;
    }

    method SetState(st: State)
      modifies this`state, this`written
      ensures Fields() == old(Fields()).(state := st) && written == old(written) + [st]
    {
      state := st;
      written := written + [st];
    }

    /** The write of a refreshed tool list; a notification is due iff `notify`. */
    method StoreTools(ts: seq<Tool>) returns (notify: bool)
      modifies this`tools
      ensures Fields() == old(Fields()).(tools := ts)
      ensures notify <==> state == Ready
      ensures tools == ts && (!notify ==> Visible(Fields()) == Visible(old(Fields())))
    {
      tools := ts;
      notify := state == Ready;
    }

    method TearDown()
      modifies this`session, this`pid, this`tools
      ensures Fields() == TornDown(old(Fields())) && Visible(Fields()) == []
      ensures !session && pid == 0 && tools == []
    {
      session, pid := false, 0;
      tools := [];
    }

    method CountRun(stable: bool) returns (f: nat)
      modifies this`failures, this`restarts
      ensures Fields() == Counted(old(Fields()), stable) && f == failures
      ensures failures == (if stable then 1 else old(failures) + 1) && restarts == old(restarts) + 1
    {
      if stable {
        failures := 0;
      }
      failures := failures + 1;
      restarts := restarts + 1;
      f := failures;
    }

    /** What the loop does once a run has returned: stop, give up, or restart
        after a pause. */
    method AfterRun(o: Tuning, r: Report) returns (ended: bool, delay: Option<int>)
      modifies this`state, this`written, this`failures, this`restarts
      ensures r.cancelled ==>
                && Fields() == old(Fields()).(state := Stopped) && written == old(written) + [Stopped]
                && ended && delay == None
      ensures !r.cancelled ==>
                && Fields().(state := Starting) == Counted(old(Fields()), r.stable).(state := Starting)
                && (failures >= o.maxFailures ==>
                      state == Failed && written == old(written) + [Failed] && ended && delay == None)
                && (failures < o.maxFailures ==>
                      && failures >= 1 && delay == Some(Delay(o.backoffMin, o.backoffMax, failures))
                      && ended == r.cancelledInPause && state == (if ended then Stopped else Starting)
                      && written == old(written) + if ended then [Starting, Stopped] else [Starting])
    {
      if r.cancelled {
        SetState(Stopped);
        return true, None;
      }
      var f := CountRun(r.stable);
      if f >= o.maxFailures {
        SetState(Failed);
        return true, None;
      }
      delay := Some(Delay(o.backoffMin, o.backoffMax, f));
      SetState(Starting);
      ended := r.cancelledInPause;
      if ended {
        SetState(Stopped);
      }
    }

    /** The restart loop over a script of run reports. Returns the pauses it took. */
    method Run(o: Tuning, script: seq<Report>) returns (delays: seq<int>, ghost runs: seq<bool>)
      requires Fields() == NEW && written == []
      modifies this`state, this`written, this`failures, this`restarts
      ensures Loop(runs, delays, written, state) == Supervise(o, FRESH, script)
      ensures failures == Streak(runs) && restarts == |runs|
    {
      runs, delays := [], [];
      var i, ended := 0, false;
      while i < |script| && !ended
        invariant i <= |script| && failures == Streak(runs) && restarts == |runs| && (ended <==> state != Starting)
        invariant Supervise(o, FRESH, script) == Supervise(o, Loop(runs, delays, written, state), script[i..])
      {
        var r := script[i];
        var delay;
        ended, delay := AfterRun(o, r);
        AppendRun(runs, r.stable);
        if !r.cancelled {
          runs := runs + [r.stable];
        }
        if delay.Some? {
          delays := delays + [delay.value];
        }
        assert script[i..][1..] == script[i + 1..];
        i := i + 1;
      }
    }
  }
}
