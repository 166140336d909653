/** The circuit breaker of one upstream. */
module Breaker {

  import opened Prelude

  /** A breaker with `failures` at most zero is disabled. */
  datatype Config = Config(failures: int, cooldown: int)

  /** `openedAt` is None for the zero time. */
  datatype Brk = Brk(failures: int, openedAt: Option<int>, trial: bool)

  const CLOSED := Brk(0, None, false)

  datatype Label = Disabled | Closed | HalfOpen | Open

  predicate Allows(c: Config, b: Brk, now: int) {
    || c.failures <= 0
    || b.openedAt.None?
    || (now - b.openedAt.value >= c.cooldown && !b.trial)
  }

  /** The breaker after `allow`. */
  function Asked(c: Config, b: Brk, now: int): Brk {
    if c.failures > 0 && b.openedAt.Some? && Allows(c, b, now) then b.(trial := true) else b
  }

  function Succeeded(c: Config, b: Brk): Brk {
    if c.failures <= 0 then b else CLOSED
  }

  function FailedAt(c: Config, b: Brk, now: int): Brk {
    if c.failures <= 0 then b
    else Brk(b.failures + 1, if b.failures + 1 >= c.failures then Some(now) else b.openedAt, false)
  }

  /** A call would be let through whatever the clock says. */
  ghost predicate AlwaysAllows(c: Config, b: Brk) {
    forall now :: Allows(c, b, now)
  }

  /** A call would be turned away whatever the clock says. */
  ghost predicate NeverAllows(c: Config, b: Brk) {
    forall now :: !Allows(c, b, now)
  }

  ghost predicate AllowsFrom(c: Config, b: Brk, from: int) {
    forall now :: Allows(c, b, now) <==> now >= from
  }

  class CircuitBreaker {
    const cfg: Config
    var failures: int
    var openedAt: Option<int>
    var trial: bool

    constructor (cfg: Config)
      ensures this.cfg == cfg && Value() == CLOSED
    {
      this.cfg := cfg;
      failures, openedAt, trial := 0, None, false;
    }

    ghost function Value(): Brk
      reads this
    {
      Brk(failures, openedAt, trial)
    }

    method Allow(now: int) returns (ok: bool)
      modifies this`trial
      ensures ok == Allows(cfg, old(Value()), now) && Value() == Asked(cfg, old(Value()), now)
    {
      if cfg.failures <= 0 {
        return true;
      }
      if openedAt.None? {
        return true;
      }
      if now - openedAt.value < cfg.cooldown || trial {
        return false;
      }
      trial := true;
      return true;
    }

    method Success()
      modifies this`failures, this`openedAt, this`trial
      ensures Value() == Succeeded(cfg, old(Value()))
      ensures cfg.failures > 0 ==> failures == 0 && openedAt == None && !trial
      ensures cfg.failures <= 0 ==> Value() == old(Value())
    {
      if cfg.failures <= 0 {
        return;
      }
      failures, openedAt, trial := 0, None, false;
    }

    method Failure(now: int)
      modifies this`failures, this`openedAt, this`trial
      ensures Value() == FailedAt(cfg, old(Value()), now)
      ensures cfg.failures > 0 ==>
                && failures == old(failures) + 1 && !trial
                && openedAt == if failures >= cfg.failures then Some(now) else old(openedAt)
      ensures cfg.failures <= 0 ==> Value() == old(Value())
    {
      if cfg.failures <= 0 {
        return;
      }
      failures := failures + 1;
      trial := false;
      if failures >= cfg.failures {
        openedAt := Some(now);
      }
    }

    /** The label tells which calls would be let through now, and what was reported so
        far: open with its trial out, open without, or closed. */
    method State() returns (l: Label)
      ensures l == Disabled <==> cfg.failures <= 0
      ensures l == Closed <==> cfg.failures > 0 && AlwaysAllows(cfg, Value())
      ensures l == HalfOpen <==> NeverAllows(cfg, Value())
      ensures forall h :: Value() == Replay(cfg, h) ==> l == LabelAfter(cfg, h)
    {
      RejectsForeverIff(cfg, Value());
      AllowsAlwaysIff(cfg, Value());
      forall h | Value() == Replay(cfg, h) ensures LabelTells(cfg, h, LabelAfter(cfg, h)) {
        LabelFollowsHistory(cfg, h);
      }
      if cfg.failures <= 0 {
        return Disabled;
      }
      if openedAt.None? {
        return Closed;
      }
      if trial {
        return HalfOpen;
      }
      return Open;
    }
  }

  /** A use of the breaker, with the clock reading where it reads one. */
  datatype Event = Ask(now: int) | Succeed | Fail(now: int)

  function Apply(c: Config, b: Brk, e: Event): Brk {
    match e
    case Ask(now) => Asked(c, b, now)
    case Succeed => Succeeded(c, b)
    case Fail(now) => FailedAt(c, b, now)
  }

  /** A fresh breaker after a history of uses. */
  function Replay(c: Config, h: seq<Event>): Brk {
    if h == [] then CLOSED else Apply(c, Replay(c, h[..|h| - 1]), h[|h| - 1])
  }

  /** The use at position `k` asks and is let through. */
  predicate Admits(c: Config, h: seq<Event>, k: nat)
    requires k < |h|
  {
    h[k].Ask? && Allows(c, Replay(c, h[..k]), h[k].now)
  }

  predicate Report(e: Event) {
    e.Succeed? || e.Fail?
  }

  /** Failures reported since the last success. */
  function FailuresSince(h: seq<Event>): nat {
    if h == [] then 0
    else
      match h[|h| - 1]
      case Succeed => 0
      case Fail(_) => FailuresSince(h[..|h| - 1]) + 1
      case Ask(_) => FailuresSince(h[..|h| - 1])
  }

  /** The reading of the last failure since the last success. */
  function LastFailure(h: seq<Event>): Option<int> {
    if h == [] then None
    else
      match h[|h| - 1]
      case Succeed => None
      case Fail(now) => Some(now)
      case Ask(_) => LastFailure(h[..|h| - 1])
  }

  /** The position after the last report. */
  function SinceReport(h: seq<Event>): (k: nat)
    ensures k <= |h| && (k > 0 ==> Report(h[k - 1])) && forall i :: k <= i < |h| ==> h[i].Ask?
  {
    if h == [] then 0 else if Report(h[|h| - 1]) then |h| else SinceReport(h[..|h| - 1])
  }

  /** The breaker is a function of its history: it is open exactly when at least
      `failures` failures were reported since the last success, counted from the
      last of them; and a trial is out exactly when, while open, an ask since the
      last report was let through. */
  lemma {:induction false} BreakerRefinesHistory(c: Config, h: seq<Event>)
    requires c.failures > 0
    ensures var b := Replay(c, h);
            && b.failures == FailuresSince(h)
            && (b.openedAt.Some? <==> FailuresSince(h) >= c.failures)
            && (b.openedAt.Some? ==> b.openedAt == LastFailure(h))
            && (b.trial <==> b.openedAt.Some? && exists k :: SinceReport(h) <= k < |h| && Admits(c, h, k))
  {
    if h != [] {
      var n := |h| - 1;
      var g := h[..n];
      BreakerRefinesHistory(c, g);
      forall k | 0 <= k < n ensures Admits(c, g, k) == Admits(c, h, k) {
        AdmitsInPrefix(c, h, n, k);
      }
      if h[n].Ask? && Admits(c, h, n) {
        assert SinceReport(h) <= n;
      }
    }
  }

  /** A call let through while open has not been reported on yet. */
  ghost predicate TrialOut(c: Config, h: seq<Event>) {
    FailuresSince(h) >= c.failures && exists k :: SinceReport(h) <= k < |h| && Admits(c, h, k)
  }

  /** The state shown after a history, by what was reported and let through in it. */
  ghost function LabelAfter(c: Config, h: seq<Event>): Label {
    if c.failures <= 0 then Disabled
    else if FailuresSince(h) < c.failures then Closed
    else if TrialOut(c, h) then HalfOpen
    else Open
  }

  /** What a label tells about the next call after a history. */
  ghost predicate LabelTells(c: Config, h: seq<Event>, l: Label) {
    && (l == Disabled <==> c.failures <= 0)
    && (l == Closed <==> c.failures > 0 && AlwaysAllows(c, Replay(c, h)))
    && (l == HalfOpen <==> NeverAllows(c, Replay(c, h)))
    && (l == Open ==> LastFailure(h).Some? && AllowsFrom(c, Replay(c, h), LastFailure(h).value + c.cooldown))
  }

  /** The label a history earns is the one that tells which calls it lets through
      next: all while the failures since the last success are below the threshold,
      none while a trial is out, and otherwise those from one cooldown after the
      last failure on. */
  lemma LabelFollowsHistory(c: Config, h: seq<Event>)
    ensures LabelTells(c, h, LabelAfter(c, h))
  {
    if c.failures > 0 {
      BreakerRefinesHistory(c, h);
    }
    RejectsForeverIff(c, Replay(c, h));
    AllowsAlwaysIff(c, Replay(c, h));
  }

  lemma AllowsAlwaysIff(c: Config, b: Brk)
    ensures AlwaysAllows(c, b) <==> c.failures <= 0 || b.openedAt.None?
  {
    if c.failures > 0 && b.openedAt.Some? {
      assert !Allows(c, b, b.openedAt.value + c.cooldown - 1);
    }
  }

  lemma AdmitsInPrefix(c: Config, h: seq<Event>, n: nat, k: nat)
    requires k < n <= |h|
    ensures Admits(c, h[..n], k) == Admits(c, h, k)
  {
    assert h[..n][..k] == h[..k];
  }

  /** A breaker without a threshold lets every call through and never changes. */
  lemma {:induction false} DisabledNeverMoves(c: Config, h: seq<Event>)
    requires c.failures <= 0
    ensures Replay(c, h) == Brk(0, None, false) && AlwaysAllows(c, Replay(c, h))
  {
    if h != [] {
      DisabledNeverMoves(c, h[..|h| - 1]);
    }
  }

  /** While the breaker stays open, two admitted calls are separated by a report. */
  lemma OneTrialBetweenReports(c: Config, h: seq<Event>, i: nat, j: nat)
    requires c.failures > 0 && i < j < |h| && Admits(c, h, i) && Admits(c, h, j)
    requires FailuresSince(h[..i]) >= c.failures
    ensures exists k :: i < k < j && Report(h[k])
  {
    if forall k :: i < k < j ==> !Report(h[k]) {
      TrialHeld(c, h, i, j);
    }
  }

  lemma {:induction false} TrialHeld(c: Config, h: seq<Event>, i: nat, j: nat)
    requires c.failures > 0 && i < j <= |h| && Admits(c, h, i) && FailuresSince(h[..i]) >= c.failures
    requires forall k :: i < k < j ==> h[k].Ask?
    ensures Replay(c, h[..j]).trial && Replay(c, h[..j]).openedAt.Some?
  {
    assert h[..j][..j - 1] == h[..j - 1];
    if j == i + 1 {
      BreakerRefinesHistory(c, h[..i]);
    } else {
      TrialHeld(c, h, i, j - 1);
    }
  }

  /** The clock never runs backwards. */
  ghost predicate Monotone(h: seq<Event>) {
    forall i, j :: 0 <= i < j < |h| && !h[i].Succeed? && !h[j].Succeed? ==> h[i].now <= h[j].now
  }

  /** Calls let through from position `from` on. */
  function AdmittedFrom(c: Config, h: seq<Event>, from: nat): nat {
    if |h| <= from then 0
    else AdmittedFrom(c, h[..|h| - 1], from) + if Admits(c, h, |h| - 1) then 1 else 0
  }

  /** The opening failure at position `o`, and no success after it. */
  ghost predicate OpenStretch(c: Config, h: seq<Event>, o: nat) {
    && o < |h| && h[o].Fail? && FailuresSince(h[..o + 1]) >= c.failures
    && forall k :: o < k < |h| ==> !h[k].Succeed?
  }

  /** Where an open stretch stands after `m` admitted calls: the breaker is open
      since some failure at or after the opening; with no trial out that failure
      came `m` cooldowns after the opening at the earliest; with a trial out it
      came one cooldown sooner and the trial itself was admitted no earlier. */
  ghost predicate Drift(c: Config, h: seq<Event>, o: nat, m: nat)
    requires o < |h| && h[o].Fail?
  {
    var b := Replay(c, h);
    && b.openedAt.Some? && b.failures >= c.failures
    && (exists k :: o <= k < |h| && h[k].Fail? && h[k].now == b.openedAt.value)
    && (!b.trial ==> b.openedAt.value >= h[o].now + m * c.cooldown)
    && (b.trial ==> m >= 1 && b.openedAt.value >= h[o].now + (m - 1) * c.cooldown)
    && (b.trial ==> exists k :: o < k < |h| && h[k].Ask? && h[k].now >= h[o].now + m * c.cooldown)
  }

  lemma OneMore(m: nat, cooldown: int)
    ensures (m + 1) * cooldown == m * cooldown + cooldown
  {
  }

  lemma DriftAsk(c: Config, h: seq<Event>, o: nat, m: nat)
    requires c.failures > 0 && c.cooldown >= 0 && o < |h| - 1 && h[o].Fail? && h[|h| - 1].Ask?
    requires Drift(c, h[..|h| - 1], o, m)
    ensures Drift(c, h, o, m + if Admits(c, h, |h| - 1) then 1 else 0)
  {
    var n := |h| - 1;
    var g := h[..n];
    OneMore(m, c.cooldown);
    var k :| o <= k < |g| && g[k].Fail? && g[k].now == Replay(c, g).openedAt.value;
    assert h[k].Fail? && h[k].now == Replay(c, h).openedAt.value;
    if Replay(c, g).trial {
      var l :| o < l < |g| && g[l].Ask? && g[l].now >= g[o].now + m * c.cooldown;
      assert h[l].Ask? && h[l].now >= h[o].now + m * c.cooldown;
    }
  }

  lemma DriftFail(c: Config, h: seq<Event>, o: nat, m: nat)
    requires c.failures > 0 && c.cooldown >= 0 && o < |h| - 1 && h[o].Fail? && h[|h| - 1].Fail? && Monotone(h)
    requires Drift(c, h[..|h| - 1], o, m)
    ensures Drift(c, h, o, m)
  {
    var n := |h| - 1;
    var g := h[..n];
    var k :| o <= k < |g| && g[k].Fail? && g[k].now == Replay(c, g).openedAt.value;
    assert h[k].now <= h[n].now;
    if Replay(c, g).trial {
      var l :| o < l < |g| && g[l].Ask? && g[l].now >= g[o].now + m * c.cooldown;
      assert h[l].now <= h[n].now;
    }
  }

  lemma {:induction false} OpeningDrift(c: Config, h: seq<Event>, o: nat)
    requires c.failures > 0 && c.cooldown >= 0 && Monotone(h) && OpenStretch(c, h, o)
    ensures Drift(c, h, o, AdmittedFrom(c, h, o + 1))
    decreases |h|
  {
    var n := |h| - 1;
    if n == o {
      assert h[..o + 1] == h;
      BreakerRefinesHistory(c, h);
    } else {
      assert h[..n][..o + 1] == h[..o + 1];
      OpeningDrift(c, h[..n], o);
      if h[n].Ask? {
        DriftAsk(c, h, o, AdmittedFrom(c, h[..n], o + 1));
      } else {
        DriftFail(c, h, o, AdmittedFrom(c, h[..n], o + 1));
      }
    }
  }

  /** After the circuit opens, and as long as no call succeeds, the `m`-th call
      let through comes no earlier than `m` cooldowns after the opening, whatever
      straggling failures are reported in between. */
  lemma OpenCircuitRateBound(c: Config, h: seq<Event>, o: nat, j: nat)
    requires c.failures > 0 && c.cooldown >= 0 && Monotone(h) && OpenStretch(c, h, o)
    requires o < j < |h| && Admits(c, h, j)
    ensures h[j].now >= h[o].now + AdmittedFrom(c, h[..j + 1], o + 1) * c.cooldown
  {
    var g := h[..j];
    assert g[..o + 1] == h[..o + 1] && h[..j + 1][..j] == g;
    OpeningDrift(c, g, o);
    OneMore(AdmittedFrom(c, g, o + 1), c.cooldown);
  }

  /** With no further report to come, a breaker turns every later call away
      exactly when it is open with its trial out. */
  lemma RejectsForeverIff(c: Config, b: Brk)
    ensures NeverAllows(c, b) <==> c.failures > 0 && b.openedAt.Some? && b.trial
    ensures NeverAllows(c, b) ==> forall now :: Asked(c, b, now) == b
  {
    if c.failures > 0 && b.openedAt.Some? && !b.trial {
      assert Allows(c, b, b.openedAt.value + c.cooldown);
    }
    if b.openedAt.None? || c.failures <= 0 {
      assert Allows(c, b, 0);
    }
  }
}
