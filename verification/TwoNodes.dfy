// Two nodes that watch each other: each runs the cycle loop's timer and heart-beat counter for the other,
// and a heart beat is sent only to a peer that is held alive. Time is in seconds of one node's clock and
// real; a heart beat is counted before the countdown of the second in which it arrives.
module TwoNodes {
  import opened KeepAlive

  // ---- one node ----

  // The one-peer ring before and after the countdown of second n; `arrives` tells the seconds in which a
  // heart beat of the peer is counted.
  function Before(arrives: nat -> bool, n: nat): Ring
    requires n > 0
    decreases n, 0
  {
    if arrives(n) then RingStep(Watch(arrives, n - 1), HeartFrom(0)).0 else Watch(arrives, n - 1)
  }

  function Watch(arrives: nat -> bool, n: nat): (r: Ring)
    ensures |r.timers| == 1
    decreases n, 1
  {
    if n == 0 then RingStart(1) else Second(Before(arrives, n)).0
  }

  // The node sends a heart beat in second n, and still holds its peer alive after it.
  predicate Beats(arrives: nat -> bool, n: nat) {
    n > 0 && Second(Before(arrives, n)).1 != []
  }

  function Left(arrives: nat -> bool, n: nat): int {
    Watch(arrives, n).timers[0]
  }

  function Count(arrives: nat -> bool, n: nat): int {
    Watch(arrives, n).counter
  }

  lemma SecondOfOne(t: int, tenths: nat, c: int)
    ensures var (r, sent) := Second(Ring([t], tenths, c));
            && r.timers == [if t - 1 <= 0 then 0 else t - 1] && r.tenths == tenths
            && (sent != [] <==> c + 1 == HEART_PERIOD && t > 1)
            && r.counter == if sent != [] then 0 else c + 1
  {
    assert FirstBeat([t], 1) == if FirstBeat([t], 0) == [] && Alive([t], 0) then [0] else FirstBeat([t], 0);
  }

  // One second, in terms of the peer's timer and the counter.
  lemma SecondOf(arrives: nat -> bool, n: nat)
    requires n > 0
    ensures var t := if arrives(n) then KEEP_ALIVE else Left(arrives, n - 1);
            Left(arrives, n) == if t - 1 <= 0 then 0 else t - 1
    ensures Beats(arrives, n) <==> Count(arrives, n - 1) + 1 == HEART_PERIOD && Left(arrives, n) > 0
    ensures Count(arrives, n) == if Beats(arrives, n) then 0 else Count(arrives, n - 1) + 1
  {
    var r := Watch(arrives, n - 1);
    assert r.timers == [r.timers[0]] && r.timers[0 := KEEP_ALIVE] == [KEEP_ALIVE];
    var t := if arrives(n) then KEEP_ALIVE else Left(arrives, n - 1);
    assert Before(arrives, n) == Ring([t], r.tenths, r.counter);
    SecondOfOne(r.timers[0], r.tenths, r.counter);
    SecondOfOne(KEEP_ALIVE, r.tenths, r.counter);
    hide Second;
  }

  lemma AtStart(arrives: nat -> bool)
    ensures Left(arrives, 0) == KEEP_ALIVE && Count(arrives, 0) == 0
  {
  }

  // The timer is not lower than a second less for each second since the start, or since a heart beat.
  lemma {:induction false} LeftAtLeast(arrives: nat -> bool, n: nat)
    ensures Left(arrives, n) >= KEEP_ALIVE - n
    ensures forall k: nat :: 1 <= k <= n && arrives(k) ==> Left(arrives, n) >= KEEP_ALIVE - (n - k + 1)
  {
    AtStart(arrives);
    if n > 0 {
      LeftAtLeast(arrives, n - 1);
      SecondOf(arrives, n);
    }
    hide Left;
  }

  // And not higher, without a heart beat since.
  lemma {:induction false} LeftSince(arrives: nat -> bool, k: nat, n: nat)
    requires k <= n && (k == 0 || arrives(k)) && forall j: nat :: k < j <= n ==> !arrives(j)
    ensures var passed := if k == 0 then n else n - k + 1;
            Left(arrives, n) == if passed >= KEEP_ALIVE then 0 else KEEP_ALIVE - passed
    decreases n
  {
    AtStart(arrives);
    if n > 0 {
      SecondOf(arrives, n);
      if k < n {
        LeftSince(arrives, k, n - 1);
      }
    }
    hide Left;
  }

  ghost predicate AliveUpTo(arrives: nat -> bool, n: nat) {
    forall i: nat :: 1 <= i <= n ==> Left(arrives, i) > 0
  }

  // A node that holds its peer alive throughout beats every 50 seconds.
  lemma {:induction false} Regular(arrives: nat -> bool, n: nat)
    requires AliveUpTo(arrives, n)
    ensures Count(arrives, n) == n % HEART_PERIOD
    ensures Beats(arrives, n) <==> n > 0 && n % HEART_PERIOD == 0
  {
    AtStart(arrives);
    hide Left, Count;
    if n > 0 {
      Regular(arrives, n - 1);
      SecondOf(arrives, n);
      hide Beats;
      NextMod(n - 1);
    }
  }

  lemma NextMod(n: nat)
    ensures (n + 1) % HEART_PERIOD == if n % HEART_PERIOD + 1 == HEART_PERIOD then 0 else n % HEART_PERIOD + 1
  {
  }

  lemma {:induction false} CountAtMost(arrives: nat -> bool, n: nat)
    ensures 0 <= Count(arrives, n) <= n
    ensures Beats(arrives, n) ==> n >= HEART_PERIOD && Left(arrives, n) > 0
  {
    AtStart(arrives);
    if n > 0 {
      CountAtMost(arrives, n - 1);
      SecondOf(arrives, n);
    }
    hide Left, Count;
  }

  // ---- the second in which something arrives ----

  function Ceil(x: real): int {
    -((-x).Floor)
  }

  lemma CeilShift(n: int, x: real)
    ensures Ceil(n as real + x) == n + Ceil(x)
  {
    assert (-(n as real + x)).Floor == -n + (-x).Floor;
  }

  lemma CeilOf(x: real)
    ensures Ceil(x) as real - 1.0 < x <= Ceil(x) as real
  {
  }

  lemma CeilOrder(x: real, y: real)
    requires x <= y
    ensures Ceil(x) <= Ceil(y)
  {
    CeilOf(x);
    CeilOf(y);
  }

  // ---- two nodes ----

  /** A run of two nodes up to a time, seen from one of them: the other started `off` seconds later (or
      earlier, if negative); `mine` and `other` tell the seconds in which each counts a heart beat; the beat
      that a node sends in its second m takes the node's delay(m). */
  datatype Pair = Pair(off: real, delay: real, mine: nat -> bool, myDelay: nat -> real,
                       other: nat -> bool, otherDelay: nat -> real, until: real)
  {
    function Swap(): Pair {
      Pair(-off, delay, other, otherDelay, mine, myDelay, until - off)
    }

    // I count heart beats exactly when the other's arrive.
    ghost predicate HeardAt(n: nat) {
      mine(n) <==> exists m: nat :: Beats(other, m) && n == Ceil(m as real + off + otherDelay(m))
    }

    ghost predicate Heard() {
      forall n: nat :: n >= 1 && n as real <= until ==> HeardAt(n)
    }

    ghost predicate Delays() {
      forall m: nat :: 0.0 <= myDelay(m) <= delay && 0.0 <= otherDelay(m) <= delay
    }

    ghost predicate IsRun() {
      Delays() && Heard() && Swap().Heard()
    }

    ghost predicate MineAlive() {
      forall n: nat :: n as real <= until ==> Left(mine, n) > 0
    }

    // Neither takes the other for dead.
    ghost predicate BothAlive() {
      MineAlive() && Swap().MineAlive()
    }
  }

  lemma SwapTwice(p: Pair)
    ensures p.Swap().Swap() == p
    ensures p.IsRun() ==> p.Swap().IsRun()
  {
    assert p.Swap().Swap() == p;
  }

  // The offset and the greatest delay, in whole seconds of my clock.
  predicate SafeFor(off: real, delay: real) {
    Ceil(off + delay) <= 10 && Ceil(off + delay) - Ceil(off) <= 9
  }

  predicate Safe(off: real, delay: real) {
    SafeFor(off, delay) && SafeFor(-off, delay)
  }

  // ---- never dead ----

  // The second in which the other's beat of its second m is counted, under the safe bounds.
  lemma ArrivesWithin(p: Pair, m: nat)
    requires p.Delays()
    ensures var e := Ceil(m as real + p.off + p.otherDelay(m));
            m + Ceil(p.off) <= e <= m + Ceil(p.off + p.delay)
  {
    var d := p.otherDelay(m);
    CeilOrder(p.off, p.off + d);
    CeilOrder(p.off + d, p.off + p.delay);
    CeilShift(m, p.off + d);
    assert m as real + p.off + d == m as real + (p.off + d);
    hide Ceil;
  }

  // A beat of the other node that keeps me from taking it for dead in second n.
  lemma SavedBy(p: Pair, n: nat, m: nat)
    requires p.IsRun() && n as real <= p.until && m >= HEART_PERIOD && Beats(p.other, m)
    requires m + Ceil(p.off) >= n - 58 && m + Ceil(p.off + p.delay) <= n && Ceil(p.off) >= -10
    ensures Left(p.mine, n) > 0
  {
    ArrivesWithin(p, m);
    var e := Ceil(m as real + p.off + p.otherDelay(m));
    hide Ceil;
    assert e >= 1 && e as real <= p.until;
    assert p.HeardAt(e) && p.mine(e);
    LeftAtLeast(p.mine, n);
  }

  // The last beat of the other that has surely arrived by second n.
  lemma LastBeat(off: real, delay: real, n: nat) returns (m: nat)
    requires SafeFor(off, delay) && delay >= 0.0 && n >= KEEP_ALIVE
    ensures m >= HEART_PERIOD && m % HEART_PERIOD == 0
    ensures m + Ceil(off) >= n - 58 && m + Ceil(off + delay) <= n
    ensures m as real + off < n as real || m == HEART_PERIOD
  {
    CeilOf(off);
    CeilOrder(off, off + delay);
    var a, z := Ceil(off), Ceil(off + delay);
    hide Ceil;
    var k := (n - z) / HEART_PERIOD;
    assert k >= 1 && HEART_PERIOD * k <= n - z < HEART_PERIOD * k + HEART_PERIOD;
    m := HEART_PERIOD * k;
    if m as real + off >= n as real && k > 1 {
      m := HEART_PERIOD * (k - 1);
    }
  }

  lemma SafeOffset(off: real, delay: real)
    requires Safe(off, delay) && delay >= 0.0
    ensures -10.0 <= off <= 10.0 && -10 <= Ceil(off) <= 10
  {
    CeilOf(off + delay);
    CeilOf(-off + delay);
    CeilOf(off);
    CeilOrder(off, off + delay);
    hide Ceil;
  }

  /** I hold the other alive in every second: by induction on time, over both nodes together, for the other
      has to hold me alive to beat. */
  lemma {:induction false} HoldsAlive(p: Pair, n: nat, first: bool)
    requires p.IsRun() && Safe(p.off, p.delay) && p.delay >= 0.0 && n as real <= p.until
    ensures Left(p.mine, n) > 0
    decreases if first then 2 * n + 100 else 2 * (n as real - p.off).Floor + 101
  {
    SafeOffset(p.off, p.delay);
    LeftAtLeast(p.mine, n);
    if n >= KEEP_ALIVE {
      var m := LastBeat(p.off, p.delay, n);
      SwapTwice(p);
      forall i: nat | 1 <= i <= m ensures Left(p.other, i) > 0 {
        LeftAtLeast(p.other, i);
        if i >= KEEP_ALIVE {
          assert i as real + p.off < n as real;
          hide Ceil, Left;
          HoldsAlive(p.Swap(), i, !first);
        }
      }
      Regular(p.other, m);
      SavedBy(p, n, m);
    }
  }

  /** Two nodes whose start offset and greatest delay are safe never take each other for dead, with no heart
      beat lost and no publish or login between them. */
  lemma NeverMarkedDead(p: Pair)
    requires p.IsRun() && Safe(p.off, p.delay) && p.delay >= 0.0
    ensures p.BothAlive()
  {
    SwapTwice(p);
    forall n: nat | n as real <= p.until ensures Left(p.mine, n) > 0 {
      HoldsAlive(p, n, true);
    }
    forall n: nat | n as real <= p.Swap().until ensures Left(p.Swap().mine, n) > 0 {
      HoldsAlive(p.Swap(), n, true);
    }
  }

  // ---- and no better bound ----

  // A node that hears nothing beats once, in its second 50.
  lemma BeatsOnce(arrives: nat -> bool, m: nat)
    requires forall n: nat :: !arrives(n)
    ensures Beats(arrives, m) <==> m == HEART_PERIOD
  {
    CountAtMost(arrives, m);
    LeftSince(arrives, 0, m);
    if 0 < m < KEEP_ALIVE {
      forall i: nat | 1 <= i <= m ensures Left(arrives, i) > 0 {
        LeftSince(arrives, 0, i);
      }
      Regular(arrives, m);
    }
  }

  // The second of m + off + d, written as a run counts it.
  lemma CeilSum(m: nat, off: real, d: real)
    ensures Ceil(m as real + off + d) == m + Ceil(off + d)
  {
    CeilShift(m, off + d);
    assert m as real + off + d == m as real + (off + d);
    hide Ceil;
  }

  function Never(): nat -> bool {
    (n: nat) => false
  }

  function AtEither(a: int, b: int): nat -> bool {
    (n: nat) => n == a || n == b
  }

  function Always(d: real): nat -> real {
    (m: nat) => d
  }

  // The other's first beat at once, every later one with delay d.
  function LateAfterFirst(d: real): nat -> real {
    (m: nat) => if m == HEART_PERIOD then 0.0 else d
  }

  // The other's first beat arrives after my 60th second.
  function FirstTooLate(off: real, delay: real): Pair {
    var e := 50 + Ceil(-off);
    Pair(off, delay, Never(), Always(0.0), AtEither(e, e), Always(delay), 60.0)
  }

  lemma FirstTooLateHeard(off: real, delay: real, n: nat)
    requires delay >= 0.0 && Ceil(off + delay) > 10
    ensures n <= 60 ==> FirstTooLate(off, delay).HeardAt(n)
    ensures FirstTooLate(off, delay).Swap().HeardAt(n)
  {
    var p := FirstTooLate(off, delay);
    forall m: nat | Beats(p.other, m) ensures Ceil(m as real + off + delay) > 60 {
      CountAtMost(p.other, m);
      CeilSum(m, off, delay);
    }
    CeilSum(50, -off, 0.0);
    assert -off + 0.0 == -off;
    forall m: nat ensures Beats(p.mine, m) <==> m == 50 {
      BeatsOnce(p.mine, m);
    }
    hide Beats, Ceil;
    if n == 50 + Ceil(-off) {
      assert Beats(p.mine, 50) && n == Ceil(50 as real + -off + 0.0);
    }
  }

  lemma FirstTooLateIsRun(off: real, delay: real)
    requires delay >= 0.0 && Ceil(off + delay) > 10
    ensures var p := FirstTooLate(off, delay); p.IsRun() && !p.MineAlive()
  {
    var p := FirstTooLate(off, delay);
    forall n: nat ensures n <= 60 ==> p.HeardAt(n)
                  ensures p.Swap().HeardAt(n)
    {
      FirstTooLateHeard(off, delay, n);
    }
    LeftSince(p.mine, 0, 60);
    assert Left(p.mine, 60) == 0;
    hide Ceil, Left, Beats, Pair.HeardAt;
  }

  // The other's first beat arrives at once in my second 50, the next one not before my second 110.
  function GapTooLong(off: real, delay: real): Pair {
    var e := Ceil(-off);
    Pair(off, delay, AtEither(50, 50), Always(0.0), AtEither(50 + e, 100 + e), LateAfterFirst(delay), 109.0)
  }

  // A node that hears beats around its seconds 50 and 100, or only in 50, beats in 50 and in 100.
  lemma BeatsTwice(arrives: nat -> bool, e: nat, until: nat, m: nat)
    requires arrives(e) && 50 <= e <= 51 && 100 <= until <= e + 58 && m <= until
    ensures Beats(arrives, m) <==> m == 50 || m == 100
  {
    forall i: nat | 1 <= i <= until ensures Left(arrives, i) > 0 {
      LeftAtLeast(arrives, i);
    }
    Regular(arrives, m);
  }

  lemma GapHeard(off: real, delay: real, n: nat)
    requires delay >= 0.0 && Ceil(off) == 0 && Ceil(off + delay) == 10 && n <= 109
    ensures GapTooLong(off, delay).HeardAt(n)
  {
    var p := GapTooLong(off, delay);
    var e := Ceil(-off);
    CeilOf(off);
    CeilOf(-off);
    CeilSum(50, off, 0.0);
    assert off + 0.0 == off;
    BeatsTwice(p.other, 50 + e, 108, 50);
    forall m: nat | Beats(p.other, m) && n == Ceil(m as real + off + p.otherDelay(m)) ensures m == 50 && n == 50 {
      CountAtMost(p.other, m);
      CeilSum(m, off, p.otherDelay(m));
      if m <= 99 {
        BeatsTwice(p.other, 50 + e, 108, m);
      }
    }
    hide Ceil, Beats;
    if n == 50 {
      assert Beats(p.other, 50) && n == Ceil(50 as real + off + p.otherDelay(50));
    }
  }

  // My beats, when I hear one only in my second 50.
  lemma MyBeats(m: nat)
    ensures Beats(AtEither(50, 50), m) ==> m == 50 || m == 100 || m > 109
    ensures m == 50 || m == 100 ==> Beats(AtEither(50, 50), m)
  {
    if m <= 108 {
      BeatsTwice(AtEither(50, 50), 50, 108, m);
    } else {
      CountAtMost(AtEither(50, 50), 109);
      LeftSince(AtEither(50, 50), 50, 109);
    }
  }

  lemma GapHeardBack(off: real, delay: real, n: nat)
    requires Ceil(off) == 0 && n as real <= 109.0 - off
    ensures GapTooLong(off, delay).Swap().HeardAt(n)
  {
    var p := GapTooLong(off, delay);
    var e := Ceil(-off);
    CeilOf(off);
    CeilOf(-off);
    CeilSum(50, -off, 0.0);
    CeilSum(100, -off, 0.0);
    assert -off + 0.0 == -off;
    MyBeats(50);
    MyBeats(100);
    forall m: nat | Beats(p.mine, m) && n == Ceil(m as real + -off + 0.0) ensures m == 50 || m == 100 {
      CeilSum(m, -off, 0.0);
      MyBeats(m);
    }
    hide Ceil, Beats;
    if n == 50 + e {
      assert Beats(p.mine, 50) && n == Ceil(50 as real + -off + 0.0);
    }
    if n == 100 + e {
      assert Beats(p.mine, 100) && n == Ceil(100 as real + -off + 0.0);
    }
  }

  lemma GapTooLongIsRun(off: real, delay: real)
    requires delay >= 0.0 && Ceil(off) == 0 && Ceil(off + delay) == 10
    ensures var p := GapTooLong(off, delay); p.IsRun() && !p.MineAlive()
  {
    var p := GapTooLong(off, delay);
    forall n: nat | n as real <= 109.0 ensures p.HeardAt(n) {
      GapHeard(off, delay, n);
    }
    forall n: nat | n as real <= 109.0 - off ensures p.Swap().HeardAt(n) {
      GapHeardBack(off, delay, n);
    }
    LeftSince(p.mine, 50, 109);
    assert Left(p.mine, 109) == 0;
    hide Ceil, Left, Beats, Pair.HeardAt;
  }

  // Unsafe from my side: a run in which I take the other for dead.
  lemma DeadRun(off: real, delay: real) returns (p: Pair)
    requires delay >= 0.0 && !SafeFor(off, delay) && (Ceil(off + delay) > 10 || Ceil(-off + delay) <= 10)
    ensures p.off == off && p.delay == delay && p.IsRun() && !p.MineAlive()
  {
    if Ceil(off + delay) > 10 {
      FirstTooLateIsRun(off, delay);
      p := FirstTooLate(off, delay);
    } else {
      CeilOf(off);
      CeilOf(off + delay);
      CeilOf(-off + delay);
      hide Ceil;
      GapTooLongIsRun(off, delay);
      p := GapTooLong(off, delay);
    }
  }

  lemma SomeDeadRun(off: real, delay: real) returns (p: Pair)
    requires delay >= 0.0 && !Safe(off, delay)
    ensures p.off == off && p.delay == delay && p.IsRun() && !p.BothAlive()
  {
    if !SafeFor(off, delay) && (Ceil(off + delay) > 10 || Ceil(-off + delay) <= 10) {
      p := DeadRun(off, delay);
    } else {
      assert -(-off) == off;
      var q := DeadRun(-off, delay);
      SwapTwice(q);
      p := q.Swap();
      SwapTwice(p);
      assert p.Swap() == q;
    }
  }

  /** The exact bound: for a given start offset and greatest delay, no run of two nodes marks a node dead if
      and only if the offset and delay are safe. */
  lemma NeverDeadIffSafe(off: real, delay: real)
    requires delay >= 0.0
    ensures (forall p: Pair :: p.IsRun() && p.off == off && p.delay == delay ==> p.BothAlive()) <==> Safe(off, delay)
  {
    hide Pair.IsRun, Pair.BothAlive, Safe;
    if Safe(off, delay) {
      forall p: Pair | p.IsRun() && p.off == off && p.delay == delay ensures p.BothAlive() {
        NeverMarkedDead(p);
      }
    } else {
      var p := SomeDeadRun(off, delay);
    }
  }

  /** In whole seconds: safe is an offset and delay of at most 10 together, with a delay of at most 9. */
  lemma SafeInWholeSeconds(off: int, delay: nat)
    ensures Safe(off as real, delay as real) <==> off + delay <= 10 && -off + delay <= 10 && delay <= 9
  {
    CeilShift(off, 0.0);
    CeilShift(off + delay, 0.0);
    CeilShift(-off, 0.0);
    CeilShift(-off + delay, 0.0);
    assert off as real + delay as real == (off + delay) as real + 0.0;
    assert -(off as real) + delay as real == (-off + delay) as real + 0.0;
    assert off as real + 0.0 == off as real && (-off) as real + 0.0 == -(off as real);
    assert Ceil(0.0) == 0;
    hide Ceil;
  }

  /** Nine seconds together are always safe; less than ten are not: a node that starts a twentieth of a second
      later, and beats that take up to 9.9 seconds, can be taken for dead. */
  lemma NineIsEnoughTenIsNot(off: real, delay: real)
    requires delay >= 0.0
    ensures off + delay <= 9.0 && -off + delay <= 9.0 ==> Safe(off, delay)
    ensures 0.05 + 9.9 < 10.0 && !Safe(0.05, 9.9)
  {
    if off + delay <= 9.0 && -off + delay <= 9.0 {
      CeilOf(off);
      CeilOf(-off);
      CeilOf(off + delay);
      CeilOf(-off + delay);
      hide Ceil;
    }
    assert Ceil(-0.05 + 9.9) == 10 && Ceil(-0.05) == 0;
  }

  // ---- a run that is safe ----

  // A beat of the peer is counted once in 50 seconds.
  function Periodically(first: int): nat -> bool {
    (n: nat) => n >= first >= 1 && (n - first) % HEART_PERIOD == 0
  }

  // Both beat every 50 seconds and nothing is delayed.
  function Steady(off: real, delay: real, until: real): Pair {
    Pair(off, delay, Periodically(50 + Ceil(off)), Always(0.0), Periodically(50 + Ceil(-off)), Always(0.0), until)
  }

  // The last period before n.
  lemma Phase(first: int, n: nat) returns (k: nat)
    requires 1 <= first <= n
    ensures first <= k <= n < k + HEART_PERIOD && Periodically(first)(k)
  {
    k := n - (n - first) % HEART_PERIOD;
    assert (k - first) % HEART_PERIOD == 0 by {
      assert k - first == HEART_PERIOD * ((n - first) / HEART_PERIOD);
    }
  }

  lemma PeriodicallyAlive(first: int, n: nat)
    requires 1 <= first <= KEEP_ALIVE
    ensures Left(Periodically(first), n) > 0
  {
    LeftAtLeast(Periodically(first), n);
    if n >= KEEP_ALIVE {
      var k := Phase(first, n);
    }
  }

  lemma SteadyBeats(first: int, m: nat)
    requires 1 <= first <= KEEP_ALIVE
    ensures Beats(Periodically(first), m) <==> m > 0 && m % HEART_PERIOD == 0
  {
    forall i: nat | 1 <= i <= m ensures Left(Periodically(first), i) > 0 {
      PeriodicallyAlive(first, i);
    }
    Regular(Periodically(first), m);
  }

  // What one node counts when the other, whose own first count is at `other`, beats every 50 seconds.
  lemma SteadyHeard(off: real, other: int, n: nat)
    requires 1 <= other <= KEEP_ALIVE && -10 <= Ceil(off) <= 10
    ensures Periodically(50 + Ceil(off))(n)
            <==> exists m: nat :: Beats(Periodically(other), m) && n == Ceil(m as real + off + 0.0)
  {
    var a := Ceil(off);
    assert off + 0.0 == off;
    forall m: nat ensures Ceil(m as real + off + 0.0) == m + a
                  ensures Beats(Periodically(other), m) <==> m > 0 && m % HEART_PERIOD == 0
    {
      CeilSum(m, off, 0.0);
      SteadyBeats(other, m);
    }
    hide Beats, Ceil;
    if Periodically(50 + a)(n) {
      var m := n - a;
      assert m % HEART_PERIOD == 0 by { assert m == (n - (50 + a)) + 50; }
      assert Beats(Periodically(other), m) && n == Ceil(m as real + off + 0.0);
    }
    if m: nat :| Beats(Periodically(other), m) && n == Ceil(m as real + off + 0.0) {
      assert m >= HEART_PERIOD && (n - (50 + a)) % HEART_PERIOD == 0 by { assert n - (50 + a) == m - 50; }
    }
  }

  // One side: the other's beats arrive without delay.
  lemma SideHeardAt(p: Pair, other: int, n: nat)
    requires 1 <= other <= KEEP_ALIVE && -10 <= Ceil(p.off) <= 10
    requires p.mine == Periodically(50 + Ceil(p.off)) && p.other == Periodically(other) && p.otherDelay == Always(0.0)
    ensures p.HeardAt(n)
  {
    SteadyHeard(p.off, other, n);
    hide Ceil, Beats, Periodically;
    assert forall m: nat :: p.otherDelay(m) == 0.0;
  }

  lemma SteadyHeardAt(off: real, delay: real, until: real, n: nat)
    requires -10 <= Ceil(off) <= 10 && -10 <= Ceil(-off) <= 10
    ensures Steady(off, delay, until).HeardAt(n) && Steady(off, delay, until).Swap().HeardAt(n)
  {
    hide Ceil, Beats, Periodically, Pair.HeardAt;
    var p := Steady(off, delay, until);
    SideHeardAt(p, 50 + Ceil(-off), n);
    SideHeardAt(p.Swap(), 50 + Ceil(off), n);
  }

  /** Safe offsets and delays do have runs, of any length: both nodes beat every 50 seconds, and both stay
      alive. */
  lemma SteadyIsRun(off: real, delay: real, until: real)
    requires delay >= 0.0 && Safe(off, delay)
    ensures Steady(off, delay, until).IsRun() && Steady(off, delay, until).BothAlive()
    ensures Steady(off, delay, until).off == off && Steady(off, delay, until).delay == delay
  {
    var p := Steady(off, delay, until);
    SafeOffset(off, delay);
    SafeOffset(-off, delay) by { assert -(-off) == off; }
    forall n: nat ensures p.HeardAt(n) && p.Swap().HeardAt(n) {
      SteadyHeardAt(off, delay, until, n);
    }
    hide Ceil, Pair.HeardAt, Safe;
    NeverMarkedDead(p);
  }
}
