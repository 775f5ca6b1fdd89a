// Liveness of cluster peers: the countdown of one node object, the one-second loop over the nodes
// with its heart-beat counter, and two nodes watching each other.
module KeepAlive {

  const KEEP_ALIVE := 60
  const HEART_PERIOD := 50
  const TIME_1_SECOND := 10

  // ---- one node object ----

  datatype Call = Refresh | Escape

  // KeepAliveTimeOut after these calls.
  function Timer(calls: seq<Call>): int {
    if calls == [] then KEEP_ALIVE
    else
      var t := Timer(calls[..|calls| - 1]);
      if calls[|calls| - 1].Refresh? then KEEP_ALIVE
      else if t - 1 <= 0 then 0 else t - 1
  }

  // The number of Escape calls after the last Refresh (or since creation).
  function Quiet(calls: seq<Call>): nat {
    if calls == [] || calls[|calls| - 1].Refresh? then 0 else Quiet(calls[..|calls| - 1]) + 1
  }

  class ClusterNodeInfo {
    var KeepAliveTimeOut: int
    ghost var calls: seq<Call>

    // The 8-bit field never leaves 0..60, so it does not wrap.
    ghost predicate Valid()
      reads this
    {
      KeepAliveTimeOut == Timer(calls) && 0 <= KeepAliveTimeOut <= KEEP_ALIVE
    }

    constructor ()
      ensures Valid() && calls == []
    {
      KeepAliveTimeOut, calls := KEEP_ALIVE, [];
    }

    method UpdateKeepAliveTimeout()
      requires Valid()
      modifies this
      ensures Valid() && calls == old(calls) + [Refresh]
    {
      KeepAliveTimeOut := KEEP_ALIVE;
      calls := calls + [Refresh];
    }

    /** Reports alive if and only if fewer than 60 calls, this one included, came since the refresh. */
    method KeepAliveTimeEscape1Sec() returns (left: int, alive: bool)
      requires Valid()
      modifies this
      ensures Valid() && calls == old(calls) + [Escape] && left == KeepAliveTimeOut
      ensures alive <==> Quiet(calls) < 60
    {
      calls := calls + [Escape];
      TimerIsQuiet(calls);
      TimerIsQuiet(calls[..|calls| - 1]);
      KeepAliveTimeOut := KeepAliveTimeOut - 1;
      if KeepAliveTimeOut <= 0 {
        KeepAliveTimeOut := 0;
        return 0, false;
      }
      return KeepAliveTimeOut, true;
    }
  }

  /** The countdown over any mix of calls: 60 minus the calls since the last refresh, never below 0. */
  lemma {:induction false} TimerIsQuiet(calls: seq<Call>)
    ensures Timer(calls) == if Quiet(calls) < 60 then 60 - Quiet(calls) else 0
    ensures 0 <= Timer(calls) <= 60
  {
    if calls != [] {
      TimerIsQuiet(calls[..|calls| - 1]);
    }
  }

  // ---- the one-second loop over the peers ----

  // What one second does to the timers.
  function Tick(timers: seq<int>): seq<int> {
    seq(|timers|, i requires 0 <= i < |timers| => if timers[i] - 1 <= 0 then 0 else timers[i] - 1)
  }

  predicate Alive(timers: seq<int>, i: nat)
    requires i < |timers|
  {
    timers[i] > 1
  }

  // The nodes a heart beat goes to when the counter arrives.
  ghost predicate BeatsAt(timers: seq<int>, i: nat) {
    && i < |timers| && Alive(timers, i) && forall j :: 0 <= j < i ==> !Alive(timers, j)
  }

  // If some node up to j is alive, one of them is the first.
  lemma {:induction false} FirstAlive(timers: seq<int>, j: nat)
    requires j < |timers| && Alive(timers, j)
    ensures exists i: nat :: i <= j && BeatsAt(timers, i)
    decreases j
  {
    if l :| 0 <= l < j && Alive(timers, l) {
      FirstAlive(timers, l);
    } else {
      assert BeatsAt(timers, j);
    }
  }

  // The first k timers counted down.
  function TickFirst(timers: seq<int>, k: nat): seq<int>
    requires k <= |timers|
  {
    Tick(timers)[..k] + timers[k..]
  }

  lemma TickOne(timers: seq<int>, k: nat)
    requires k < |timers|
    ensures TickFirst(timers, k)[k] == timers[k]
    ensures TickFirst(timers, k + 1) == TickFirst(timers, k)[k := Tick(timers)[k]]
    ensures Tick(TickFirst(timers, k))[k] == Tick(timers)[k] && Alive(TickFirst(timers, k), k) == Alive(timers, k)
    ensures FirstBeat(timers, k + 1) == if FirstBeat(timers, k) == [] && Alive(timers, k) then [k] else FirstBeat(timers, k)
    ensures AliveFirst(timers, k + 1) == AliveFirst(timers, k) + if Alive(timers, k) then [k] else []
  {
  }

  lemma TickEnds(timers: seq<int>)
    ensures TickFirst(timers, 0) == timers && TickFirst(timers, |timers|) == Tick(timers)
    ensures FirstBeat(timers, 0) == [] && AliveFirst(timers, 0) == []
  {
  }

  // The first alive node among the first k, if any.
  function FirstBeat(timers: seq<int>, k: nat): seq<nat>
    requires k <= |timers|
  {
    if k == 0 then []
    else if FirstBeat(timers, k - 1) == [] && Alive(timers, k - 1) then [k - 1]
    else FirstBeat(timers, k - 1)
  }

  lemma {:induction false} FirstBeatIs(timers: seq<int>, k: nat)
    requires k <= |timers|
    ensures forall i: nat :: i in FirstBeat(timers, k) <==> i < k && BeatsAt(timers, i)
    ensures |FirstBeat(timers, k)| <= 1
  {
    if k > 0 {
      var before := FirstBeat(timers, k - 1);
      FirstBeatIs(timers, k - 1);
      if before != [] {
        assert before[0] in before && BeatsAt(timers, before[0]);
      } else {
        forall j | 0 <= j < k - 1 ensures !Alive(timers, j) {
          if Alive(timers, j) {
            FirstAlive(timers, j);
          }
        }
      }
    }
  }

  // The alive nodes among the first k, in order.
  function AliveFirst(timers: seq<int>, k: nat): seq<nat>
    requires k <= |timers|
  {
    if k == 0 then [] else AliveFirst(timers, k - 1) + if Alive(timers, k - 1) then [k - 1] else []
  }

  lemma {:induction false} AliveFirstIs(timers: seq<int>, k: nat)
    requires k <= |timers|
    ensures forall i: nat :: i in AliveFirst(timers, k) <==> i < k && Alive(timers, i)
    ensures forall i :: 0 <= i < |AliveFirst(timers, k)| ==> AliveFirst(timers, k)[i] < k
    ensures forall i, j :: 0 <= i < j < |AliveFirst(timers, k)| ==> AliveFirst(timers, k)[i] < AliveFirst(timers, k)[j]
  {
    if k > 0 {
      AliveFirstIs(timers, k - 1);
    }
  }

  /** The cycle loop's state: the peers' timers, the tenths of the running second, the heart-beat counter. */
  datatype Ring = Ring(timers: seq<int>, tenths: nat, counter: int)

  // What happens once a second; the second component are the peers that are sent a heart beat.
  function Second(r: Ring): (Ring, seq<nat>) {
    var sent := if r.counter + 1 == HEART_PERIOD then FirstBeat(r.timers, |r.timers|) else [];
    (r.(timers := Tick(r.timers), counter := if sent != [] then 0 else r.counter + 1), sent)
  }

  // What the loop handles: its ticker, a heart beat of a peer, a publish or login for all, a hand-off.
  datatype RingEvent = TenthPasses | HeartFrom(i: nat) | ToAll | HandOffTo(i: nat)

  // The new state, and the peers that are sent something; a hand-off as intended.
  function RingStep(r: Ring, e: RingEvent): (Ring, seq<nat>) {
    match e
    case TenthPasses =>
      if r.tenths + 1 == TIME_1_SECOND then (Second(r).0.(tenths := 0), Second(r).1)
      else (r.(tenths := r.tenths + 1), [])
    case HeartFrom(i) => (if i < |r.timers| then r.(timers := r.timers[i := KEEP_ALIVE]) else r, [])
    case ToAll => (r.(timers := Tick(r.timers)), AliveFirst(r.timers, |r.timers|))
    case HandOffTo(i) =>
      if i < |r.timers| then (r.(timers := r.timers[i := Tick(r.timers)[i]]), if Alive(r.timers, i) then [i] else [])
      else (r, [])
  }

  function RingStart(n: nat): Ring {
    Ring(seq(n, _ => KEEP_ALIVE), 0, 0)
  }

  function RingAfter(r: Ring, events: seq<RingEvent>): Ring {
    if events == [] then r
    else
      var n := |events| - 1;
      RingStep(RingAfter(r, events[..n]), events[n]).0
  }

  class ClusterServerCycle {
    var clusterServerNodes: seq<ClusterNodeInfo>
    var timeEscape100MS: nat
    var timeEscape1S: int

    ghost predicate Valid()
      reads `clusterServerNodes, clusterServerNodes
    {
      && (forall i :: 0 <= i < |clusterServerNodes| ==> clusterServerNodes[i].Valid())
      && (forall i, j :: 0 <= i < j < |clusterServerNodes| ==> clusterServerNodes[i] != clusterServerNodes[j])
    }

    ghost function Timers(): (r: seq<int>)
      reads `clusterServerNodes, clusterServerNodes
      ensures |r| == |clusterServerNodes|
    {
      var nodes := clusterServerNodes;
      seq(|nodes|, i requires 0 <= i < |nodes| reads nodes => nodes[i].KeepAliveTimeOut)
    }

    ghost function Value(): Ring
      reads this, clusterServerNodes
    {
      Ring(Timers(), timeEscape100MS, timeEscape1S)
    }

    constructor ()
      ensures Valid() && Value() == RingStart(0)
    {
      clusterServerNodes, timeEscape100MS, timeEscape1S := [], 0, 0;
    }

    /** Every event the loop receives is one step of the ring, except a hand-off: as written the loop dies on
        it, in splitting the address, before it looks at any timer. */
    method Handle(e: RingEvent) returns (died: bool, sent: seq<nat>)
      requires Valid()
      modifies this`timeEscape100MS, this`timeEscape1S, clusterServerNodes
      ensures Valid() && clusterServerNodes == old(clusterServerNodes)
      ensures died <==> e.HandOffTo?
      ensures if died then Value() == old(Value()) && sent == [] else (Value(), sent) == RingStep(old(Value()), e)
    {
      hide Tick, FirstBeat, AliveFirst, Alive, Timers;
      died, sent := false, [];
      match e {
        case TenthPasses => sent := Tenth();
        case HeartFrom(i) =>
          if i < |clusterServerNodes| {
            Beat(i);
          }
        case ToAll => sent := SendToAlive();
        case HandOffTo(i) => died := true;
      }
    }

    /** The for-select loop, over the events in the order in which it receives them: it ends at the first
        hand-off. */
    method startClusterServerCycly(events: seq<RingEvent>) returns (done: nat)
      requires Valid()
      modifies this`timeEscape100MS, this`timeEscape1S, clusterServerNodes
      ensures Valid() && clusterServerNodes == old(clusterServerNodes)
      ensures done <= |events| && Value() == RingAfter(old(Value()), events[..done])
      ensures forall k :: 0 <= k < done ==> !events[k].HandOffTo?
      ensures done < |events| ==> events[done].HandOffTo?
    {
      hide RingStep, Timers;
      done := 0;
      while done < |events|
        invariant done <= |events| && Valid() && clusterServerNodes == old(clusterServerNodes)
        invariant Value() == RingAfter(old(Value()), events[..done])
        invariant forall k :: 0 <= k < done ==> !events[k].HandOffTo?
      {
        var died, sent := Handle(events[done]);
        if died {
          return;
        }
        assert events[..done + 1][..done] == events[..done];
        done := done + 1;
      }
    }

    /** A hand-off as intended: it goes to its peer if that is alive, and counts its timer down. */
    method HandOff(i: nat) returns (sent: seq<nat>)
      requires Valid()
      modifies clusterServerNodes
      ensures Valid() && clusterServerNodes == old(clusterServerNodes)
      ensures (Value(), sent) == RingStep(old(Value()), HandOffTo(i))
      ensures forall j: nat :: j in sent <==> j == i < |clusterServerNodes| && old(Timers())[i] > 1
    {
      hide Tick, Timers;
      sent := [];
      if i < |clusterServerNodes| {
        var left, alive := Escape(i);
        sent := if alive then [i] else [];
      }
    }

    /** The ticker: only every tenth tick is a second, and counts the timers and the heart-beat counter. */
    method Tenth() returns (sent: seq<nat>)
      requires Valid()
      modifies this`timeEscape100MS, this`timeEscape1S, clusterServerNodes
      ensures Valid() && clusterServerNodes == old(clusterServerNodes)
      ensures (Value(), sent) == RingStep(old(Value()), TenthPasses)
      ensures timeEscape100MS == if old(timeEscape100MS) == 9 then 0 else old(timeEscape100MS) + 1
      ensures Timers() == if old(timeEscape100MS) == 9 then Tick(old(Timers())) else old(Timers())
      ensures forall i: nat :: i in sent <==>
                old(timeEscape100MS) == 9 && old(timeEscape1S) == 49 && BeatsAt(old(Timers()), i)
      ensures timeEscape1S == old(timeEscape1S) + (if old(timeEscape100MS) == 9 then 1 else 0)
              || (sent != [] && timeEscape1S == 0)
    {
      hide Tick, FirstBeat, Timers;
      sent := [];
      timeEscape100MS := timeEscape100MS + 1;
      if timeEscape100MS == TIME_1_SECOND {
        sent := OneSecond();
        timeEscape100MS := 0;
      }
    }

    // A heart beat of peer i.
    method Beat(i: nat)
      requires Valid() && i < |clusterServerNodes|
      modifies clusterServerNodes[i]
      ensures Valid() && Timers() == old(Timers())[i := KEEP_ALIVE]
    {
      ghost var calls := clusterServerNodes[i].calls;
      clusterServerNodes[i].UpdateKeepAliveTimeout();
      assert clusterServerNodes[i].calls[..|calls|] == calls;
    }

    /** As written, the counter is reset inside the loop over the nodes: when it arrives at 50, only the
        first peer that is alive is sent a heart beat, and if there is none the counter runs on. */
    method OneSecond() returns (sent: seq<nat>)
      requires Valid()
      modifies this`timeEscape1S, clusterServerNodes
      ensures Valid() && clusterServerNodes == old(clusterServerNodes)
      ensures Timers() == Tick(old(Timers()))
      ensures forall i: nat :: i in sent <==> old(timeEscape1S) + 1 == 50 && BeatsAt(old(Timers()), i)
      ensures timeEscape1S == if sent != [] then 0 else old(timeEscape1S) + 1
      ensures |sent| <= 1
      ensures (Value(), sent) == Second(old(Value()))
    {
      hide Tick, TickFirst, FirstBeat, Timers, Alive;
      ghost var timers, hit := Timers(), timeEscape1S + 1 == HEART_PERIOD;
      TickEnds(timers);
      sent := [];
      timeEscape1S := timeEscape1S + 1;
      for k := 0 to |clusterServerNodes|
        invariant Valid() && clusterServerNodes == old(clusterServerNodes)
        invariant Timers() == TickFirst(timers, k)
        invariant sent == if hit then FirstBeat(timers, k) else []
        invariant timeEscape1S == if sent != [] then 0 else old(timeEscape1S) + 1
      {
        TickOne(timers, k);
        var left, alive := Escape(k);
        if alive && timeEscape1S == HEART_PERIOD {
          sent := sent + [k];
          timeEscape1S := 0;
        }
      }
      FirstBeatIs(timers, |timers|);
    }

    // The countdown of one peer.
    method Escape(k: nat) returns (left: int, alive: bool)
      requires Valid() && k < |clusterServerNodes|
      modifies clusterServerNodes[k]
      ensures Valid() && Timers() == old(Timers())[k := Tick(old(Timers()))[k]]
      ensures alive <==> Alive(old(Timers()), k)
    {
      ghost var calls := clusterServerNodes[k].calls;
      left, alive := clusterServerNodes[k].KeepAliveTimeEscape1Sec();
      assert clusterServerNodes[k].calls[..|calls|] == calls;
      TimerIsQuiet(calls);
    }

    /** A publish or a login goes once to each peer that is alive, in order, and the test for being
        alive counts down every peer's timer by one. */
    method SendToAlive() returns (sent: seq<nat>)
      requires Valid()
      modifies clusterServerNodes
      ensures Valid() && Timers() == Tick(old(Timers())) && sent == AliveFirst(old(Timers()), |clusterServerNodes|)
      ensures forall i: nat :: i in sent <==> i < |clusterServerNodes| && Alive(old(Timers()), i)
      ensures forall i, j :: 0 <= i < j < |sent| ==> sent[i] < sent[j]
    {
      hide Tick, TickFirst, AliveFirst, Timers, Alive;
      ghost var timers := Timers();
      TickEnds(timers);
      sent := [];
      for k := 0 to |clusterServerNodes|
        invariant Valid()
        invariant Timers() == TickFirst(timers, k) && sent == AliveFirst(timers, k)
      {
        TickOne(timers, k);
        var left, alive := Escape(k);
        if alive {
          sent := sent + [k];
        }
      }
      AliveFirstIs(timers, |timers|);
    }
  }

  /** Every peer that is alive gets its heart beat if and only if no two peers are alive. */
  lemma BeatReachesAllIffOneAlive(timers: seq<int>)
    ensures (forall i: nat :: i < |timers| && Alive(timers, i) ==> BeatsAt(timers, i))
            <==> (forall i: nat, j: nat :: i < j < |timers| ==> !(Alive(timers, i) && Alive(timers, j)))
  {
    if i: nat, j: nat :| i < j < |timers| && Alive(timers, i) && Alive(timers, j) {
      assert !BeatsAt(timers, j);
    }
  }

  // ---- what the events say, by themselves ----

  // How many tenths of a second pass in these events.
  function Tenths(events: seq<RingEvent>): nat {
    if events == [] then 0
    else Tenths(events[..|events| - 1]) + if events[|events| - 1].TenthPasses? then 1 else 0
  }

  // How often peer i is counted down since its last heart beat: once in every tenth tenth of a second, for
  // every publish and login, and for every hand-off to it.
  function Countdowns(events: seq<RingEvent>, i: nat): nat {
    if events == [] then 0
    else
      var before := Countdowns(events[..|events| - 1], i);
      match events[|events| - 1]
      case TenthPasses => before + if Tenths(events) % 10 == 0 then 1 else 0
      case HeartFrom(j) => if j == i then 0 else before
      case ToAll => before + 1
      case HandOffTo(j) => before + if j == i then 1 else 0
  }

  // The publishes, logins and hand-offs to peer i in these events.
  function Sends(events: seq<RingEvent>, i: nat): nat {
    if events == [] then 0
    else
      var e := events[|events| - 1];
      Sends(events[..|events| - 1], i) + if e == ToAll || e == HandOffTo(i) then 1 else 0
  }

  lemma OneEvent(events: seq<RingEvent>, e: RingEvent, i: nat)
    ensures var t := Tenths(events) + if e.TenthPasses? then 1 else 0;
            && Tenths(events + [e]) == t
            && Countdowns(events + [e], i)
               == (match e
                   case TenthPasses => Countdowns(events, i) + if t % 10 == 0 then 1 else 0
                   case HeartFrom(j) => if j == i then 0 else Countdowns(events, i)
                   case ToAll => Countdowns(events, i) + 1
                   case HandOffTo(j) => Countdowns(events, i) + if j == i then 1 else 0)
            && Sends(events + [e], i) == Sends(events, i) + if e == ToAll || e == HandOffTo(i) then 1 else 0
  {
    assert (events + [e])[..|events|] == events;
  }

  /** Since the last heart beat of the peer, the countdowns are the whole seconds that have ended, of ten
      tenths each from the start of the loop, and the publishes, logins and hand-offs to it. */
  lemma {:induction false} CountdownsSince(a: seq<RingEvent>, i: nat, z: seq<RingEvent>)
    requires HeartFrom(i) !in z
    ensures Countdowns(a + [HeartFrom(i)] + z, i) == Tenths(a + z) / 10 - Tenths(a) / 10 + Sends(z, i)
    ensures Tenths(a + [HeartFrom(i)] + z) == Tenths(a + z) >= Tenths(a)
    decreases |z|
  {
    var b := a + [HeartFrom(i)];
    hide Tenths, Countdowns, Sends;
    if z == [] {
      OneEvent(a, HeartFrom(i), i);
      NoEvents(a, b, i);
    } else {
      var y, e := z[..|z| - 1], z[|z| - 1];
      LastOf(a, z);
      LastOf(b, z);
      CountdownsSince(a, i, y);
      OneEvent(b + y, e, i);
      OneEvent(a + y, e, i);
      OneEvent(y, e, i);
      TenTenths(Tenths(a + y));
    }
  }

  lemma NoEvents(a: seq<RingEvent>, b: seq<RingEvent>, i: nat)
    ensures a + [] == a && b + [] == b && Sends([], i) == 0
  {
  }

  lemma LastOf(a: seq<RingEvent>, z: seq<RingEvent>)
    requires z != []
    ensures var y, e := z[..|z| - 1], z[|z| - 1];
            z == y + [e] && a + z == a + y + [e] && e in z && forall x :: x in y ==> x in z
  {
  }

  lemma TenTenths(n: nat)
    ensures (n + 1) / 10 == n / 10 + if (n + 1) % 10 == 0 then 1 else 0
    ensures (n + 1) % 10 == if n % 10 == 9 then 0 else n % 10 + 1
  {
  }

  /** The loop's tenths are what is left of the tenths that have passed, over ten. */
  lemma {:induction false} TenthsLeft(n: nat, events: seq<RingEvent>)
    ensures RingAfter(RingStart(n), events).tenths == Tenths(events) % 10
  {
    if events != [] {
      var k := |events| - 1;
      TenthsLeft(n, events[..k]);
      TenTenths(Tenths(events[..k]));
      hide Tick, FirstBeat, AliveFirst;
    }
  }

  // ---- whole runs of the loop ----

  // The calls on the object of peer i during these events.
  function CallsOn(r: Ring, events: seq<RingEvent>, i: nat): seq<Call> {
    if events == [] then []
    else
      var n := |events| - 1;
      CallsOn(r, events[..n], i) + CallOf(RingAfter(r, events[..n]), events[n], i)
  }

  lemma OneCall(calls: seq<Call>, c: Call)
    ensures Timer(calls + [c]) == if c.Refresh? then KEEP_ALIVE else if Timer(calls) - 1 <= 0 then 0 else Timer(calls) - 1
    ensures Quiet(calls + [c]) == if c.Refresh? then 0 else Quiet(calls) + 1
  {
    assert (calls + [c])[..|calls|] == calls;
  }

  // What one event means for the object of peer i.
  function CallOf(r: Ring, e: RingEvent, i: nat): seq<Call> {
    match e
    case TenthPasses => if r.tenths + 1 == TIME_1_SECOND then [Escape] else []
    case HeartFrom(j) => if j == i then [Refresh] else []
    case ToAll => [Escape]
    case HandOffTo(j) => if j == i then [Escape] else []
  }

  lemma StepTimer(r: Ring, e: RingEvent, i: nat)
    requires i < |r.timers|
    ensures var r', t := RingStep(r, e).0, r.timers[i];
            && |r'.timers| == |r.timers|
            && r'.timers[i] == if CallOf(r, e, i) == [] then t
                               else if CallOf(r, e, i)[0].Refresh? then KEEP_ALIVE
                               else if t - 1 <= 0 then 0 else t - 1
  {
    hide FirstBeat, AliveFirst;
  }

  lemma {:induction false} TimerAfter(n: nat, events: seq<RingEvent>, i: nat)
    requires i < n
    ensures var r := RingAfter(RingStart(n), events);
            |r.timers| == n && r.timers[i] == Timer(CallsOn(RingStart(n), events, i))
  {
    if events != [] {
      var k := |events| - 1;
      var r, before := RingAfter(RingStart(n), events[..k]), CallsOn(RingStart(n), events[..k], i);
      TimerAfter(n, events[..k], i);
      hide RingStep, CallOf, Timer;
      StepTimer(r, events[k], i);
      var call := CallOf(r, events[k], i);
      assert |call| <= 1 && (call == [] || call == [Refresh] || call == [Escape]) by { OneCallEach(r, events[k], i); }
      OneCall(before, Refresh);
      OneCall(before, Escape);
      assert before + [] == before;
    }
  }

  lemma OneCallEach(r: Ring, e: RingEvent, i: nat)
    ensures CallOf(r, e, i) == [] || CallOf(r, e, i) == [Refresh] || CallOf(r, e, i) == [Escape]
  {
  }

  // What one event adds, t tenths after the start.
  lemma CallCounts(calls: seq<Call>, r: Ring, e: RingEvent, i: nat, t: nat)
    requires r.tenths == t % 10
    ensures Quiet(calls + CallOf(r, e, i))
            == match e
               case TenthPasses => Quiet(calls) + if (t + 1) % 10 == 0 then 1 else 0
               case HeartFrom(j) => if j == i then 0 else Quiet(calls)
               case ToAll => Quiet(calls) + 1
               case HandOffTo(j) => Quiet(calls) + if j == i then 1 else 0
  {
    TenTenths(t);
    OneCall(calls, Refresh);
    OneCall(calls, Escape);
    assert calls + [] == calls;
    hide Quiet, Timer;
  }

  // The calls on the object of peer i, from the events by themselves.
  lemma {:induction false} QuietIsCountdowns(n: nat, events: seq<RingEvent>, i: nat)
    ensures Quiet(CallsOn(RingStart(n), events, i)) == Countdowns(events, i)
  {
    hide Quiet, RingAfter, RingStart, CallOf;
    if events != [] {
      var k := |events| - 1;
      QuietIsCountdowns(n, events[..k], i);
      TenthsLeft(n, events[..k]);
      CallCounts(CallsOn(RingStart(n), events[..k], i), RingAfter(RingStart(n), events[..k]), events[k], i, Tenths(events[..k]));
    } else {
      NoCalls();
    }
  }

  lemma NoCalls()
    ensures Quiet([]) == 0
  {
  }

  /** When a peer is sent a publish or a login, and (as intended) a hand-off to it: in every run of the loop,
      exactly if it has been counted down fewer than 60 times since its last heart beat, this time included.
      A hand-off to another peer is not sent to it. */
  lemma SentIff(n: nat, events: seq<RingEvent>, i: nat)
    requires i < n
    ensures var r := RingAfter(RingStart(n), events);
            && (i in RingStep(r, ToAll).1 <==> Countdowns(events + [ToAll], i) < 60)
            && (i in RingStep(r, HandOffTo(i)).1 <==> Countdowns(events + [HandOffTo(i)], i) < 60)
            && (forall j :: j != i ==> i !in RingStep(r, HandOffTo(j)).1)
  {
    var r, before := RingAfter(RingStart(n), events), CallsOn(RingStart(n), events, i);
    TimerAfter(n, events, i);
    QuietIsCountdowns(n, events, i);
    assert (events + [ToAll])[..|events|] == events && (events + [HandOffTo(i)])[..|events|] == events;
    TimerIsQuiet(before);
    AliveFirstIs(r.timers, n);
    hide RingAfter, RingStart, Timer, Quiet, AliveFirst, FirstBeat, Tenths;
  }

  lemma CountedOn(r: Ring)
    requires r.counter >= HEART_PERIOD
    ensures RingStep(r, TenthPasses).1 == []
    ensures forall e :: RingStep(r, e).0.counter >= HEART_PERIOD
  {
  }

  /** Once the counter has passed 50 no heart beat is ever sent again, whatever the loop receives. */
  lemma {:induction false} NeverBeatsAgain(r: Ring, events: seq<RingEvent>)
    requires r.counter >= HEART_PERIOD
    ensures RingAfter(r, events).counter >= HEART_PERIOD
    ensures RingStep(RingAfter(r, events), TenthPasses).1 == []
  {
    hide RingStep;
    if events != [] {
      NeverBeatsAgain(r, events[..|events| - 1]);
      CountedOn(RingAfter(r, events[..|events| - 1]));
    }
    CountedOn(RingAfter(r, events));
  }

  /** That is what happens when no peer is alive in the second in which a heart beat is due: none is ever
      sent again, even after peers revive. Otherwise one is sent and the counter starts anew. */
  lemma MissedBeatIsLast(r: Ring, events: seq<RingEvent>)
    requires r.counter + 1 == 50
    ensures (exists i: nat :: i < |r.timers| && Alive(r.timers, i)) <==> Second(r).1 != []
    ensures if Second(r).1 != [] then Second(r).0.counter == 0
            else RingStep(RingAfter(Second(r).0, events), TenthPasses).1 == []
  {
    FirstBeatIs(r.timers, |r.timers|);
    if i: nat :| i < |r.timers| && Alive(r.timers, i) {
      FirstAlive(r.timers, i);
    }
    if Second(r).1 == [] {
      NeverBeatsAgain(Second(r).0, events);
    } else {
      assert Second(r).1[0] in Second(r).1;
    }
  }
}
