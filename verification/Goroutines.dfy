// The goroutines of one node and what they wait for: any number of clients, the dispatcher, the
// cluster receiver and the cluster cycle loop, over two unbuffered channels and one RWMutex.
module Goroutines {
  import Dispatcher
  import ClusterSystem

  // What a message makes the dispatcher do with Cluster_Ch: always send, perhaps send, never send.
  datatype Msg = AddMsg | PubrelMsg | LoginNotifyMsg | QuietMsg

  predicate CanEmit(m: Msg, emit: bool) {
    match m
    case AddMsg => emit
    case QuietMsg => !emit
    case _ => true
  }

  // After its message is taken the client reads on, exits, or sends a QoS 0 or 1 publish to the cluster.
  datatype After = ReadsOn | Exits | SendsOn

  datatype Client =
    | Reading                          // in conn.Read: not waiting for another goroutine
    | WantsRLock                       // about to call RLock
    | Queued                           // RLock found a writer: asleep until Unlock
    | Replaying                        // between RLock and RUnlock
    | SendsDispatch(m: Msg, next: After)
    | SendsCluster
    | Gone

  datatype Dispatch =
    | Selecting
    | Got(m: Msg)                      // about to call Lock
    | WantsLock(m: Msg)                // Lock has announced the writer and waits for readers to leave
    | Working(emit: bool)              // holds the lock; emit: sending on Cluster_Ch
  datatype Receiver = ReadsUdp | SendsHeart | SendsMsg(m: Msg)
  datatype Cycle = Waiting | Busy

  // RWMutex: active readers, and whether a writer has announced itself.
  datatype RWMutex = RWMutex(readers: nat, writer: bool)

  /** `cluster` says that Cluster_Ch is not nil; on a nil channel a send never proceeds. */
  datatype State = State(clients: seq<Client>, d: Dispatch, r: Receiver, y: Cycle, lock: RWMutex, cluster: bool)

  function InitState(cluster: bool): State {
    State([], Selecting, ReadsUdp, Waiting, RWMutex(0, false), cluster)
  }

  datatype Step =
    // New work from outside, and the tick of the cycle loop.
    | Accept
    | Packet(i: nat, op: Client)
    | Datagram(msg: Receiver)
    | Tick
    // Work already begun.
    | CallRLock(i: nat)
    | CallRUnlock(i: nat)
    | TakeFromClient(i: nat)
    | TakeFromReceiver
    | CallLock
    | GetLock(emit: bool)
    | CallUnlock
    | DispatchToCycle
    | ClientToCycle(i: nat)
    | ReceiverToCycle
    | CycleDone

  predicate IsWork(st: Step) {
    !st.Accept? && !st.Packet? && !st.Datagram? && !st.Tick?
  }

  // What a client may begin when a packet arrives or its connection fails.
  predicate Begins(op: Client) {
    match op
    case WantsRLock => true
    case Gone => true
    case SendsDispatch(m, next) =>
      (m == PubrelMsg && next == ReadsOn) || m == QuietMsg
    case _ => false
  }

  function Leave(next: After): Client {
    match next
    case ReadsOn => Reading
    case Exits => Gone
    case SendsOn => SendsCluster
  }

  predicate Enabled(s: State, st: Step) {
    match st
    case Accept => true
    case Packet(i, op) => i < |s.clients| && s.clients[i] == Reading && Begins(op)
    case Datagram(msg) =>
      s.cluster && s.r == ReadsUdp
      && (msg == SendsHeart || msg == SendsMsg(LoginNotifyMsg) || msg == SendsMsg(QuietMsg))
    case Tick => s.y == Waiting && s.cluster
    case CallRLock(i) => i < |s.clients| && s.clients[i] == WantsRLock
    case CallRUnlock(i) => i < |s.clients| && s.clients[i] == Replaying && s.lock.readers > 0
    case TakeFromClient(i) => i < |s.clients| && s.clients[i].SendsDispatch? && s.d == Selecting
    case TakeFromReceiver => s.r.SendsMsg? && s.d == Selecting
    case CallLock => s.d.Got?
    case GetLock(emit) => s.d.WantsLock? && s.lock.readers == 0 && CanEmit(s.d.m, emit)
    case CallUnlock => s.d == Working(false)
    case DispatchToCycle => s.d == Working(true) && s.cluster && s.y == Waiting
    case ClientToCycle(i) => i < |s.clients| && s.clients[i] == SendsCluster && s.cluster && s.y == Waiting
    case ReceiverToCycle => s.r == SendsHeart && s.cluster && s.y == Waiting
    case CycleDone => s.y == Busy
  }

  // Unlock wakes every reader that queued behind the writer.
  function Woken(clients: seq<Client>): seq<Client> {
    seq(|clients|, i requires 0 <= i < |clients| => if clients[i] == Queued then Replaying else clients[i])
  }

  function Count(clients: seq<Client>, x: Client): nat {
    if clients == [] then 0
    else Count(clients[..|clients| - 1], x) + if clients[|clients| - 1] == x then 1 else 0
  }

  function Apply(s: State, st: Step): State
    requires Enabled(s, st)
  {
    match st
    case Accept => s.(clients := s.clients + [Reading])
    case Packet(i, op) => s.(clients := s.clients[i := op])
    case Datagram(msg) => s.(r := msg)
    case Tick => s.(y := Busy)
    case CallRLock(i) =>
      if s.lock.writer then s.(clients := s.clients[i := Queued])
      else s.(clients := s.clients[i := Replaying], lock := s.lock.(readers := s.lock.readers + 1))
    case CallRUnlock(i) =>
      s.(clients := s.clients[i := SendsDispatch(AddMsg, ReadsOn)], lock := s.lock.(readers := s.lock.readers - 1))
    case TakeFromClient(i) => s.(clients := s.clients[i := Leave(s.clients[i].next)], d := Got(s.clients[i].m))
    case TakeFromReceiver => s.(r := ReadsUdp, d := Got(s.r.m))
    case CallLock => s.(d := WantsLock(s.d.m), lock := s.lock.(writer := true))
    case GetLock(emit) => s.(d := Working(emit))
    case CallUnlock =>
      s.(d := Selecting, clients := Woken(s.clients),
         lock := RWMutex(s.lock.readers + Count(s.clients, Queued), false))
    case DispatchToCycle => s.(d := Working(false), y := Busy)
    case ClientToCycle(i) => s.(clients := s.clients[i := Reading], y := Busy)
    case ReceiverToCycle => s.(r := ReadsUdp, y := Busy)
    case CycleDone => s.(y := Waiting)
  }

  datatype History = History(states: seq<State>, steps: seq<Step>)
  {
    ghost predicate Runs(cluster: bool) {
      && |states| == |steps| + 1
      && states[0] == InitState(cluster)
      && forall k :: 0 <= k < |steps| ==> Enabled(states[k], steps[k]) && states[k + 1] == Apply(states[k], steps[k])
    }
  }

  // ---- the invariant ----

  predicate Inv(s: State) {
    && s.lock.readers == Count(s.clients, Replaying)
    && (s.lock.writer <==> s.d.WantsLock? || s.d.Working?)
    && (s.d.Working? ==> s.lock.readers == 0)
    && (Queued in s.clients ==> s.lock.writer)
  }

  lemma {:induction false} CountUpdate(clients: seq<Client>, i: nat, op: Client, x: Client)
    requires i < |clients|
    ensures Count(clients[i := op], x) + (if clients[i] == x then 1 else 0)
            == Count(clients, x) + if op == x then 1 else 0
  {
    var n := |clients| - 1;
    if i < n {
      CountUpdate(clients[..n], i, op, x);
      assert clients[i := op][..n] == clients[..n][i := op];
    } else {
      assert clients[i := op][..n] == clients[..n];
    }
  }

  lemma {:induction false} CountWoken(clients: seq<Client>)
    ensures Count(Woken(clients), Replaying) == Count(clients, Replaying) + Count(clients, Queued)
    ensures Queued !in Woken(clients)
  {
    if clients != [] {
      var n := |clients| - 1;
      CountWoken(clients[..n]);
      assert Woken(clients)[..n] == Woken(clients[..n]);
    }
  }

  lemma {:induction false} CountIn(clients: seq<Client>, x: Client)
    ensures Count(clients, x) > 0 <==> x in clients
  {
    if clients != [] {
      var n := |clients| - 1;
      CountIn(clients[..n], x);
      assert clients == clients[..n] + [clients[n]];
    }
  }

  lemma InvStep(s: State, st: Step)
    requires Inv(s) && Enabled(s, st)
    ensures Inv(Apply(s, st))
  {
    var s' := Apply(s, st);
    match st {
      case Accept => assert s'.clients[..|s.clients|] == s.clients;
      case Packet(i, op) => CountUpdate(s.clients, i, op, Replaying);
      case CallRLock(i) => CountUpdate(s.clients, i, s'.clients[i], Replaying);
      case CallRUnlock(i) => CountUpdate(s.clients, i, s'.clients[i], Replaying);
      case TakeFromClient(i) => CountUpdate(s.clients, i, s'.clients[i], Replaying);
      case CallUnlock => CountWoken(s.clients);
      case ClientToCycle(i) => CountUpdate(s.clients, i, Reading, Replaying);
      case _ =>
    }
  }

  lemma {:induction false} InvAlways(h: History, cluster: bool, k: nat)
    requires h.Runs(cluster) && k < |h.states|
    ensures Inv(h.states[k]) && h.states[k].cluster == cluster
  {
    if k == 0 {
      assert Count([], Replaying) == 0;
    } else {
      InvAlways(h, cluster, k - 1);
      InvStep(h.states[k - 1], h.steps[k - 1]);
    }
  }

  /** The lock excludes: while the dispatcher works on the sessions, no client replays from one. */
  lemma WriterExcludesReaders(h: History, cluster: bool, k: nat)
    requires h.Runs(cluster) && k < |h.states| && h.states[k].d.Working?
    ensures Replaying !in h.states[k].clients
  {
    InvAlways(h, cluster, k);
    CountIn(h.states[k].clients, Replaying);
  }

  // ---- deadlock freedom ----

  // Inside a lock call or a channel send, or between two of them.
  predicate InOperation(x: Client) {
    x != Reading && x != Gone
  }

  // Some goroutine is inside an operation that another one may have to complete.
  predicate SomeoneWaits(s: State) {
    || (exists i :: 0 <= i < |s.clients| && InOperation(s.clients[i]))
    || s.d != Selecting
    || s.r != ReadsUdp
    || s.y == Busy
  }

  ghost predicate CanWork(s: State) {
    exists st :: IsWork(st) && Enabled(s, st)
  }

  // The dispatcher under its lock waits for the cycle loop only.
  lemma DispatcherWorks(s: State)
    requires Inv(s) && s.cluster && s.d != Selecting
    ensures CanWork(s)
  {
    match s.d {
      case Got(m) => assert Enabled(s, CallLock);
      case WantsLock(m) =>
        if s.lock.readers == 0 {
          assert Enabled(s, GetLock(m == AddMsg));
        } else {
          CountIn(s.clients, Replaying);
          var i :| 0 <= i < |s.clients| && s.clients[i] == Replaying;
          assert Enabled(s, CallRUnlock(i));
        }
      case Working(emit) =>
        if !emit {
          assert Enabled(s, CallUnlock);
        } else if s.y == Waiting {
          assert Enabled(s, DispatchToCycle);
        } else {
          assert Enabled(s, CycleDone);
        }
    }
  }

  // Clients wait for the dispatcher and the cycle loop only.
  lemma ClientWorks(s: State, i: nat)
    requires Inv(s) && s.cluster && i < |s.clients| && InOperation(s.clients[i])
    ensures CanWork(s)
  {
    if s.y == Busy {
      assert Enabled(s, CycleDone);
    } else {
      match s.clients[i] {
        case WantsRLock => assert Enabled(s, CallRLock(i));
        case Queued => DispatcherWorks(s);
        case Replaying =>
          CountIn(s.clients, Replaying);
          assert Enabled(s, CallRUnlock(i));
        case SendsDispatch(m, next) =>
          if s.d == Selecting {
            assert Enabled(s, TakeFromClient(i));
          } else {
            DispatcherWorks(s);
          }
        case SendsCluster => assert Enabled(s, ClientToCycle(i));
      }
    }
  }

  lemma SomeoneWorks(s: State)
    requires Inv(s) && s.cluster && SomeoneWaits(s)
    ensures CanWork(s)
  {
    if s.y == Busy {
      assert Enabled(s, CycleDone);
    } else if s.d != Selecting {
      DispatcherWorks(s);
    } else if s.r != ReadsUdp {
      assert Enabled(s, if s.r == SendsHeart then ReceiverToCycle else TakeFromReceiver);
    } else {
      var i :| 0 <= i < |s.clients| && InOperation(s.clients[i]);
      ClientWorks(s, i);
    }
  }

  // ---- every operation ends ----

  // How many work steps are left at most.
  function Left(x: Client): nat {
    match x
    case WantsRLock => 10
    case Queued => 9
    case Replaying => 8
    case SendsDispatch(_, next) => if next == SendsOn then 9 else 7
    case SendsCluster => 2
    case _ => 0
  }

  function LeftAll(clients: seq<Client>): nat {
    if clients == [] then 0 else LeftAll(clients[..|clients| - 1]) + Left(clients[|clients| - 1])
  }

  function WorkLeft(s: State): nat {
    LeftAll(s.clients)
    + (match s.d case Selecting => 0 case Got(_) => 6 case WantsLock(_) => 5 case Working(emit) => if emit then 4 else 1)
    + (match s.r case ReadsUdp => 0 case SendsHeart => 2 case SendsMsg(_) => 7)
    + (if s.y == Busy then 1 else 0)
  }

  lemma {:induction false} LeftUpdate(clients: seq<Client>, i: nat, op: Client)
    requires i < |clients|
    ensures LeftAll(clients[i := op]) + Left(clients[i]) == LeftAll(clients) + Left(op)
  {
    var n := |clients| - 1;
    if i < n {
      LeftUpdate(clients[..n], i, op);
      assert clients[i := op][..n] == clients[..n][i := op];
    } else {
      assert clients[i := op][..n] == clients[..n];
    }
  }

  lemma {:induction false} LeftWoken(clients: seq<Client>)
    ensures LeftAll(Woken(clients)) <= LeftAll(clients)
  {
    if clients != [] {
      var n := |clients| - 1;
      LeftWoken(clients[..n]);
      assert Woken(clients)[..n] == Woken(clients[..n]);
    }
  }

  lemma WorkShrinks(s: State, st: Step)
    requires Enabled(s, st) && IsWork(st)
    ensures WorkLeft(Apply(s, st)) < WorkLeft(s)
  {
    hide LeftAll, Woken, Count;
    var s' := Apply(s, st);
    match st {
      case CallRLock(i) => LeftUpdate(s.clients, i, s'.clients[i]);
      case CallRUnlock(i) => LeftUpdate(s.clients, i, s'.clients[i]);
      case TakeFromClient(i) => LeftUpdate(s.clients, i, s'.clients[i]);
      case CallUnlock => LeftWoken(s.clients);
      case ClientToCycle(i) => LeftUpdate(s.clients, i, Reading);
      case _ =>
    }
  }

  /** Deadlock freedom, for any number of clients: as long as a goroutine is inside a lock call or a
      channel operation, some goroutine can take a step of work already begun. */
  lemma NeverStuck(h: History, k: nat)
    requires h.Runs(true) && k < |h.states| && SomeoneWaits(h.states[k])
    ensures CanWork(h.states[k])
  {
    InvAlways(h, true, k);
    SomeoneWorks(h.states[k]);
  }

  /** And it is used up: work steps alone end after at most WorkLeft of them, whichever are chosen, and
      where no more is possible every operation has completed. */
  lemma {:induction false} OperationsComplete(h: History, k: nat, k': nat)
    requires h.Runs(true) && k <= k' < |h.states|
    requires forall j :: k <= j < k' ==> IsWork(h.steps[j])
    ensures k' - k + WorkLeft(h.states[k']) <= WorkLeft(h.states[k])
    ensures !CanWork(h.states[k']) ==> !SomeoneWaits(h.states[k'])
    decreases k'
  {
    if k < k' {
      OperationsComplete(h, k, k' - 1);
      WorkShrinks(h.states[k' - 1], h.steps[k' - 1]);
    }
    if SomeoneWaits(h.states[k']) {
      NeverStuck(h, k');
    }
  }

  // ---- without a cluster channel ----

  lemma {:induction false} StuckUnderLock(h: History, k: nat, k': nat)
    requires h.Runs(false) && k <= k' < |h.states| && h.states[k].d == Working(true)
    ensures h.states[k'].d == Working(true) && h.states[k'].lock.writer
    decreases k'
  {
    InvAlways(h, false, k');
    if k < k' {
      StuckUnderLock(h, k, k' - 1);
      InvAlways(h, false, k' - 1);
      StuckStep(h.states[k' - 1], h.steps[k' - 1]);
      hide Apply, Enabled;
    }
  }

  lemma StuckStep(s: State, st: Step)
    requires !s.cluster && s.d == Working(true) && Enabled(s, st)
    ensures Apply(s, st).d == Working(true)
  {
  }

  function NoCluster(client: Client, d: Dispatch, lock: RWMutex): State {
    State([client], d, ReadsUdp, Waiting, lock, false)
  }

  // One client logs in.
  function LoginRun(): History {
    var free := RWMutex(0, false);
    History(
      [InitState(false),
       NoCluster(Reading, Selecting, free),
       NoCluster(WantsRLock, Selecting, free),
       NoCluster(Replaying, Selecting, RWMutex(1, false)),
       NoCluster(SendsDispatch(AddMsg, ReadsOn), Selecting, free),
       NoCluster(Reading, Got(AddMsg), free),
       NoCluster(Reading, WantsLock(AddMsg), RWMutex(0, true)),
       NoCluster(Reading, Working(true), RWMutex(0, true))],
      [Accept, Packet(0, WantsRLock), CallRLock(0), CallRUnlock(0), TakeFromClient(0), CallLock, GetLock(true)])
  }

  lemma LoginRunRuns()
    ensures LoginRun().Runs(false)
  {
    var h := LoginRun();
    assert [] + [Reading] == [Reading];
    assert forall x, y: Client :: [x][0 := y] == [y];
    forall k | 0 <= k < 7 ensures Enabled(h.states[k], h.steps[k]) && h.states[k + 1] == Apply(h.states[k], h.steps[k]) {
      if k < 3 {
        assert k == 0 || k == 1 || k == 2;
      } else {
        assert k == 3 || k == 4 || k == 5 || k == 6;
      }
    }
  }

  /** When the cluster server does not start, Cluster_Ch stays nil and the first login stops the node:
      the dispatcher waits for ever with the lock held, so no later message is taken and no later login
      gets past RLock. */
  lemma FirstLoginBlocks(h: History, k: nat)
    ensures LoginRun().Runs(false)
    ensures SomeoneWaits(LoginRun().states[7]) && !CanWork(LoginRun().states[7])
    ensures h.Runs(false) && LoginRun().states <= h.states && 7 <= k < |h.states| ==>
              h.states[k].d == Working(true) && h.states[k].lock.writer
  {
    LoginRunRuns();
    if h.Runs(false) && LoginRun().states <= h.states && 7 <= k < |h.states| {
      assert h.states[7] == LoginRun().states[7];
      StuckUnderLock(h, 7, k);
    }
  }

  /** The node never gets stuck if and only if its cluster server has started. */
  lemma NeverStuckIffCluster(cluster: bool)
    ensures (forall h: History, k: nat :: h.Runs(cluster) && k < |h.states| && SomeoneWaits(h.states[k])
               ==> CanWork(h.states[k]))
            <==> cluster
  {
    if cluster {
      forall h: History, k: nat | h.Runs(cluster) && k < |h.states| && SomeoneWaits(h.states[k])
        ensures CanWork(h.states[k])
      {
        NeverStuck(h, k);
      }
    } else {
      FirstLoginBlocks(LoginRun(), 7);
      assert LoginRun().Runs(cluster);
    }
  }

  // ---- nothing is lost between the goroutines ----

  // How many of the first k steps are among these.
  function Tally(h: History, k: nat, among: Step -> bool): nat
    requires k <= |h.steps|
  {
    if k == 0 then 0 else Tally(h, k - 1, among) + if among(h.steps[k - 1]) then 1 else 0
  }

  function One(b: bool): nat {
    if b then 1 else 0
  }

  ghost predicate Balances(begun: Step -> bool, ended: Step -> bool, held: State -> bool) {
    forall s: State, st: Step :: Enabled(s, st) ==>
      One(held(Apply(s, st))) + One(ended(st)) == One(held(s)) + One(begun(st))
  }

  // Whoever is in the middle of something has begun it and not ended it.
  lemma {:induction false} Begun(h: History, cluster: bool, k: nat,
                                 begun: Step -> bool, ended: Step -> bool, held: State -> bool)
    requires h.Runs(cluster) && k <= |h.steps| && !held(h.states[0])
    requires Balances(begun, ended, held)
    ensures Tally(h, k, begun) == Tally(h, k, ended) + One(held(h.states[k]))
  {
    if k > 0 {
      Begun(h, cluster, k - 1, begun, ended, held);
      assert Enabled(h.states[k - 1], h.steps[k - 1]) && h.states[k - 1 + 1] == Apply(h.states[k - 1], h.steps[k - 1]);
    }
  }

  // What client i is in the middle of.
  predicate LogsIn(s: State, i: nat) {
    i < |s.clients| && (s.clients[i] == WantsRLock || s.clients[i] == Queued || s.clients[i] == Replaying)
  }

  predicate HasMessage(s: State, i: nat) {
    i < |s.clients| && s.clients[i].SendsDispatch?
  }

  // Client i takes a packet, or the end of its connection, to the dispatcher.
  predicate Brings(st: Step, i: nat) {
    st.Packet? && st.i == i && st.op.SendsDispatch?
  }

  predicate Leaves(s: State, i: nat) {
    i < |s.clients| && (s.clients[i] == Gone || (s.clients[i].SendsDispatch? && s.clients[i].next == Exits))
  }

  predicate HasPublish(s: State, i: nat) {
    i < |s.clients| && (s.clients[i] == SendsCluster || (s.clients[i].SendsDispatch? && s.clients[i].next == SendsOn))
  }

  // A step of one's own, the wake-up by Unlock, or nothing changes what client i is doing.
  lemma ClientMoves(s: State, st: Step, i: nat)
    requires Enabled(s, st)
    ensures i < |s.clients| ==> i < |Apply(s, st).clients|
    ensures i >= |s.clients| && i < |Apply(s, st).clients| ==> Apply(s, st).clients[i] == Reading
    ensures i < |s.clients| ==>
      match st
      case Packet(j, op) => j == i ==> s.clients[i] == Reading && Apply(s, st).clients[i] == op && Begins(op)
      case CallRLock(j) => j == i ==> s.clients[i] == WantsRLock && Apply(s, st).clients[i] in {Queued, Replaying}
      case CallRUnlock(j) =>
        j == i ==> s.clients[i] == Replaying && Apply(s, st).clients[i] == SendsDispatch(AddMsg, ReadsOn)
      case TakeFromClient(j) =>
        j == i ==> s.clients[i].SendsDispatch? && Apply(s, st).clients[i] == Leave(s.clients[i].next)
      case ClientToCycle(j) => j == i ==> s.clients[i] == SendsCluster && Apply(s, st).clients[i] == Reading
      case CallUnlock => s.clients[i] == Queued ==> Apply(s, st).clients[i] == Replaying
      case _ => true
    ensures i < |s.clients| && Apply(s, st).clients[i] != s.clients[i] ==>
      (st == CallUnlock && s.clients[i] == Queued)
      || st == CallRLock(i) || st == CallRUnlock(i) || st == TakeFromClient(i) || st == ClientToCycle(i)
      || (st.Packet? && st.i == i)
  {
  }

  lemma LogInMoves(s: State, st: Step, i: nat)
    requires Enabled(s, st)
    ensures One(LogsIn(Apply(s, st), i)) + One(st == CallRUnlock(i))
            == One(LogsIn(s, i)) + One(st == Packet(i, WantsRLock))
  {
    hide Apply;
    ClientMoves(s, st, i);
  }

  lemma MessageMoves(s: State, st: Step, i: nat)
    requires Enabled(s, st)
    ensures One(HasMessage(Apply(s, st), i)) + One(st == TakeFromClient(i))
            == One(HasMessage(s, i)) + One(st == CallRUnlock(i) || Brings(st, i))
  {
    hide Apply;
    ClientMoves(s, st, i);
  }

  lemma PublishMoves(s: State, st: Step, i: nat)
    requires Enabled(s, st)
    ensures One(HasPublish(Apply(s, st), i)) + One(st == ClientToCycle(i))
            == One(HasPublish(s, i)) + One(Brings(st, i) && st.op.next == SendsOn)
  {
    hide Apply;
    ClientMoves(s, st, i);
  }

  lemma LogInBalances(h: History, cluster: bool, k: nat, i: nat)
    requires h.Runs(cluster) && k <= |h.steps|
    ensures Tally(h, k, (st: Step) => st == Packet(i, WantsRLock))
            == Tally(h, k, (st: Step) => st == CallRUnlock(i)) + One(LogsIn(h.states[k], i))
  {
    var begun := (st: Step) => st == Packet(i, WantsRLock);
    var ended, held := (st: Step) => st == CallRUnlock(i), (s: State) => LogsIn(s, i);
    forall s: State, st: Step | Enabled(s, st)
      ensures One(held(Apply(s, st))) + One(ended(st)) == One(held(s)) + One(begun(st))
    {
      hide Apply, Enabled;
      LogInMoves(s, st, i);
    }
    Begun(h, cluster, k, begun, ended, held);
  }

  lemma MessageBalances(h: History, cluster: bool, k: nat, i: nat)
    requires h.Runs(cluster) && k <= |h.steps|
    ensures Tally(h, k, (st: Step) => st == CallRUnlock(i) || Brings(st, i))
            == Tally(h, k, (st: Step) => st == TakeFromClient(i)) + One(HasMessage(h.states[k], i))
  {
    var begun := (st: Step) => st == CallRUnlock(i) || Brings(st, i);
    var ended, held := (st: Step) => st == TakeFromClient(i), (s: State) => HasMessage(s, i);
    forall s: State, st: Step | Enabled(s, st)
      ensures One(held(Apply(s, st))) + One(ended(st)) == One(held(s)) + One(begun(st))
    {
      hide Apply, Enabled;
      MessageMoves(s, st, i);
    }
    Begun(h, cluster, k, begun, ended, held);
  }

  lemma PublishBalances(h: History, cluster: bool, k: nat, i: nat)
    requires h.Runs(cluster) && k <= |h.steps|
    ensures Tally(h, k, (st: Step) => Brings(st, i) && st.op.next == SendsOn)
            == Tally(h, k, (st: Step) => st == ClientToCycle(i)) + One(HasPublish(h.states[k], i))
  {
    var begun := (st: Step) => Brings(st, i) && st.op.next == SendsOn;
    var ended, held := (st: Step) => st == ClientToCycle(i), (s: State) => HasPublish(s, i);
    forall s: State, st: Step | Enabled(s, st)
      ensures One(held(Apply(s, st))) + One(ended(st)) == One(held(s)) + One(begun(st))
    {
      hide Apply, Enabled;
      PublishMoves(s, st, i);
    }
    Begun(h, cluster, k, begun, ended, held);
  }

  lemma LeavingMoves(s: State, st: Step, i: nat)
    requires Enabled(s, st)
    ensures One(Leaves(Apply(s, st), i))
            == One(Leaves(s, i))
               + One(st == Packet(i, Gone) || (Brings(st, i) && st.op.next == Exits))
  {
    hide Apply;
    ClientMoves(s, st, i);
  }

  lemma LeavingBalances(h: History, cluster: bool, k: nat, i: nat)
    requires h.Runs(cluster) && k <= |h.steps|
    ensures Tally(h, k, (st: Step) => st == Packet(i, Gone) || (Brings(st, i) && st.op.next == Exits))
            == One(Leaves(h.states[k], i))
  {
    var begun := (st: Step) => st == Packet(i, Gone) || (Brings(st, i) && st.op.next == Exits);
    var ended, held := (st: Step) => false, (s: State) => Leaves(s, i);
    forall s: State, st: Step | Enabled(s, st)
      ensures One(held(Apply(s, st))) + One(ended(st)) == One(held(s)) + One(begun(st))
    {
      hide Apply, Enabled;
      LeavingMoves(s, st, i);
    }
    Begun(h, cluster, k, begun, ended, held);
    NoTally(h, k);
  }

  lemma {:induction false} NoTally(h: History, k: nat)
    requires k <= |h.steps|
    ensures Tally(h, k, (st: Step) => false) == 0
  {
    if k > 0 {
      NoTally(h, k - 1);
    }
  }

  /** What a client begins it completes, or is in the middle of: its logins end with the message for the
      dispatcher, each message it has is taken by the dispatcher, its publishes for the other nodes then
      reach the cycle loop, one by one, and it leaves once and for good. */
  lemma ClientLedger(h: History, cluster: bool, k: nat, i: nat)
    requires h.Runs(cluster) && k <= |h.steps|
    ensures Tally(h, k, (st: Step) => st == Packet(i, WantsRLock))
            == Tally(h, k, (st: Step) => st == CallRUnlock(i)) + One(LogsIn(h.states[k], i))
    ensures Tally(h, k, (st: Step) => st == CallRUnlock(i) || Brings(st, i))
            == Tally(h, k, (st: Step) => st == TakeFromClient(i)) + One(HasMessage(h.states[k], i))
    ensures Tally(h, k, (st: Step) => Brings(st, i) && st.op.next == SendsOn)
            == Tally(h, k, (st: Step) => st == ClientToCycle(i)) + One(HasPublish(h.states[k], i))
    ensures Tally(h, k, (st: Step) => st == Packet(i, Gone) || (Brings(st, i) && st.op.next == Exits))
            == One(Leaves(h.states[k], i))
  {
    LeavingBalances(h, cluster, k, i);
    LogInBalances(h, cluster, k, i);
    MessageBalances(h, cluster, k, i);
    PublishBalances(h, cluster, k, i);
  }

  lemma WorkBalances(h: History, cluster: bool, k: nat)
    requires h.Runs(cluster) && k <= |h.steps|
    ensures Tally(h, k, (st: Step) => st.TakeFromClient? || st.TakeFromReceiver?)
            == Tally(h, k, (st: Step) => st.CallUnlock?) + One(h.states[k].d != Selecting)
  {
    var begun := (st: Step) => st.TakeFromClient? || st.TakeFromReceiver?;
    var ended, held := (st: Step) => st.CallUnlock?, (s: State) => s.d != Selecting;
    assert Balances(begun, ended, held);
    Begun(h, cluster, k, begun, ended, held);
  }

  lemma EmitBalances(h: History, cluster: bool, k: nat)
    requires h.Runs(cluster) && k <= |h.steps|
    ensures Tally(h, k, (st: Step) => st == GetLock(true))
            == Tally(h, k, (st: Step) => st.DispatchToCycle?) + One(h.states[k].d == Working(true))
  {
    var begun := (st: Step) => st == GetLock(true);
    var ended, held := (st: Step) => st.DispatchToCycle?, (s: State) => s.d == Working(true);
    assert Balances(begun, ended, held);
    Begun(h, cluster, k, begun, ended, held);
  }

  lemma HeartBalances(h: History, cluster: bool, k: nat)
    requires h.Runs(cluster) && k <= |h.steps|
    ensures Tally(h, k, (st: Step) => st == Datagram(SendsHeart))
            == Tally(h, k, (st: Step) => st.ReceiverToCycle?) + One(h.states[k].r == SendsHeart)
  {
    var begun := (st: Step) => st == Datagram(SendsHeart);
    var ended, held := (st: Step) => st.ReceiverToCycle?, (s: State) => s.r == SendsHeart;
    assert Balances(begun, ended, held);
    Begun(h, cluster, k, begun, ended, held);
  }

  lemma ReceiptBalances(h: History, cluster: bool, k: nat)
    requires h.Runs(cluster) && k <= |h.steps|
    ensures Tally(h, k, (st: Step) => st.Datagram? && st.msg.SendsMsg?)
            == Tally(h, k, (st: Step) => st.TakeFromReceiver?) + One(h.states[k].r.SendsMsg?)
  {
    var begun := (st: Step) => st.Datagram? && st.msg.SendsMsg?;
    var ended, held := (st: Step) => st.TakeFromReceiver?, (s: State) => s.r.SendsMsg?;
    assert Balances(begun, ended, held);
    Begun(h, cluster, k, begun, ended, held);
  }

  lemma CycleBalances(h: History, cluster: bool, k: nat)
    requires h.Runs(cluster) && k <= |h.steps|
    ensures Tally(h, k, (st: Step) => st.Tick? || st.DispatchToCycle? || st.ClientToCycle? || st.ReceiverToCycle?)
            == Tally(h, k, (st: Step) => st.CycleDone?) + One(h.states[k].y == Busy)
  {
    var begun := (st: Step) => st.Tick? || st.DispatchToCycle? || st.ClientToCycle? || st.ReceiverToCycle?;
    var ended, held := (st: Step) => st.CycleDone?, (s: State) => s.y == Busy;
    assert Balances(begun, ended, held);
    Begun(h, cluster, k, begun, ended, held);
  }

  /** The dispatcher and the receiver likewise: each message taken is worked off, each message a work makes for
      the cycle loop reaches it, and so does what the receiver got. */
  lemma ServerLedger(h: History, cluster: bool, k: nat)
    requires h.Runs(cluster) && k <= |h.steps|
    ensures Tally(h, k, (st: Step) => st.TakeFromClient? || st.TakeFromReceiver?)
            == Tally(h, k, (st: Step) => st.CallUnlock?) + One(h.states[k].d != Selecting)
    ensures Tally(h, k, (st: Step) => st == GetLock(true))
            == Tally(h, k, (st: Step) => st.DispatchToCycle?) + One(h.states[k].d == Working(true))
    ensures Tally(h, k, (st: Step) => st == Datagram(SendsHeart))
            == Tally(h, k, (st: Step) => st.ReceiverToCycle?) + One(h.states[k].r == SendsHeart)
    ensures Tally(h, k, (st: Step) => st.Datagram? && st.msg.SendsMsg?)
            == Tally(h, k, (st: Step) => st.TakeFromReceiver?) + One(h.states[k].r.SendsMsg?)
    ensures Tally(h, k, (st: Step) => st.Tick? || st.DispatchToCycle? || st.ClientToCycle? || st.ReceiverToCycle?)
            == Tally(h, k, (st: Step) => st.CycleDone?) + One(h.states[k].y == Busy)
  {
    WorkBalances(h, cluster, k);
    EmitBalances(h, cluster, k);
    HeartBalances(h, cluster, k);
    ReceiptBalances(h, cluster, k);
    CycleBalances(h, cluster, k);
  }

  // ---- the messages really are of these kinds ----

  function KindOf(e: Dispatcher.Event): Msg {
    match e
    case Add(_, _) => AddMsg
    case Pubrel(_, _) => PubrelMsg
    case ClusterLogin(_, _) => LoginNotifyMsg
    case _ => QuietMsg
  }

  /** One dispatcher step sends on Cluster_Ch at most once, and only as its message kind allows. */
  lemma KindsEmit(b: Dispatcher.Broker, ch: Dispatcher.Choice, b': Dispatcher.Broker)
    requires Dispatcher.Step(b, ch) == Dispatcher.Running(b') && !ch.e.Forward?
    ensures |b'.clusterOut| <= |b.clusterOut| + 1
    ensures ch.e.Add? ==> |b'.clusterOut| > |b.clusterOut|
    ensures !ch.e.Add? && !ch.e.Pubrel? && !ch.e.ClusterLogin? ==> b'.clusterOut == b.clusterOut
    ensures CanEmit(KindOf(ch.e), |b'.clusterOut| > |b.clusterOut|)
  {
    ClusterSystem.EmitsExactly(b, ch, b');
  }
}
