/**
  Progress: while a call waits some step towards its reply is possible, and every such step uses up part of a
  finite amount of work. So a reply cannot be put off forever, and when nothing can move nobody waits.
 */
module ProxyProgress {
  import opened Bytes
  import opened ProxyMessage
  import opened ProxyProtocol
  import opened ProxyNet
  import opened ProxyCalls
  import opened ProxyRuns

  /** The steps that bring messages on their way; the others are those of callers. */
  predicate IsHop(step: Step) {
    match step
    case Receive(_) => true
    case Lock => true
    case Handshake => true
    case HostStarts => true
    case Internal(_) => true
    case _ => false
  }

  function Total(qs: seq<seq<string>>): nat {
    if qs == [] then 0 else |qs[0]| + Total(qs[1..])
  }

  function Busy(hosts: seq<Host>): nat {
    if hosts == [] then 0 else HostCount(hosts[0]) + Busy(hosts[1..])
  }

  lemma {:induction false} TotalUpdate(qs: seq<seq<string>>, i: nat, q: seq<string>)
    requires i < |qs|
    ensures Total(qs[i := q]) + |qs[i]| == Total(qs) + |q|
  {
    if i > 0 {
      assert qs[i := q][1..] == qs[1..][i - 1 := q];
      TotalUpdate(qs[1..], i - 1, q);
    } else {
      assert qs[0 := q][1..] == qs[1..];
    }
  }

  lemma {:induction false} BusyUpdate(hosts: seq<Host>, i: nat, h: Host)
    requires i < |hosts|
    ensures Busy(hosts[i := h]) + HostCount(hosts[i]) == Busy(hosts) + HostCount(h)
  {
    if i > 0 {
      assert hosts[i := h][1..] == hosts[1..][i - 1 := h];
      BusyUpdate(hosts[1..], i - 1, h);
    } else {
      assert hosts[0 := h][1..] == hosts[1..];
    }
  }

  /** Hops a message in the hand of a broker has before it, coming from this side or the other. */
  function HandWork(h: Hand, sub: nat, pair: nat): nat {
    match h
    case Empty => 0
    case FromSub(_) => sub
    case FromPair(_) => pair
  }

  function StartWork(s: State): nat {
    (match s.phase case Starting => 2 case Polling => 1 case Running => 0) + (if s.hostUp then 0 else 4)
  }

  /** The hops left to the messages under way, each message counted by its distance from the end of its way. */
  function NetWork(net: Net): nat {
    11 * Total(net.plugin.out) + HandWork(net.plugin.hand, 10, 2) + 9 * |net.toHost|
    + HandWork(net.host.hand, 4, 8) + 7 * Total(net.host.inbox) + 6 * Busy(net.hosts)
    + 5 * Total(net.host.out) + 3 * |net.toPlugin| + Total(net.plugin.inbox)
  }

  function Work(s: State): nat {
    NetWork(s.net) + StartWork(s)
  }

  /** A broadcast reaches at most one queue. */
  lemma BroadcastTotal(inbox: seq<seq<string>>, d: string, pend: Pending)
    requires |inbox| == |pend| <= 100_000_000
    requires d == Hello() || IsReply(d, pend) || IsRequest(d, pend)
    ensures Total(Broadcast(inbox, d)) <= Total(inbox) + 1
  {
    hide IdOf;
    hide ToBytes;
    hide Broadcast;
    hide Total;
    hide EndText;
    hide StartText;
    var id: int := if d == Hello() then -1 else IdOf(d).value;
    var m :=
      if d == Hello() then Message(-1, RemoteHostStarted, "{}")
      else if IsReply(d, pend) then Message(id, ActionDescribeEnd, EndText(pend[id].value))
      else Message(id, ActionDescribeStart, StartText(pend[id].value));
    assert d == ToBytes(m);
    forall i | 0 <= i < |inbox|
      ensures Broadcast(inbox, d)[i] == if i == id then inbox[i] + [d] else inbox[i]
    {
      Reaches(inbox, m, i);
    }
    if id >= 0 {
      assert Broadcast(inbox, d) == inbox[id := inbox[id] + [d]];
      TotalUpdate(inbox, id, inbox[id] + [d]);
    } else {
      assert Broadcast(inbox, d) == inbox;
    }
  }

  lemma BrokerLowers(net: Net, pend: Pending, step: NetStep)
    requires Carries(net, pend) && NetNext(net, step).Some? && !step.HostReceives? && !step.HostReplies?
    ensures NetWork(NetNext(net, step).value) < NetWork(net)
  {
    hide Broadcast;
    hide Total;
    hide Busy;
    hide Hello;
    hide IsRequest;
    hide IsReply;
    hide OwnReplies;
    hide OwnRequests;
    match step
    case PluginTakesOut(i) => TotalUpdate(net.plugin.out, i, net.plugin.out[i][1..]);
    case PluginForwards =>
      if net.plugin.hand.FromPair? {
        BroadcastTotal(net.plugin.inbox, net.plugin.hand.data, pend);
      }
    case HostTakesOut(i) => TotalUpdate(net.host.out, i, net.host.out[i][1..]);
    case HostForwards =>
      if net.host.hand.FromPair? {
        BroadcastTotal(net.host.inbox, net.host.hand.data, pend);
      }
    case _ =>
  }

  lemma HostLowers(net: Net, pend: Pending, i: nat)
    requires Carries(net, pend) && NetNext(net, HostReceives(i)).Some?
    ensures NetWork(NetNext(net, HostReceives(i)).value) < NetWork(net)
  {
    hide NetNext;
    hide Total;
    hide Busy;
    hide IsRequest;
    hide IsReply;
    hide IsBack;
    hide OwnReplies;
    hide OwnRequests;
    hide Request;
    MayReceive(net, i);
    HostReceivesIs(net, pend, i);
    TotalUpdate(net.host.inbox, i, net.host.inbox[i][1..]);
    BusyUpdate(net.hosts, i, Handling(pend[i].value));
  }

  lemma ReplyLowers(net: Net, i: nat)
    requires NetNext(net, HostReplies(i)).Some?
    ensures NetWork(NetNext(net, HostReplies(i)).value) < NetWork(net)
  {
    hide Total;
    hide Busy;
    hide Reply;
    TotalUpdate(net.host.out, i, net.host.out[i] + [Reply(i, net.hosts[i].params)]);
    BusyUpdate(net.hosts, i, Free);
  }

  lemma InternalIs(s: State, step: NetStep)
    requires Next(s, Internal(step)).Some?
    ensures NetNext(s.net, step).Some?
    ensures Next(s, Internal(step)).value == s.(net := NetNext(s.net, step).value)
  {
    hide NetNext;
  }

  lemma WorkOfNet(s: State, net: Net)
    ensures Work(s.(net := net)) - Work(s) == NetWork(net) - NetWork(s.net)
  {
    hide NetWork;
  }

  lemma InternalLowers(s: State, step: NetStep)
    requires CallsOk(s) && Next(s, Internal(step)).Some?
    ensures Work(Next(s, Internal(step)).value) < Work(s)
  {
    hide *;
    CallsCarry(s);
    InternalIs(s, step);
    WorkOfNet(s, NetNext(s.net, step).value);
    match step
    case HostReceives(i) => HostLowers(s.net, PendingOf(s), i);
    case HostReplies(i) => ReplyLowers(s.net, i);
    case _ => BrokerLowers(s.net, PendingOf(s), step);
  }

  /** Every hop lowers the work that is left. */
  lemma HopLowers(s: State, step: Step)
    requires Inv(s) && IsHop(step) && Next(s, step).Some?
    ensures Work(Next(s, step).value) < Work(s)
  {
    hide Hello;
    hide FromBytes;
    hide Total;
    hide Busy;
    hide NetNext;
    hide CallsOk;
    match step
    case Receive(t) =>
      var id := s.threads[t].id;
      TotalUpdate(s.net.plugin.inbox, id, s.net.plugin.inbox[id][1..]);
    case Lock =>
    case Handshake => HandshakeIs(s);
    case HostStarts =>
    case Internal(step) => InternalLowers(s, step);
  }

  /** While the brokers are not yet through their start, one of them can go on. */
  lemma StartupMoves(s: State) returns (step: Step)
    requires Startup(s) && s.phase != Running
    ensures IsHop(step) && Next(s, step).Some?
  {
    hide Hello;
    if s.phase == Starting {
      step := Lock;
    } else if s.net.toPlugin != [] {
      HandshakeIs(s);
      step := Handshake;
    } else {
      step := HostStarts;
    }
  }

  /** Where no hop is possible the status is known, and every thread that slept on it has been told. */
  lemma StartupDone(s: State)
    requires Inv(s) && forall step | IsHop(step) :: Next(s, step).None?
    ensures s.ready.Some? && forall t | 0 <= t < |s.threads| :: !s.threads[t].Asleep?
  {
    hide Next;
    hide IsHop;
    hide CallsOk;
    if s.phase != Running {
      var step := StartupMoves(s);
    }
  }

  /**
    Asking for the status: a thread falls asleep only before the broker has taken the lock, so that it cannot
    miss being woken; it is held off while the broker polls with the lock, and afterwards told at once.
   */
  lemma WaitMeets(s: State, t: nat)
    requires Inv(s) && t < |s.threads| && MayCall(s.threads[t])
    ensures match s.phase
      case Starting => Next(s, Wait(t)) == Some(s.(threads := s.threads[t := Asleep]))
      case Polling => Next(s, Wait(t)) == None
      case Running => s.ready.Some? && Next(s, Wait(t)) == Some(s.(threads := s.threads[t := Informed(s.ready.value)]))
  {
    hide CallsOk;
  }

  lemma PluginBrokerMoves(s: State, i: nat) returns (step: Step)
    requires Startup(s)
    requires !s.net.plugin.hand.Empty? || s.net.toPlugin != [] || (i < |s.net.plugin.out| && s.net.plugin.out[i] != [])
    ensures IsHop(step) && Next(s, step).Some?
  {
    hide Hello;
    if s.phase != Running {
      step := StartupMoves(s);
    } else if !s.net.plugin.hand.Empty? {
      step := Internal(PluginForwards);
    } else if s.net.toPlugin != [] {
      step := Internal(PluginTakesPair);
    } else {
      step := Internal(PluginTakesOut(i));
    }
  }

  lemma HostBrokerMoves(s: State, i: nat) returns (step: Step)
    requires Startup(s)
    requires !s.net.host.hand.Empty? || s.net.toHost != [] || (i < |s.net.host.out| && s.net.host.out[i] != [])
    ensures IsHop(step) && Next(s, step).Some?
  {
    hide Hello;
    if !s.hostUp {
      step := HostStarts;
    } else if !s.net.host.hand.Empty? {
      step := Internal(HostForwards);
    } else if s.net.toHost != [] {
      step := Internal(HostTakesPair);
    } else {
      step := Internal(HostTakesOut(i));
    }
  }

  lemma HostServes(net: Net, pend: Pending, i: nat) returns (step: NetStep)
    requires Carries(net, pend) && i < |pend|
    requires net.host.inbox[i] != [] || net.hosts[i].Handling?
    ensures (step.HostReceives? || step.HostReplies?) && NetNext(net, step).Some?
  {
    if net.hosts[i].Handling? {
      step := HostReplies(i);
    } else {
      HostReceivesIs(net, pend, i);
      hide NetNext;
      step := HostReceives(i);
    }
  }

  lemma HostsWork(s: State, step: NetStep)
    requires (step.HostReceives? || step.HostReplies?) && NetNext(s.net, step).Some?
    ensures Next(s, Internal(step)).Some? && IsHop(Internal(step))
  {
    hide NetNext;
  }

  lemma HostMoves(s: State, i: nat) returns (step: Step)
    requires CallsOk(s) && i < |s.mutex| && |s.net.hosts| == |s.net.host.inbox| == |s.mutex|
    requires s.net.host.inbox[i] != [] || s.net.hosts[i].Handling?
    ensures IsHop(step) && Next(s, step).Some?
  {
    hide *;
    CallsCarry(s);
    var inner := HostServes(s.net, PendingOf(s), i);
    HostsWork(s, inner);
    step := Internal(inner);
  }

  /** While a thread waits for its reply something can move, without any timeout. */
  lemma SomeHop(s: State, t: nat) returns (step: Step)
    requires Inv(s) && t < |s.threads| && s.threads[t].Receiving?
    ensures IsHop(step) && Next(s, step).Some?
  {
    hide Startup;
    hide Answers;
    hide Next;
    hide Count;
    hide HandCount;
    hide Carries;
    var id := s.threads[t].id;
    assert ThreadLocks(s.threads[t], t, s.mutex);
    assert InFlight(s.net, id) == 1;
    NotNowhere(s.net, id);
    if s.net.plugin.inbox[id] != [] {
      ReceiveIs(s, t);
      step := Receive(t);
    } else if s.net.host.inbox[id] != [] || s.net.hosts[id].Handling? {
      step := HostMoves(s, id);
    } else if !s.net.host.hand.Empty? || s.net.toHost != [] || s.net.host.out[id] != [] {
      step := HostBrokerMoves(s, id);
    } else {
      step := PluginBrokerMoves(s, id);
    }
  }

  lemma NotNowhere(net: Net, id: nat)
    requires Sized(net, |net.hosts|) && id < |net.hosts| && InFlight(net, id) > 0
    ensures net.plugin.out[id] != [] || !net.plugin.hand.Empty? || net.toHost != [] || !net.host.hand.Empty?
      || net.host.inbox[id] != [] || net.hosts[id].Handling? || net.host.out[id] != [] || net.toPlugin != []
      || net.plugin.inbox[id] != []
  {
    hide One;
  }

  /** Hops alone: a schedule that leaves the callers out. */
  function Hops(s: State, steps: seq<Step>): Option<State>
    decreases |steps|
  {
    if steps == [] then Some(s)
    else if !IsHop(steps[0]) then None
    else
      var r := Next(s, steps[0]);
      if r.None? then None else Hops(r.value, steps[1..])
  }

  /** No schedule of hops is longer than the work there is. */
  lemma {:induction false} HopsEnd(s: State, steps: seq<Step>)
    requires Inv(s) && Hops(s, steps).Some?
    ensures |steps| <= Work(s) - Work(Hops(s, steps).value) && Inv(Hops(s, steps).value)
    decreases |steps|
  {
    hide Inv;
    hide Next;
    hide Work;
    if steps != [] {
      HopLowers(s, steps[0]);
      StepInv(s, steps[0]);
      HopsEnd(Next(s, steps[0]).value, steps[1..]);
    }
  }

  /**
    Delivery. From any reachable state, every schedule of hops comes to an end, and where it can go no
    further the status is known and no thread waits for it or for a reply any more.
   */
  lemma EveryCallAnswered(n: nat, k: nat, steps: seq<Step>, hops: seq<Step>, t: nat)
    requires n <= 100_000_000 && After(n, k, steps).Some?
    requires Hops(After(n, k, steps).value, hops).Some?
    requires var s := Hops(After(n, k, steps).value, hops).value;
      forall step | IsHop(step) :: Next(s, step).None?
    ensures |hops| <= Work(After(n, k, steps).value)
    ensures var s := Hops(After(n, k, steps).value, hops).value;
      s.ready.Some? && (t < |s.threads| ==> !s.threads[t].Receiving? && !s.threads[t].Asleep?)
  {
    hide After;
    hide Next;
    hide Inv;
    hide Work;
    hide Hops;
    hide IsHop;
    RunInvariant(n, k, steps);
    HopsEnd(After(n, k, steps).value, hops);
    var s := Hops(After(n, k, steps).value, hops).value;
    StartupDone(s);
    if t < |s.threads| && s.threads[t].Receiving? {
      var step := SomeHop(s, t);
    }
  }

  /** The steps of calls that have begun, those of their threads included. */
  predicate IsAdvance(step: Step) {
    IsHop(step) || step.Acquire? || step.Send? || step.Release?
  }

  predicate InCall(th: Thread) {
    th.Acquiring? || th.Sending? || th.Receiving? || th.Returning?
  }

  /** What a thread has before it; a request it sends will need eleven hops. */
  function ThreadWork(th: Thread): nat {
    match th
    case Acquiring(_, _) => 15
    case Sending(_, _) => 14
    case Receiving(_, _) => 2
    case Returning(_, _, _) => 1
    case _ => 0
  }

  function ThreadsWork(threads: seq<Thread>): nat {
    if threads == [] then 0 else ThreadWork(threads[0]) + ThreadsWork(threads[1..])
  }

  function CallWork(s: State): nat {
    Work(s) + ThreadsWork(s.threads)
  }

  lemma {:induction false} ThreadUpdate(threads: seq<Thread>, t: nat, th: Thread)
    requires t < |threads|
    ensures ThreadsWork(threads[t := th]) + ThreadWork(threads[t]) == ThreadsWork(threads) + ThreadWork(th)
  {
    if t > 0 {
      assert threads[t := th][1..] == threads[1..][t - 1 := th];
      ThreadUpdate(threads[1..], t - 1, th);
    } else {
      assert threads[0 := th][1..] == threads[1..];
    }
  }

  lemma {:induction false} WokenWork(threads: seq<Thread>, ready: bool)
    ensures ThreadsWork(Woken(threads, ready)) == ThreadsWork(threads)
  {
    if threads != [] {
      assert Woken(threads, ready)[1..] == Woken(threads[1..], ready);
      WokenWork(threads[1..], ready);
    }
  }

  /** Every such step lowers what is left to do for the calls that have begun. */
  lemma AdvanceLowers(s: State, step: Step)
    requires Inv(s) && IsAdvance(step) && Next(s, step).Some?
    ensures CallWork(Next(s, step).value) < CallWork(s)
  {
    hide Hello;
    hide FromBytes;
    hide Total;
    hide Busy;
    hide NetNext;
    hide CallsOk;
    hide HandWork;
    hide Request;
    hide Inv;
    var r := Next(s, step).value;
    if IsHop(step) {
      HopLowers(s, step);
      HopThreads(s, step);
    } else {
      var t := step.t;
      ThreadUpdate(s.threads, t, r.threads[t]);
      if step.Send? {
        var id := s.threads[t].id;
        TotalUpdate(s.net.plugin.out, id, r.net.plugin.out[id]);
      }
    }
  }

  lemma HopThreads(s: State, step: Step)
    requires IsHop(step) && Next(s, step).Some?
    ensures ThreadsWork(Next(s, step).value.threads) <= ThreadsWork(s.threads)
  {
    hide FromBytes;
    hide NetNext;
    hide Woken;
    var r := Next(s, step).value;
    if step.Receive? {
      ThreadUpdate(s.threads, step.t, r.threads[step.t]);
    } else if step.Handshake? {
      WokenWork(s.threads, r.ready.value);
    }
  }

  /** While any call is under way, waiting for its mutex or for its reply, some step of a call is possible. */
  lemma SomeAdvance(s: State, t: nat) returns (step: Step)
    requires Inv(s) && t < |s.threads| && InCall(s.threads[t])
    ensures IsAdvance(step) && Next(s, step).Some?
  {
    assert ThreadLocks(s.threads[t], t, s.mutex);
    if s.threads[t].Acquiring? {
      var id := s.threads[t].id;
      if s.mutex[id].None? {
        step := Acquire(t);
      } else {
        step := HolderMoves(s, s.mutex[id].value);
      }
    } else {
      step := HolderMoves(s, t);
    }
  }

  lemma HolderMoves(s: State, t: nat) returns (step: Step)
    requires Inv(s) && t < |s.threads| && InCall(s.threads[t]) && !s.threads[t].Acquiring?
    ensures IsAdvance(step) && Next(s, step).Some?
  {
    hide Carries;
    hide Startup;
    hide Answers;
    hide NetNext;
    hide InFlight;
    assert ThreadLocks(s.threads[t], t, s.mutex);
    assert |s.net.plugin.out| == |s.mutex|;
    hide Inv;
    match s.threads[t]
    case Sending(_, _) => step := Send(t);
    case Receiving(_, _) => step := SomeHop(s, t);
    case Returning(_, _, _) => step := Release(t);
  }

  /** A schedule without new calls. */
  function Advances(s: State, steps: seq<Step>): Option<State>
    decreases |steps|
  {
    if steps == [] then Some(s)
    else if !IsAdvance(steps[0]) then None
    else
      var r := Next(s, steps[0]);
      if r.None? then None else Advances(r.value, steps[1..])
  }

  lemma {:induction false} AdvancesEnd(s: State, steps: seq<Step>)
    requires Inv(s) && Advances(s, steps).Some?
    ensures |steps| <= CallWork(s) - CallWork(Advances(s, steps).value) && Inv(Advances(s, steps).value)
    decreases |steps|
  {
    hide Inv;
    hide Next;
    hide CallWork;
    if steps != [] {
      AdvanceLowers(s, steps[0]);
      StepInv(s, steps[0]);
      AdvancesEnd(Next(s, steps[0]).value, steps[1..]);
    }
  }

  lemma HopsAdvance(s: State)
    requires forall step | IsAdvance(step) :: Next(s, step).None?
    ensures forall step | IsHop(step) :: Next(s, step).None?
  {
    hide Next;
    hide IsHop;
  }

  /**
    Every call returns. From any reachable state, a schedule without new calls comes to an end, and where it
    can go no further no thread is in a call any more: none waits for a mutex, sends, waits or holds one. No
    thread has missed the status either.
   */
  lemma EveryCallReturns(n: nat, k: nat, steps: seq<Step>, more: seq<Step>, t: nat)
    requires n <= 100_000_000 && After(n, k, steps).Some?
    requires Advances(After(n, k, steps).value, more).Some?
    requires var s := Advances(After(n, k, steps).value, more).value;
      forall step | IsAdvance(step) :: Next(s, step).None?
    ensures |more| <= CallWork(After(n, k, steps).value)
    ensures var s := Advances(After(n, k, steps).value, more).value;
      s.ready.Some? && (t < |s.threads| ==> !InCall(s.threads[t]) && !s.threads[t].Asleep?)
  {
    hide After;
    hide Next;
    hide Inv;
    hide CallWork;
    hide Advances;
    hide IsAdvance;
    hide InCall;
    RunInvariant(n, k, steps);
    AdvancesEnd(After(n, k, steps).value, more);
    var s := Advances(After(n, k, steps).value, more).value;
    HopsAdvance(s);
    StartupDone(s);
    if t < |s.threads| && InCall(s.threads[t]) {
      var step := SomeAdvance(s, t);
    }
  }
}
