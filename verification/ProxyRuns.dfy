/** The theorems about whole runs: the invariant of every interleaving, and the start-up handshake. */
module ProxyRuns {
  import opened Bytes
  import opened ProxyMessage
  import opened ProxyProtocol
  import opened ProxyNet
  import opened ProxyCalls

  predicate NoHello(q: seq<string>) {
    forall k | 0 <= k < |q| :: q[k] != Hello()
  }

  /** The greeting is first in the queue, and only there. */
  predicate Greeted(q: seq<string>) {
    q != [] && q[0] == Hello() && NoHello(q[1..])
  }

  predicate ThreadKnows(th: Thread, ready: Option<bool>) {
    (th.Asleep? ==> ready.None?) && (th.Informed? ==> ready == Some(th.ready))
  }

  predicate Startup(s: State) {
    && (s.ready.Some? <==> s.phase == Running)
    && (forall t | 0 <= t < |s.threads| :: ThreadKnows(s.threads[t], s.ready))
    && (s.phase != Running ==>
         s.net.plugin.hand.Empty? && s.net.published == [] && (s.hostUp ==> Greeted(s.net.toPlugin)))
    && (!s.hostUp ==> s.net.host.hand.Empty? && s.net.toPlugin == [] && s.ready != Some(true))
    && (s.ready == Some(true) ==>
         NoHello(s.net.toPlugin) && NoHello(s.net.published) && s.net.plugin.hand != FromPair(Hello()))
  }

  predicate Inv(s: State) {
    CallsOk(s) && Startup(s)
  }

  lemma ReplyIsNotHello(m: string, pend: Pending)
    requires IsReply(m, pend)
    ensures m != Hello()
  {
    HelloDecodes();
  }

  /** The first message of the host is its greeting: the status can be false only after a timeout. */
  lemma HandshakeIs(s: State)
    requires Startup(s) && s.phase == Polling && s.net.toPlugin != []
    ensures s.net.toPlugin[0] == Hello()
    ensures Next(s, Handshake) ==
      Some(s.(phase := Running, ready := Some(true), threads := Woken(s.threads, true),
              net := s.net.(toPlugin := s.net.toPlugin[1..])))
  {
    hide FromBytes;
    hide Hello;
    HelloDecodes();
  }

  lemma ThreadStepStartup(s: State, r: State, t: nat, th: Thread)
    requires Startup(s) && t < |s.threads| && ThreadKnows(th, s.ready)
    requires r == s.(threads := s.threads[t := th], mutex := r.mutex, net := r.net, returned := r.returned)
    requires r.net == s.net.(plugin := s.net.plugin.(out := r.net.plugin.out, inbox := r.net.plugin.inbox))
    ensures Startup(r)
  {
    hide Hello;
    hide NoHello;
    hide Greeted;
  }

  lemma InternalStartup(s: State, step: NetStep)
    requires Startup(s) && Carries(s.net, PendingOf(s)) && Next(s, Internal(step)).Some?
    ensures Startup(Next(s, Internal(step)).value)
  {
    hide Hello;
    hide Carries;
    hide FromBytes;
    hide Broadcast;
    hide ParamsOf;
    hide ToBytes;
    if step == HostForwards && s.net.host.hand.FromSub? {
      ForwardedReply(s.net, PendingOf(s));
      var q, d := s.net.toPlugin, s.net.host.hand.data;
      if Greeted(q) {
        assert (q + [d])[1..] == q[1..] + [d];
      }
    }
  }

  lemma ForwardedReply(net: Net, pend: Pending)
    requires Carries(net, pend) && net.host.hand.FromSub?
    ensures net.host.hand.data != Hello()
  {
    ReplyIsNotHello(net.host.hand.data, pend);
  }

  lemma StartupKeeps(s: State, step: Step)
    requires Inv(s) && Next(s, step).Some?
    ensures Startup(Next(s, step).value)
  {
    if step.Lock? || step.Handshake? || step.Timeout? || step.HostStarts? {
      hide CallsOk;
      BrokerStartup(s, step);
    } else if step.Internal? {
      hide CallsOk;
      hide Startup;
      hide NetNext;
      CallsCarry(s);
      InternalStartup(s, step.step);
    } else {
      ThreadStartup(s, step);
    }
  }

  lemma ThreadStartup(s: State, step: Step)
    requires Startup(s) && Next(s, step).Some?
    requires step.Wait? || step.Call? || step.Acquire? || step.Send? || step.Receive? || step.Release?
    ensures Startup(Next(s, step).value)
  {
    hide Hello;
    hide NoHello;
    hide Greeted;
    hide FromBytes;
    hide Request;
    hide DescribedBy;
    var r := Next(s, step).value;
    ThreadStepStartup(s, r, step.t, r.threads[step.t]);
  }

  lemma BrokerStartup(s: State, step: Step)
    requires Startup(s) && Next(s, step).Some?
    requires step.Lock? || step.Handshake? || step.Timeout? || step.HostStarts?
    ensures Startup(Next(s, step).value)
  {
    hide Hello;
    hide FromBytes;
    match step
    case Lock =>
    case Handshake => HandshakeIs(s);
    case Timeout =>
    case HostStarts =>
      assert s.net.toPlugin + [Hello()] == [Hello()];
      assert NoHello([Hello()][1..]);
  }

  lemma CallsCarry(s: State)
    requires CallsOk(s)
    ensures Carries(s.net, PendingOf(s)) && OneEach(s.net, PendingOf(s))
  {
  }

  lemma CallsKeep(s: State, step: Step)
    requires Inv(s) && Next(s, step).Some?
    ensures CallsOk(Next(s, step).value)
  {
    hide Hello;
    hide Carries;
    hide OneEach;
    hide Locks;
    hide Answers;
    hide NetNext;
    hide FromBytes;
    hide PendingOf;
    match step
    case Wait(t) => WaitKeeps(s, t);
    case Call(t, id, params) => CallKeeps(s, t, id, params);
    case Acquire(t) => AcquireKeeps(s, t);
    case Send(t) => SendKeeps(s, t);
    case Receive(t) => ReceiveKeeps(s, t);
    case Release(t) => ReleaseKeeps(s, t);
    case Lock => NetChange(s, Next(s, Lock).value);
    case Handshake =>
      HandshakeIs(s);
      HelloTaken(s.net, PendingOf(s));
      var net := s.net.(toPlugin := s.net.toPlugin[1..]);
      NetChange(s, s.(net := net));
      WokenKeeps(s.(net := net), true, Running, Some(true));
    case Timeout => WokenKeeps(s, false, Running, Some(false));
    case HostStarts =>
      HelloAdded(s.net, PendingOf(s));
      NetChange(s, Next(s, HostStarts).value);
    case Internal(step) =>
      NetKeeps(s.net, PendingOf(s), step);
      NetChange(s, Next(s, Internal(step)).value);
  }

  lemma InitInv(n: nat, k: nat)
    requires n <= 100_000_000
    ensures Inv(Init(n, k))
  {
    hide Hello;
    var s := Init(n, k);
    assert forall i | 0 <= i < n :: InFlight(s.net, i) == 0;
  }

  /** What holds in every state that any interleaving of any number of threads and instances can reach. */
  lemma {:induction false} RunInvariant(n: nat, k: nat, steps: seq<Step>)
    requires n <= 100_000_000 && After(n, k, steps).Some?
    ensures Inv(After(n, k, steps).value) && |After(n, k, steps).value.mutex| == n
    decreases |steps|
  {
    hide Inv;
    hide Next;
    hide Init;
    if steps == [] {
      InitInv(n, k);
      InitSize(n, k);
    } else {
      var last := |steps| - 1;
      RunInvariant(n, k, steps[..last]);
      var s := After(n, k, steps[..last]).value;
      StepInv(s, steps[last]);
    }
  }

  lemma InitSize(n: nat, k: nat)
    ensures |Init(n, k).mutex| == n
  {
  }

  lemma StepInv(s: State, step: Step)
    requires Inv(s) && Next(s, step).Some?
    ensures Inv(Next(s, step).value) && |Next(s, step).value.mutex| == |s.mutex|
  {
    hide CallsOk;
    hide Startup;
    CallsKeep(s, step);
    StartupKeeps(s, step);
    hide FromBytes;
    hide NetNext;
  }

  /** Exactly one message or handling for every call that waits, none for the other instances. */
  lemma OneInFlight(n: nat, k: nat, steps: seq<Step>, i: nat)
    requires n <= 100_000_000 && After(n, k, steps).Some? && i < n
    ensures var s := After(n, k, steps).value;
      && Sized(s.net, n) && |s.mutex| == n
      && InFlight(s.net, i) ==
        if exists t | 0 <= t < |s.threads| :: s.threads[t].Receiving? && s.threads[t].id == i then 1 else 0
  {
    hide After;
    hide InFlight;
    hide Startup;
    hide Carries;
    RunInvariant(n, k, steps);
    var s := After(n, k, steps).value;
    PendingHere(s, i);
  }

  lemma PendingHere(s: State, i: nat)
    requires CallsOk(s) && i < |s.mutex|
    ensures Sized(s.net, |s.mutex|)
    ensures PendingAt(s, i).Some? <==>
      exists t | 0 <= t < |s.threads| :: s.threads[t].Receiving? && s.threads[t].id == i
  {
    hide InFlight;
    hide Answers;
    forall t | 0 <= t < |s.threads| && s.threads[t].Receiving? && s.threads[t].id == i
      ensures PendingAt(s, i).Some?
    {
      assert ThreadLocks(s.threads[t], t, s.mutex);
    }
  }

  /** The call brought back what its own instance says to its own parameters, and the status of success. */
  predicate OwnAnswer(call: Return) {
    match call.result
    case Answer(reply) =>
      && reply.inputs == ["input1", "input2"] && reply.parameters == ["a", "b", call.params]
      && reply.status == "kOfxStatusOk"
    case Unexpected => false
  }

  /** Every call that has returned brought back the reply to its own parameters. */
  lemma ReturnsOwnReply(n: nat, k: nat, steps: seq<Step>, j: nat)
    requires n <= 100_000_000 && After(n, k, steps).Some?
    requires j < |After(n, k, steps).value.returned|
    ensures OwnAnswer(After(n, k, steps).value.returned[j])
  {
    hide After;
    hide Startup;
    hide Locks;
    hide Carries;
    hide OneEach;
    RunInvariant(n, k, steps);
  }

  /** The status is set once and for all, to false by a timeout only, and everyone who waited has it. */
  lemma StatusSettles(n: nat, k: nat, steps: seq<Step>, step: Step)
    requires n <= 100_000_000 && After(n, k, steps).Some? && Next(After(n, k, steps).value, step).Some?
    ensures var s := After(n, k, steps).value;
      var r := Next(s, step).value;
      && (s.ready.Some? ==> r.ready == s.ready)
      && (s.ready.None? && r.ready == Some(false) ==> step == Timeout)
      && (s.ready.None? && r.ready == Some(true) ==> step == Handshake)
      && (forall t | 0 <= t < |r.threads| && r.ready.Some? :: r.threads[t] != Asleep)
      && (forall t | 0 <= t < |r.threads| && r.threads[t].Informed? :: r.ready == Some(r.threads[t].ready))
  {
    RunInvariant(n, k, steps);
    hide After;
    hide CallsOk;
    var s := After(n, k, steps).value;
    StepInv(s, step);
    StatusStep(s, step);
    hide Next;
    var r := Next(s, step).value;
    assert forall t | 0 <= t < |r.threads| :: ThreadKnows(r.threads[t], r.ready);
  }

  lemma StatusStep(s: State, step: Step)
    requires Startup(s) && Next(s, step).Some?
    ensures var r := Next(s, step).value;
      && (s.ready.Some? ==> r.ready == s.ready)
      && (s.ready.None? && r.ready == Some(false) ==> step == Timeout)
      && (s.ready.None? && r.ready == Some(true) ==> step == Handshake)
  {
    hide FromBytes;
    hide NetNext;
    hide Hello;
    if step == Handshake {
      HandshakeIs(s);
    }
  }

  /** After a successful handshake the greeting has not been published to instances, and never will be. */
  lemma GreetingNotForwarded(n: nat, k: nat, steps: seq<Step>)
    requires n <= 100_000_000 && After(n, k, steps).Some?
    requires After(n, k, steps).value.ready == Some(true)
    ensures Hello() !in After(n, k, steps).value.net.published
  {
    RunInvariant(n, k, steps);
    hide After;
    hide CallsOk;
    hide Hello;
  }

  /** With or without a handshake, no instance ever finds anything but replies to itself in its queue. */
  lemma InboxesClean(n: nat, k: nat, steps: seq<Step>, i: nat, j: nat)
    requires n <= 100_000_000 && After(n, k, steps).Some? && i < n
    requires |After(n, k, steps).value.net.plugin.inbox| == n && j < |After(n, k, steps).value.net.plugin.inbox[i]|
    ensures var s := After(n, k, steps).value;
      && i < |s.mutex| && PendingAt(s, i).Some?
      && s.net.plugin.inbox[i][j] == Reply(i, PendingAt(s, i).value)
  {
    RunInvariant(n, k, steps);
    hide After;
    hide Startup;
    hide Locks;
    hide Answers;
    hide OneEach;
    hide Reply;
    var s := After(n, k, steps).value;
    assert OwnReplies(s.net.plugin.inbox[i], i, PendingOf(s));
  }
}
