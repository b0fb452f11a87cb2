/**
  Whole runs of the proxy, over all interleavings: every call that returns has consumed the reply computed
  from its own parameters, whatever other threads and instances do.
 */
module ProxyCalls {
  import opened Bytes
  import opened ProxyMessage
  import opened ProxyProtocol
  import opened ProxyNet

  predicate HasLock(th: Thread, id: nat) {
    (th.Sending? || th.Receiving? || th.Returning?) && th.id == id
  }

  /** Parameters of the call of instance `i` that waits for its reply, if one does. */
  function PendingAt(s: State, i: nat): Option<string>
    requires i < |s.mutex|
  {
    match s.mutex[i]
    case Some(t) =>
      if t < |s.threads| && s.threads[t].Receiving? && s.threads[t].id == i then Some(s.threads[t].params) else None
    case None => None
  }

  function PendingOf(s: State): (pend: Pending)
    ensures |pend| == |s.mutex|
    ensures forall i | 0 <= i < |pend| :: pend[i] == PendingAt(s, i)
  {
    seq(|s.mutex|, i requires 0 <= i < |s.mutex| => PendingAt(s, i))
  }

  /** A mutex is held exactly by the thread between its acquiring and its releasing it. */
  predicate Locks(s: State) {
    && (forall i | 0 <= i < |s.mutex| ::
         s.mutex[i].Some? ==> s.mutex[i].value < |s.threads| && HasLock(s.threads[s.mutex[i].value], i))
    && (forall t | 0 <= t < |s.threads| :: ThreadLocks(s.threads[t], t, s.mutex))
  }

  predicate ThreadLocks(th: Thread, t: nat, mutex: seq<Option<nat>>) {
    match th
    case Acquiring(id, _) => id < |mutex|
    case Sending(id, _) => id < |mutex| && mutex[id] == Some(t)
    case Receiving(id, _) => id < |mutex| && mutex[id] == Some(t)
    case Returning(id, _, _) => id < |mutex| && mutex[id] == Some(t)
    case _ => true
  }

  /** Calls end with the reply to their own request and never with the unexpected message. */
  predicate Answers(s: State) {
    && (forall t | 0 <= t < |s.threads| ::
         s.threads[t].Returning? ==> s.threads[t].result == Answer(ReplyTo(s.threads[t].params)))
    && (forall k | 0 <= k < |s.returned| :: s.returned[k].result == Answer(ReplyTo(s.returned[k].params)))
  }

  predicate CallsOk(s: State) {
    && Locks(s) && Answers(s)
    && Carries(s.net, PendingOf(s)) && OneEach(s.net, PendingOf(s))
  }

  lemma SamePending(s: State, r: State)
    requires |r.mutex| == |s.mutex| && forall i | 0 <= i < |s.mutex| :: PendingAt(r, i) == PendingAt(s, i)
    ensures PendingOf(r) == PendingOf(s)
  {
    hide PendingAt;
  }

  /** With nothing under way for an instance its entry may change: no message speaks of it. */
  lemma PendingFree(net: Net, pend: Pending, id: nat, v: Option<string>)
    requires Carries(net, pend) && id < |pend| && InFlight(net, id) == 0
    ensures Carries(net, pend[id := v])
  {
    hide IdOf;
    hide Request;
    hide Reply;
    hide Hello;
    var p1 := pend[id := v];
    NoneLeft(net, id);
    forall i | 0 <= i < |pend| ensures OwnRequests(net.plugin.out[i], i, p1) {
      OwnKept(net.plugin.out[i], i, pend, id, v);
    }
    forall i | 0 <= i < |pend| ensures OwnRequests(net.host.inbox[i], i, p1) {
      OwnKept(net.host.inbox[i], i, pend, id, v);
    }
    forall i | 0 <= i < |pend| ensures OwnReplies(net.host.out[i], i, p1) {
      OwnKept(net.host.out[i], i, pend, id, v);
    }
    forall i | 0 <= i < |pend| ensures OwnReplies(net.plugin.inbox[i], i, p1) {
      OwnKept(net.plugin.inbox[i], i, pend, id, v);
    }
    hide OwnRequests;
    hide OwnReplies;
    assert forall k | 0 <= k < |net.toHost| :: IsRequest(net.toHost[k], p1);
    assert forall k | 0 <= k < |net.toPlugin| :: IsBack(net.toPlugin[k], p1);
  }

  predicate Lacks(q: seq<string>, id: nat) {
    forall k | 0 <= k < |q| :: IdOf(q[k]) != Some(id as int)
  }

  lemma NoneLeft(net: Net, id: nat)
    requires Sized(net, |net.hosts|) && id < |net.hosts| && InFlight(net, id) == 0
    ensures Lacks(net.plugin.out[id], id) && Lacks(net.host.inbox[id], id)
    ensures Lacks(net.host.out[id], id) && Lacks(net.plugin.inbox[id], id)
    ensures Lacks(net.toHost, id) && Lacks(net.toPlugin, id) && net.hosts[id] == Free
    ensures !net.plugin.hand.Empty? ==> IdOf(net.plugin.hand.data) != Some(id as int)
    ensures !net.host.hand.Empty? ==> IdOf(net.host.hand.data) != Some(id as int)
  {
    hide IdOf;
    hide Count;
    CountNone(net.plugin.out[id], id);
    CountNone(net.host.inbox[id], id);
    CountNone(net.host.out[id], id);
    CountNone(net.plugin.inbox[id], id);
    CountNone(net.toHost, id);
    CountNone(net.toPlugin, id);
  }

  /** The queue of one instance, when the entry of an instance with none in it changes. */
  lemma OwnKept(q: seq<string>, i: nat, pend: Pending, id: nat, v: Option<string>)
    requires id < |pend| && (i == id ==> Lacks(q, id))
    ensures OwnRequests(q, i, pend) ==> OwnRequests(q, i, pend[id := v])
    ensures OwnReplies(q, i, pend) ==> OwnReplies(q, i, pend[id := v])
  {
    hide IdOf;
    hide Request;
    hide Reply;
    if i == id && q != [] {
      OfIs(q[0], id, pend);
    }
  }

  lemma WaitKeeps(s: State, t: nat)
    requires CallsOk(s) && Next(s, Wait(t)).Some?
    ensures CallsOk(Next(s, Wait(t)).value)
  {
    hide Carries;
    hide OneEach;
    SamePending(s, Next(s, Wait(t)).value);
  }

  lemma CallKeeps(s: State, t: nat, id: nat, params: string)
    requires CallsOk(s) && Next(s, Call(t, id, params)).Some?
    ensures CallsOk(Next(s, Call(t, id, params)).value)
  {
    hide Carries;
    hide OneEach;
    SamePending(s, Next(s, Call(t, id, params)).value);
  }

  lemma AcquireKeeps(s: State, t: nat)
    requires CallsOk(s) && Next(s, Acquire(t)).Some?
    ensures CallsOk(Next(s, Acquire(t)).value)
  {
    hide Carries;
    hide OneEach;
    hide EndText;
    hide DescribedBy;
    hide ReplyTo;
    SamePending(s, Next(s, Acquire(t)).value);
  }

  lemma ReleaseKeeps(s: State, t: nat)
    requires CallsOk(s) && Next(s, Release(t)).Some?
    ensures CallsOk(Next(s, Release(t)).value)
  {
    hide Carries;
    hide OneEach;
    hide EndText;
    hide DescribedBy;
    hide ReplyTo;
    SamePending(s, Next(s, Release(t)).value);
  }

  lemma WokenKeeps(s: State, ready: bool, phase: Phase, status: Option<bool>)
    requires CallsOk(s)
    ensures CallsOk(s.(threads := Woken(s.threads, ready), phase := phase, ready := status))
  {
    hide Carries;
    hide OneEach;
    hide EndText;
    hide DescribedBy;
    hide ReplyTo;
    var r := s.(threads := Woken(s.threads, ready), phase := phase, ready := status);
    SamePending(s, r);
  }

  /** Other parts of the state do not matter. */
  lemma NetChange(s: State, r: State)
    requires CallsOk(s) && r.threads == s.threads && r.mutex == s.mutex && r.returned == s.returned
    requires Carries(r.net, PendingOf(s)) && OneEach(r.net, PendingOf(s))
    ensures CallsOk(r)
  {
    hide Carries;
    hide OneEach;
    hide EndText;
    hide DescribedBy;
    hide ReplyTo;
    SamePending(s, r);
  }

  lemma HelloCount(i: nat)
    ensures One(Hello(), i) == 0
  {
    hide IdOf;
    HelloDecodes();
  }

  lemma HelloAdded(net: Net, pend: Pending)
    requires Carries(net, pend) && OneEach(net, pend)
    ensures var r := net.(toPlugin := net.toPlugin + [Hello()]); Carries(r, pend) && OneEach(r, pend)
  {
    hide Count;
    hide Hello;
    hide IsRequest;
    hide IsReply;
    hide OwnRequests;
    hide OwnReplies;
    hide One;
    var r := net.(toPlugin := net.toPlugin + [Hello()]);
    assert Carries(r, pend);
    hide Carries;
    forall i | 0 <= i < |pend| ensures InFlight(r, i) == InFlight(net, i) {
      HelloCount(i);
      CountAdd(net.toPlugin, Hello(), i);
    }
  }

  lemma HelloTaken(net: Net, pend: Pending)
    requires Carries(net, pend) && OneEach(net, pend) && net.toPlugin != [] && net.toPlugin[0] == Hello()
    ensures var r := net.(toPlugin := net.toPlugin[1..]); Carries(r, pend) && OneEach(r, pend)
  {
    hide Count;
    hide Hello;
    hide IsRequest;
    hide IsReply;
    hide IsBack;
    hide OwnRequests;
    hide OwnReplies;
    hide One;
    var r := net.(toPlugin := net.toPlugin[1..]);
    forall i | 0 <= i < |pend| ensures InFlight(r, i) == InFlight(net, i) {
      HelloCount(i);
      CountPop(net.toPlugin, i);
    }
  }

  /** What sending a request does to the messages under way. */
  lemma Sent(net: Net, pend: Pending, id: nat, params: string)
    requires Carries(net, pend) && OneEach(net, pend) && id < |pend| && pend[id].None?
    ensures var p1 := pend[id := Some(params)];
      var out := net.plugin.out;
      var r := net.(plugin := net.plugin.(out := out[id := out[id] + [Request(id, params)]]));
      Carries(r, p1) && OneEach(r, p1)
  {
    hide Count;
    hide Hello;
    hide IsRequest;
    hide IsReply;
    hide IsBack;
    hide OwnReplies;
    hide Request;
    hide IdOf;
    hide HandCount;
    var p1, out, m := pend[id := Some(params)], net.plugin.out, Request(id, params);
    var r := net.(plugin := net.plugin.(out := out[id := out[id] + [m]]));
    PendingFree(net, pend, id, Some(params));
    assert OwnRequests(out[id], id, p1);
    assert Carries(r, p1);
    hide Carries;
    RequestDecodes(id, params);
    forall i | 0 <= i < |pend| ensures InFlight(r, i) == InFlight(net, i) + if i == id then 1 else 0 {
      CountAdd(out[id], m, i);
      OneOther(m, id, i);
    }
  }

  /** What receiving a message does: it was the one reply under way. */
  lemma Taken(net: Net, pend: Pending, id: nat)
    requires Carries(net, pend) && OneEach(net, pend) && id < |pend| && net.plugin.inbox[id] != []
    ensures pend[id].Some? && net.plugin.inbox[id][0] == Reply(id, pend[id].value)
    ensures var p1 := pend[id := None];
      var inbox := net.plugin.inbox;
      var r := net.(plugin := net.plugin.(inbox := inbox[id := inbox[id][1..]]));
      Carries(r, p1) && OneEach(r, p1)
  {
    hide Reply;
    hide IdOf;
    hide InFlight;
    hide Carries;
    var inbox := net.plugin.inbox;
    var r := net.(plugin := net.plugin.(inbox := inbox[id := inbox[id][1..]]));
    ReplyFirst(net, pend, id);
    TakenCarries(net, pend, id);
    forall i | 0 <= i < |pend| ensures InFlight(r, i) == InFlight(net, i) - if i == id then 1 else 0 {
      TakenCount(net, |pend|, id, i);
    }
    PendingFree(r, pend, id, None);
  }

  lemma ReplyFirst(net: Net, pend: Pending, id: nat)
    requires Carries(net, pend) && id < |pend| && net.plugin.inbox[id] != []
    ensures pend[id].Some? && net.plugin.inbox[id][0] == Reply(id, pend[id].value)
    ensures IdOf(net.plugin.inbox[id][0]) == Some(id as int)
  {
    hide IdOf;
    hide Reply;
    assert OwnReplies(net.plugin.inbox[id], id, pend);
    OfIs(net.plugin.inbox[id][0], id, pend);
  }

  lemma TakenCarries(net: Net, pend: Pending, id: nat)
    requires Carries(net, pend) && id < |pend| && net.plugin.inbox[id] != []
    ensures var inbox := net.plugin.inbox;
      Carries(net.(plugin := net.plugin.(inbox := inbox[id := inbox[id][1..]])), pend)
  {
    hide IsRequest;
    hide IsReply;
    hide IsBack;
    hide OwnRequests;
    hide IsReplyOf;
    assert OwnReplies(net.plugin.inbox[id], id, pend);
  }

  lemma TakenCount(net: Net, n: nat, id: nat, i: nat)
    requires Sized(net, n) && id < n && i < n && net.plugin.inbox[id] != []
    requires IdOf(net.plugin.inbox[id][0]) == Some(id as int)
    ensures var inbox := net.plugin.inbox;
      var r := net.(plugin := net.plugin.(inbox := inbox[id := inbox[id][1..]]));
      InFlight(r, i) == InFlight(net, i) - if i == id then 1 else 0
  {
    hide Count;
    hide IdOf;
    hide HandCount;
    CountPop(net.plugin.inbox[id], i);
    OneOther(net.plugin.inbox[id][0], id, i);
  }

  lemma SendKeeps(s: State, t: nat)
    requires CallsOk(s) && Next(s, Send(t)).Some?
    ensures CallsOk(Next(s, Send(t)).value)
  {
    hide Carries;
    hide OneEach;
    hide EndText;
    hide DescribedBy;
    hide ReplyTo;
    hide Request;
    var Sending(id, params) := s.threads[t];
    var r := Next(s, Send(t)).value;
    assert ThreadLocks(s.threads[t], t, s.mutex);
    Sent(s.net, PendingOf(s), id, params);
    assert PendingOf(r) == PendingOf(s)[id := Some(params)];
  }

  /** A waiting thread can receive only the reply to its own request. */
  lemma ReceiveIs(s: State, t: nat)
    requires CallsOk(s) && t < |s.threads| && s.threads[t].Receiving?
    requires s.threads[t].id < |s.net.plugin.inbox| && s.net.plugin.inbox[s.threads[t].id] != []
    ensures Next(s, Receive(t)).Some?
    ensures var Receiving(id, params) := s.threads[t];
      var inbox := s.net.plugin.inbox;
      Next(s, Receive(t)).value == s.(
        threads := s.threads[t := Returning(id, params, Answer(ReplyTo(params)))],
        net := s.net.(plugin := s.net.plugin.(inbox := inbox[id := inbox[id][1..]])))
  {
    hide Carries;
    hide OneEach;
    hide EndText;
    hide DescribedBy;
    hide ReplyTo;
    hide Reply;
    hide FromBytes;
    var Receiving(id, params) := s.threads[t];
    assert ThreadLocks(s.threads[t], t, s.mutex);
    Taken(s.net, PendingOf(s), id);
    ReplyDecodes(id, params);
  }

  /** A thread that has its reply keeps the mutex but waits no more. */
  lemma CallAnswered(s: State, t: nat, net: Net)
    requires Locks(s) && Answers(s) && t < |s.threads| && s.threads[t].Receiving?
    ensures var Receiving(id, params) := s.threads[t];
      var r := s.(threads := s.threads[t := Returning(id, params, Answer(ReplyTo(params)))], net := net);
      && id < |s.mutex| && PendingOf(s)[id] == Some(params)
      && Locks(r) && Answers(r) && PendingOf(r) == PendingOf(s)[id := None]
  {
    hide EndText;
    hide DescribedBy;
    hide ReplyTo;
    assert ThreadLocks(s.threads[t], t, s.mutex);
  }

  lemma ReceiveKeeps(s: State, t: nat)
    requires CallsOk(s) && Next(s, Receive(t)).Some?
    ensures CallsOk(Next(s, Receive(t)).value)
  {
    hide Next;
    hide Carries;
    hide OneEach;
    hide Locks;
    hide Answers;
    hide PendingOf;
    hide Reply;
    MayReceiveReply(s, t);
    ReceiveIs(s, t);
    var Receiving(id, params) := s.threads[t];
    var inbox := s.net.plugin.inbox;
    var net := s.net.(plugin := s.net.plugin.(inbox := inbox[id := inbox[id][1..]]));
    CallAnswered(s, t, net);
    Taken(s.net, PendingOf(s), id);
  }

  lemma MayReceiveReply(s: State, t: nat)
    requires Next(s, Receive(t)).Some?
    ensures t < |s.threads| && s.threads[t].Receiving? && s.threads[t].id < |s.net.plugin.inbox|
    ensures s.net.plugin.inbox[s.threads[t].id] != []
  {
    hide FromBytes;
  }
}
