/**
  How many instances the protocol bears. Up to a hundred million every call returns with its own reply. One
  more, and there is a run in which a call returns with the reply to somebody else's parameters: the request of
  the instance with nine digits also reaches the one whose eight digits it begins with.
 */
module ProxyLimit {
  import opened Bytes
  import opened ProxyMessage
  import opened ProxyProtocol
  import opened ProxyNet
  import opened ProxyRuns

  const LONG_ID := 100_000_000
  const SHORT_ID := 10_000_000

  /** Every call that has returned brought back the reply to its own parameters. */
  predicate OwnAnswers(s: State) {
    forall j | 0 <= j < |s.returned| :: OwnAnswer(s.returned[j])
  }

  /** Steps of brokers and host instances alone. */
  function NetPlay(net: Net, steps: seq<NetStep>): Option<Net>
    decreases |steps|
  {
    if steps == [] then Some(net) else
    match NetNext(net, steps[0])
    case Some(r) => NetPlay(r, steps[1..])
    case None => None
  }

  lemma {:induction false} NetPlayThen(net: Net, first: seq<NetStep>, rest: seq<NetStep>)
    requires NetPlay(net, first).Some?
    ensures NetPlay(net, first + rest) == NetPlay(NetPlay(net, first).value, rest)
    decreases |first|
  {
    if first == [] {
      assert first + rest == rest;
    } else {
      assert (first + rest)[1..] == first[1..] + rest;
      NetPlayThen(NetNext(net, first[0]).value, first[1..], rest);
    }
  }

  lemma LastStep(net: Net, step: NetStep)
    ensures NetPlay(net, [step]) == NetNext(net, step)
  {
    hide NetNext;
  }

  lemma FourSteps(net: Net, steps: seq<NetStep>, n1: Net, n2: Net, n3: Net)
    requires |steps| == 4 && NetNext(net, steps[0]) == Some(n1)
    requires NetNext(n1, steps[1]) == Some(n2) && NetNext(n2, steps[2]) == Some(n3)
    ensures NetPlay(net, steps) == NetNext(n3, steps[3])
  {
    hide NetNext;
    LastStep(n3, steps[3]);
    assert steps[1..][1..][1..] == [steps[3]];
    assert NetPlay(n2, steps[1..][1..]) == NetPlay(n3, [steps[3]]);
    assert NetPlay(n1, steps[1..]) == NetPlay(n2, steps[1..][1..]);
  }

  lemma AfterNext(n: nat, k: nat, steps: seq<Step>, s: State, step: Step)
    requires After(n, k, steps) == Some(s)
    ensures After(n, k, steps + [step]) == Next(s, step)
  {
    hide Next;
    assert (steps + [step])[..|steps|] == steps;
  }

  /** A run goes on with such steps once both brokers work. */
  lemma {:induction false} AfterNet(n: nat, k: nat, steps: seq<Step>, s: State, inner: seq<NetStep>)
    returns (all: seq<Step>)
    requires After(n, k, steps) == Some(s) && s.phase == Running && s.hostUp
    requires NetPlay(s.net, inner).Some?
    ensures After(n, k, all) == Some(s.(net := NetPlay(s.net, inner).value))
    decreases |inner|
  {
    hide NetNext;
    all := steps;
    if inner != [] {
      AfterNext(n, k, steps, s, Internal(inner[0]));
      var r := NetNext(s.net, inner[0]).value;
      all := AfterNet(n, k, steps + [Internal(inner[0])], s.(net := r), inner[1..]);
    }
  }

  function Started(n: nat): State {
    Init(n, 2).(phase := Running, ready := Some(true), hostUp := true)
  }

  lemma StartUp(n: nat) returns (steps: seq<Step>)
    ensures After(n, 2, steps) == Some(Started(n))
  {
    hide Hello;
    hide FromBytes;
    HelloDecodes();
    var s0 := Init(n, 2);
    assert After(n, 2, []) == Some(s0);
    AfterNext(n, 2, [], s0, Lock);
    var s1 := s0.(phase := Polling);
    AfterNext(n, 2, [Lock], s1, HostStarts);
    var s2 := s1.(hostUp := true, net := s0.net.(toPlugin := [] + [Hello()]));
    AfterNext(n, 2, [Lock] + [HostStarts], s2, Handshake);
    assert Woken(s0.threads, true) == s0.threads;
    assert s2.net.toPlugin[1..] == [];
    steps := [Lock] + [HostStarts] + [Handshake];
  }

  /** A thread calls, takes the mutex and sends its request. */
  lemma Called(n: nat, steps: seq<Step>, s: State, t: nat, id: nat, params: string) returns (all: seq<Step>, r: State)
    requires After(n, 2, steps) == Some(s)
    requires t < |s.threads| && s.threads[t].Idle? && id < |s.mutex| == |s.net.plugin.out| && s.mutex[id].None?
    ensures After(n, 2, all) == Some(r)
    ensures
      var out := s.net.plugin.out;
      r == s.(threads := s.threads[t := Receiving(id, params)], mutex := s.mutex[id := Some(t)],
              net := s.net.(plugin := s.net.plugin.(out := out[id := out[id] + [Request(id, params)]])))
  {
    hide Request;
    hide DescribedBy;
    hide FromBytes;
    hide NetNext;
    AfterNext(n, 2, steps, s, Call(t, id, params));
    var s1 := s.(threads := s.threads[t := Acquiring(id, params)]);
    AfterNext(n, 2, steps + [Call(t, id, params)], s1, Acquire(t));
    var s2 := s.(threads := s.threads[t := Sending(id, params)], mutex := s.mutex[id := Some(t)]);
    assert s1.threads[t := Sending(id, params)] == s2.threads;
    AfterNext(n, 2, steps + [Call(t, id, params)] + [Acquire(t)], s2, Send(t));
    all := steps + [Call(t, id, params)] + [Acquire(t)] + [Send(t)];
    r := Next(s2, Send(t)).value;
    assert s2.threads[t := Receiving(id, params)] == s.threads[t := Receiving(id, params)];
  }

  /** A message goes from its instance to the subscribers on the other side. */
  lemma Forwarded(net: Net, id: nat, m: string) returns (steps: seq<NetStep>)
    requires id < |net.plugin.out| && net.plugin.out[id] == [m] && net.toHost == []
    requires net.plugin.hand.Empty? && net.host.hand.Empty?
    ensures NetPlay(net, steps) ==
      Some(net.(plugin := net.plugin.(out := net.plugin.out[id := []]),
                host := net.host.(inbox := Broadcast(net.host.inbox, m))))
  {
    hide Broadcast;
    steps := [PluginTakesOut(id), PluginForwards, HostTakesPair, HostForwards];
    var n1 := net.(plugin := net.plugin.(out := net.plugin.out[id := []], hand := FromSub(m)));
    assert [m][1..] == [] && [] + [m] == [m];
    assert NetNext(net, PluginTakesOut(id)) == Some(n1);
    var n2 := n1.(plugin := n1.plugin.(hand := Empty), toHost := [m]);
    assert NetNext(n1, PluginForwards) == Some(n2);
    var n3 := n2.(toHost := [], host := net.host.(hand := FromPair(m)));
    assert NetNext(n2, HostTakesPair) == Some(n3);
    FourSteps(net, steps, n1, n2, n3);
  }

  /** A host instance answers whatever request it is given, under its own id. */
  lemma Answered(net: Net, id: nat, other: nat, params: string) returns (steps: seq<NetStep>)
    requires id < |net.hosts| == |net.host.inbox| == |net.host.out|
    requires net.host.inbox[id] == [Request(other, params)] && net.hosts[id] == Free && net.host.out[id] == []
    requires net.host.hand.Empty? && net.toPlugin == []
    ensures NetPlay(net, steps) ==
      Some(net.(host := net.host.(inbox := net.host.inbox[id := []]), toPlugin := [Reply(id, params)]))
  {
    hide FromBytes;
    hide ParamsOf;
    hide Request;
    hide Reply;
    hide StartText;
    RequestDecodes(other, params);
    var m := Reply(id, params);
    steps := [HostReceives(id), HostReplies(id), HostTakesOut(id), HostForwards];
    var n1 := net.(host := net.host.(inbox := net.host.inbox[id := []]), hosts := net.hosts[id := Handling(params)]);
    assert [Request(other, params)][1..] == [];
    assert NetNext(net, HostReceives(id)) == Some(n1);
    var n2 := n1.(hosts := net.hosts, host := n1.host.(out := net.host.out[id := [m]]));
    assert n1.hosts[id := Free] == net.hosts && [] + [m] == [m];
    assert NetNext(n1, HostReplies(id)) == Some(n2);
    var n3 := n2.(host := n1.host.(hand := FromSub(m)));
    assert [m][1..] == [] && n2.host.out[id := []] == net.host.out;
    assert NetNext(n2, HostTakesOut(id)) == Some(n3);
    assert [] + [m] == [m];
    FourSteps(net, steps, n1, n2, n3);
  }

  /** A message from the host side goes to its subscribers. */
  lemma Published(net: Net, m: string) returns (steps: seq<NetStep>)
    requires net.toPlugin == [m] && net.plugin.hand.Empty?
    ensures NetPlay(net, steps) ==
      Some(net.(plugin := net.plugin.(inbox := Broadcast(net.plugin.inbox, m)), toPlugin := [],
                published := net.published + [m]))
  {
    hide Broadcast;
    steps := [PluginTakesPair, PluginForwards];
    assert [m][1..] == [];
    var n1 := net.(plugin := net.plugin.(hand := FromPair(m)), toPlugin := []);
    assert NetNext(net, PluginTakesPair) == Some(n1);
    assert NetPlay(n1, steps[1..]) == NetNext(n1, PluginForwards);
  }

  /** A thread returns with the reply that came first. */
  lemma Returned(n: nat, steps: seq<Step>, s: State, t: nat, id: nat, params: string, other: string)
    returns (all: seq<Step>, r: State)
    requires After(n, 2, steps) == Some(s)
    requires t < |s.threads| && s.threads[t] == Receiving(id, params) && id < |s.mutex| == |s.net.plugin.inbox|
    requires s.net.plugin.inbox[id] != [] && s.net.plugin.inbox[id][0] == Reply(id, other)
    ensures After(n, 2, all) == Some(r)
    ensures r.returned == s.returned + [Return(id, params, Answer(ReplyTo(other)))]
  {
    hide FromBytes;
    hide Reply;
    hide EndText;
    hide DescribedBy;
    hide ReplyTo;
    ReplyDecodes(id, other);
    AfterNext(n, 2, steps, s, Receive(t));
    var s1 := Next(s, Receive(t)).value;
    assert s1.threads[t] == Returning(id, params, Answer(ReplyTo(other)));
    AfterNext(n, 2, steps + [Receive(t)], s1, Release(t));
    all := steps + [Receive(t)] + [Release(t)];
    r := Next(s1, Release(t)).value;
  }

  lemma RequestStrays(params: string)
    ensures Delivered(SHORT_ID, Request(LONG_ID, params))
  {
    RoutedExcept(SHORT_ID, Message(LONG_ID, ActionDescribeStart, StartText(params)));
    assert Shorten(100_000_000, 1) == Shorten(10_000_000, 0) == 10_000_000;
  }

  lemma ReplyArrives(id: nat, params: string)
    ensures Delivered(id, Reply(id, params))
  {
    RoutedExcept(id, Message(id, ActionDescribeEnd, EndText(params)));
  }

  /** The request of one instance makes another publish a reply that nobody there has asked for. */
  lemma StrayReply(net: Net, params: string) returns (steps: seq<NetStep>, r: Net)
    requires Sized(net, |net.hosts|) && LONG_ID < |net.hosts|
    requires net.plugin.out[LONG_ID] == [Request(LONG_ID, params)] && net.toHost == [] && net.toPlugin == []
    requires net.plugin.hand.Empty? && net.host.hand.Empty?
    requires net.host.inbox[SHORT_ID] == [] && net.host.out[SHORT_ID] == [] && net.hosts[SHORT_ID] == Free
    requires net.plugin.inbox[SHORT_ID] == []
    ensures NetPlay(net, steps) == Some(r)
    ensures |r.plugin.out| == |r.plugin.inbox| == |net.hosts|
    ensures r.plugin.inbox[SHORT_ID] == [Reply(SHORT_ID, params)]
  {
    hide NetPlay;
    hide Request;
    hide Reply;
    hide Delivered;
    RequestStrays(params);
    ReplyArrives(SHORT_ID, params);
    var m := Request(LONG_ID, params);
    var one := Forwarded(net, LONG_ID, m);
    var n1 := NetPlay(net, one).value;
    assert n1.host.inbox[SHORT_ID] == [] + [m] == [m];
    var two := Answered(n1, SHORT_ID, LONG_ID, params);
    var n2 := NetPlay(n1, two).value;
    NetPlayThen(net, one, two);
    var three := Published(n2, Reply(SHORT_ID, params));
    NetPlayThen(net, one + two, three);
    steps := one + two + three;
    r := NetPlay(n2, three).value;
    assert n2.plugin.inbox[SHORT_ID] == [] && [] + [Reply(SHORT_ID, params)] == [Reply(SHORT_ID, params)];
  }

  /** With an instance that has nine digits, a call can return with what another one asked for. */
  lemma WrongAnswer(n: nat, params: string, other: string) returns (steps: seq<Step>)
    requires n > LONG_ID
    ensures After(n, 2, steps).Some?
    ensures After(n, 2, steps).value.returned == [Return(SHORT_ID, params, Answer(ReplyTo(other)))]
  {
    hide After;
    hide Request;
    hide Reply;
    hide EndText;
    hide DescribedBy;
    hide ReplyTo;
    hide NetPlay;
    var start := StartUp(n);
    var s := Started(n);
    var calling, s1 := Called(n, start, s, 0, LONG_ID, other);
    assert s1.net.plugin.out[LONG_ID] == [] + [Request(LONG_ID, other)] == [Request(LONG_ID, other)];
    var inner, net := StrayReply(s1.net, other);
    var straying := AfterNet(n, 2, calling, s1, inner);
    var s2 := s1.(net := net);
    var again, s3 := Called(n, straying, s2, 1, SHORT_ID, params);
    var r;
    steps, r := Returned(n, again, s3, 1, SHORT_ID, params, other);
    assert r.returned == [] + [Return(SHORT_ID, params, Answer(ReplyTo(other)))];
  }

  lemma NotOwn(params: string, other: string)
    requires params != other
    ensures !OwnAnswer(Return(SHORT_ID, params, Answer(ReplyTo(other))))
  {
    assert ["a", "b", params][2] != ["a", "b", other][2];
  }

  /** Calls return with their own replies in every run, with any number of threads, exactly up to this many instances. */
  lemma AnswersExactly(n: nat)
    ensures n <= 100_000_000 <==>
      forall k, steps | After(n, k, steps).Some? :: OwnAnswers(After(n, k, steps).value)
  {
    hide After;
    hide OwnAnswer;
    hide ReplyTo;
    if n <= 100_000_000 {
      forall k, steps | After(n, k, steps).Some? ensures OwnAnswers(After(n, k, steps).value) {
        forall j | 0 <= j < |After(n, k, steps).value.returned| ensures OwnAnswer(After(n, k, steps).value.returned[j]) {
          ReturnsOwnReply(n, k, steps, j);
        }
      }
    } else {
      var steps := WrongAnswer(n, "1", "23");
      var call := After(n, 2, steps).value.returned[0];
      NotOwn("1", "23");
      assert !OwnAnswers(After(n, 2, steps).value);
    }
  }
}
