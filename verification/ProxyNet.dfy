/**
  What every step of brokers and host instances keeps: for each call that waits there is exactly one message
  or handling under way, and it carries that call's parameters.
 */
module ProxyNet {
  import opened Bytes
  import opened Json
  import opened ProxyMessage
  import opened ProxyProtocol

  function IdOf(m: string): Option<int> {
    match FromBytes(m)
    case Some(msg) => Some(msg.instanceId)
    case None => None
  }

  lemma RequestDecodes(id: int, params: string)
    ensures FromBytes(Request(id, params)) == Some(Message(id, ActionDescribeStart, StartText(params)))
    ensures ParamsOf(StartText(params)) == Some(params)
    ensures IdOf(Request(id, params)) == Some(id)
  {
    MessageRoundTrip(Message(id, ActionDescribeStart, StartText(params)));
    StartReads(params);
    hide FromBytes;
    hide ToBytes;
    hide StartText;
    hide ParamsOf;
  }

  lemma StartReads(params: string)
    ensures ParamsOf(StartText(params)) == Some(params)
  {
    LoadsDumps(JObject([Member("parameters", JString(params))]));
    hide Dumps;
    hide Loads;
  }

  /** What a host instance answers, as the caller finds it. */
  function ReplyTo(params: string): Described {
    Described(["input1", "input2"], ["a", "b", params], "kOfxStatusOk")
  }

  lemma EndReads(params: string)
    ensures DescribedBy(EndText(params)) == Some(ReplyTo(params))
  {
    var inputs := [JString("input1"), JString("input2")];
    var parameters := [JString("a"), JString("b"), JString(params)];
    var members := [
      Member("inputs", JArray(inputs)), Member("parameters", JArray(parameters)),
      Member("status", JString("kOfxStatusOk"))];
    LoadsDumps(JObject(members));
    hide Dumps;
    hide Loads;
    assert members[..2] == [members[0], members[1]] && members[..2][..1] == [members[0]];
    assert Find(members, "status") == Some(JString("kOfxStatusOk"));
    assert |"status"| != |"parameters"| && |"parameters"| != |"inputs"| && "status"[0] != "inputs"[0];
    assert Find(members[..2], "parameters") == Some(JArray(parameters));
    assert Find(members, "parameters") == Some(JArray(parameters));
    assert Find(members[..2][..1], "inputs") == Some(JArray(inputs));
    assert Find(members[..2], "inputs") == Some(JArray(inputs));
    assert Find(members, "inputs") == Some(JArray(inputs));
    hide Find;
    TextsPair("input1", "input2");
    TextsTriple("a", "b", params);
    hide Texts;
  }

  lemma TextsSingle(x: string)
    ensures Texts([JString(x)]) == Some([x])
  {
    assert [JString(x)][1..] == [] && Texts([]) == Some([]);
    assert [x] + [] == [x];
  }

  lemma TextsPair(x: string, y: string)
    ensures Texts([JString(x), JString(y)]) == Some([x, y])
  {
    assert [JString(x), JString(y)][1..] == [JString(y)];
    TextsSingle(y);
    assert [x] + [y] == [x, y];
  }

  lemma TextsTriple(x: string, y: string, z: string)
    ensures Texts([JString(x), JString(y), JString(z)]) == Some([x, y, z])
  {
    TextsPair(y, z);
    assert [x] + [y, z] == [x, y, z];
    assert [JString(x), JString(y), JString(z)][1..] == [JString(y), JString(z)];
  }

  lemma ReplyDecodes(id: int, params: string)
    ensures FromBytes(Reply(id, params)) == Some(Message(id, ActionDescribeEnd, EndText(params)))
    ensures DescribedBy(EndText(params)) == Some(ReplyTo(params))
    ensures IdOf(Reply(id, params)) == Some(id)
  {
    MessageRoundTrip(Message(id, ActionDescribeEnd, EndText(params)));
    EndReads(params);
    hide FromBytes;
    hide ToBytes;
    hide EndText;
    hide DescribedBy;
  }

  lemma HelloDecodes()
    ensures FromBytes(Hello()) == Some(Message(-1, RemoteHostStarted, "{}"))
    ensures IdOf(Hello()) == Some(-1)
  {
    MessageRoundTrip(Message(-1, RemoteHostStarted, "{}"));
    hide FromBytes;
    hide ToBytes;
  }

  /** The calls that wait for a reply, by instance, with their parameters. */
  type Pending = seq<Option<string>>

  predicate IsRequestOf(m: string, id: nat, pend: Pending) {
    id < |pend| && pend[id].Some? && m == Request(id, pend[id].value)
  }

  predicate IsReplyOf(m: string, id: nat, pend: Pending) {
    id < |pend| && pend[id].Some? && m == Reply(id, pend[id].value)
  }

  predicate IsRequest(m: string, pend: Pending) {
    IdOf(m).Some? && IdOf(m).value >= 0 && IsRequestOf(m, IdOf(m).value, pend)
  }

  predicate IsReply(m: string, pend: Pending) {
    IdOf(m).Some? && IdOf(m).value >= 0 && IsReplyOf(m, IdOf(m).value, pend)
  }

  predicate IsBack(m: string, pend: Pending) {
    m == Hello() || IsReply(m, pend)
  }

  predicate OwnRequests(q: seq<string>, id: nat, pend: Pending) {
    forall k | 0 <= k < |q| :: IsRequestOf(q[k], id, pend)
  }

  predicate OwnReplies(q: seq<string>, id: nat, pend: Pending) {
    forall k | 0 <= k < |q| :: IsReplyOf(q[k], id, pend)
  }

  function One(m: string, id: nat): nat {
    if IdOf(m) == Some(id as int) then 1 else 0
  }

  /** How many messages of an instance are in a queue. */
  function Count(q: seq<string>, id: nat): nat {
    if q == [] then 0 else Count(q[..|q| - 1], id) + One(q[|q| - 1], id)
  }

  function HandCount(h: Hand, id: nat): nat {
    if h.Empty? then 0 else One(h.data, id)
  }

  function HostCount(h: Host): nat {
    if h.Handling? then 1 else 0
  }

  predicate Sized(net: Net, n: nat) {
    && |net.plugin.out| == n && |net.plugin.inbox| == n
    && |net.host.out| == n && |net.host.inbox| == n && |net.hosts| == n
  }

  /** All that is under way for an instance, in all the places there are. */
  function InFlight(net: Net, id: nat): nat
    requires Sized(net, |net.hosts|) && id < |net.hosts|
  {
    Count(net.plugin.out[id], id) + HandCount(net.plugin.hand, id) + Count(net.toHost, id)
    + HandCount(net.host.hand, id) + Count(net.host.inbox[id], id) + HostCount(net.hosts[id])
    + Count(net.host.out[id], id) + Count(net.toPlugin, id) + Count(net.plugin.inbox[id], id)
  }

  /** Towards the host there are requests, back there are replies and the greeting. */
  predicate Carries(net: Net, pend: Pending) {
    && Sized(net, |pend|) && |pend| <= 100_000_000
    && (forall i | 0 <= i < |pend| :: OwnRequests(net.plugin.out[i], i, pend))
    && (net.plugin.hand.FromSub? ==> IsRequest(net.plugin.hand.data, pend))
    && (net.plugin.hand.FromPair? ==> IsBack(net.plugin.hand.data, pend))
    && (forall k | 0 <= k < |net.toHost| :: IsRequest(net.toHost[k], pend))
    && (net.host.hand.FromPair? ==> IsRequest(net.host.hand.data, pend))
    && (forall i | 0 <= i < |pend| :: OwnRequests(net.host.inbox[i], i, pend))
    && (forall i | 0 <= i < |pend| :: net.hosts[i].Handling? ==> pend[i] == Some(net.hosts[i].params))
    && (forall i | 0 <= i < |pend| :: OwnReplies(net.host.out[i], i, pend))
    && (net.host.hand.FromSub? ==> IsReply(net.host.hand.data, pend))
    && (forall k | 0 <= k < |net.toPlugin| :: IsBack(net.toPlugin[k], pend))
    && (forall i | 0 <= i < |pend| :: OwnReplies(net.plugin.inbox[i], i, pend))
  }

  predicate OneEach(net: Net, pend: Pending) {
    && Sized(net, |pend|)
    && forall i | 0 <= i < |pend| :: InFlight(net, i) == if pend[i].Some? then 1 else 0
  }

  lemma CountAdd(q: seq<string>, m: string, id: nat)
    ensures Count(q + [m], id) == Count(q, id) + One(m, id)
  {
    assert (q + [m])[..|q|] == q;
  }

  lemma {:induction false} CountPop(q: seq<string>, id: nat)
    requires q != []
    ensures Count(q, id) == One(q[0], id) + Count(q[1..], id)
  {
    if |q| == 1 {
      assert q[..0] == [] && q[1..] == [];
    } else {
      CountPop(q[..|q| - 1], id);
      assert q[1..][..|q| - 2] == q[..|q| - 1][1..];
    }
  }

  lemma {:induction false} CountNone(q: seq<string>, id: nat)
    requires Count(q, id) == 0
    ensures forall k | 0 <= k < |q| :: IdOf(q[k]) != Some(id as int)
  {
    if q != [] {
      CountNone(q[..|q| - 1], id);
    }
  }

  lemma OfIs(m: string, id: nat, pend: Pending)
    ensures IsRequestOf(m, id, pend) ==> IsRequest(m, pend) && IdOf(m) == Some(id as int)
    ensures IsReplyOf(m, id, pend) ==> IsReply(m, pend) && IdOf(m) == Some(id as int)
  {
    hide IdOf;
    hide Request;
    hide Reply;
    if id < |pend| && pend[id].Some? {
      RequestDecodes(id, pend[id].value);
      ReplyDecodes(id, pend[id].value);
    }
  }

  lemma OneOther(m: string, id: nat, i: nat)
    requires IdOf(m) == Some(id as int)
    ensures One(m, i) == if i == id then 1 else 0
  {
  }

  /** Taking a message of instance `id` from its own queue into the hand. */
  lemma TakenOut(q: seq<string>, id: nat, i: nat)
    requires q != [] && IdOf(q[0]) == Some(id as int)
    ensures HandCount(FromSub(q[0]), i) == if i == id then 1 else 0
    ensures Count(q, i) == Count(q[1..], i) + if i == id then 1 else 0
  {
    hide IdOf;
    CountPop(q, i);
  }

  lemma PluginTakesOutKeeps(net: Net, pend: Pending, j: nat)
    requires Carries(net, pend) && OneEach(net, pend)
    requires NetNext(net, PluginTakesOut(j)).Some?
    ensures var r := NetNext(net, PluginTakesOut(j)).value; Carries(r, pend) && OneEach(r, pend)
  {
    hide IdOf;
    hide Count;
    hide IsRequest;
    hide IsReply;
    hide IsRequestOf;
    hide IsReplyOf;
    hide Hello;
    hide HandCount;
    var r, q := NetNext(net, PluginTakesOut(j)).value, net.plugin.out[j];
    OfIs(q[0], j, pend);
    assert OwnRequests(q, j, pend);
    forall i | 0 <= i < |pend| ensures InFlight(r, i) == InFlight(net, i) {
      TakenOut(q, j, i);
      assert HandCount(Empty, i) == 0 by { EmptyCount(i); }
    }
  }

  lemma EmptyCount(i: nat)
    ensures HandCount(Empty, i) == 0
  {
  }

  lemma HostTakesOutKeeps(net: Net, pend: Pending, j: nat)
    requires Carries(net, pend) && OneEach(net, pend)
    requires NetNext(net, HostTakesOut(j)).Some?
    ensures var r := NetNext(net, HostTakesOut(j)).value; Carries(r, pend) && OneEach(r, pend)
  {
    hide IdOf;
    hide Count;
    hide IsRequest;
    hide IsReply;
    hide IsRequestOf;
    hide IsReplyOf;
    hide Hello;
    hide HandCount;
    var r, q := NetNext(net, HostTakesOut(j)).value, net.host.out[j];
    OfIs(q[0], j, pend);
    assert OwnReplies(q, j, pend);
    forall i | 0 <= i < |pend| ensures InFlight(r, i) == InFlight(net, i) {
      TakenOut(q, j, i);
      EmptyCount(i);
    }
  }

  lemma PairTaken(q: seq<string>, i: nat)
    requires q != []
    ensures Count(q, i) == Count(q[1..], i) + HandCount(FromPair(q[0]), i)
  {
    CountPop(q, i);
  }

  lemma PluginTakesPairKeeps(net: Net, pend: Pending)
    requires Carries(net, pend) && OneEach(net, pend)
    requires NetNext(net, PluginTakesPair).Some?
    ensures var r := NetNext(net, PluginTakesPair).value; Carries(r, pend) && OneEach(r, pend)
  {
    hide Count;
    hide IsRequest;
    hide IsBack;
    hide IsReply;
    hide OwnRequests;
    hide OwnReplies;
    hide HandCount;
    var r := NetNext(net, PluginTakesPair).value;
    forall i | 0 <= i < |pend| ensures InFlight(r, i) == InFlight(net, i) {
      PairTaken(net.toPlugin, i);
      EmptyCount(i);
    }
  }

  lemma HostTakesPairKeeps(net: Net, pend: Pending)
    requires Carries(net, pend) && OneEach(net, pend)
    requires NetNext(net, HostTakesPair).Some?
    ensures var r := NetNext(net, HostTakesPair).value; Carries(r, pend) && OneEach(r, pend)
  {
    hide Count;
    hide IsRequest;
    hide IsBack;
    hide IsReply;
    hide OwnRequests;
    hide OwnReplies;
    hide HandCount;
    var r := NetNext(net, HostTakesPair).value;
    forall i | 0 <= i < |pend| ensures InFlight(r, i) == InFlight(net, i) {
      PairTaken(net.toHost, i);
      EmptyCount(i);
    }
  }

  /** A message of an instance on this side reaches the queue of that instance and no other. */
  lemma Reaches(inbox: seq<seq<string>>, m: Message, i: nat)
    requires i < |inbox| <= 100_000_000 && m.instanceId < |inbox|
    ensures Broadcast(inbox, ToBytes(m))[i] ==
      if i == m.instanceId then inbox[i] + [ToBytes(m)] else inbox[i]
  {
    hide ToBytes;
    hide Delivered;
    RoutedExactly(i, m);
  }

  lemma ReachesCount(inbox: seq<seq<string>>, m: Message, i: nat)
    requires i < |inbox| <= 100_000_000 && m.instanceId < |inbox|
    ensures Count(Broadcast(inbox, ToBytes(m))[i], i) == Count(inbox[i], i) + One(ToBytes(m), i)
  {
    Reaches(inbox, m, i);
    MessageRoundTrip(m);
    CountAdd(inbox[i], ToBytes(m), i);
    hide ToBytes;
    hide FromBytes;
    hide Count;
    hide Broadcast;
  }

  lemma ForwardsSubKeeps(net: Net, pend: Pending)
    requires Carries(net, pend) && OneEach(net, pend) && net.plugin.hand.FromSub?
    requires NetNext(net, PluginForwards).Some?
    ensures var r := NetNext(net, PluginForwards).value; Carries(r, pend) && OneEach(r, pend)
  {
    hide Count;
    hide IsRequest;
    hide IsBack;
    hide IsReply;
    hide OwnRequests;
    hide OwnReplies;
    hide One;
    var r := NetNext(net, PluginForwards).value;
    forall i | 0 <= i < |pend| ensures InFlight(r, i) == InFlight(net, i) {
      CountAdd(net.toHost, net.plugin.hand.data, i);
    }
  }

  lemma HostForwardsSubKeeps(net: Net, pend: Pending)
    requires Carries(net, pend) && OneEach(net, pend) && net.host.hand.FromSub?
    requires NetNext(net, HostForwards).Some?
    ensures var r := NetNext(net, HostForwards).value; Carries(r, pend) && OneEach(r, pend)
  {
    hide Count;
    hide IsRequest;
    hide IsReply;
    hide OwnRequests;
    hide OwnReplies;
    hide One;
    hide Hello;
    var r, d := NetNext(net, HostForwards).value, net.host.hand.data;
    assert Carries(r, pend) by {
      assert IsBack(d, pend);
      hide IsBack;
    }
    hide Carries;
    forall i | 0 <= i < |pend| ensures InFlight(r, i) == InFlight(net, i) {
      CountAdd(net.toPlugin, d, i);
    }
  }

  /** A broadcast request adds to the requests of its own instance only. */
  lemma BroadcastRequest(inbox: seq<seq<string>>, d: string, pend: Pending, i: nat)
    requires i < |inbox| == |pend| <= 100_000_000 && IsRequest(d, pend) && OwnRequests(inbox[i], i, pend)
    ensures OwnRequests(Broadcast(inbox, d)[i], i, pend)
    ensures Count(Broadcast(inbox, d)[i], i) == Count(inbox[i], i) + One(d, i)
  {
    hide IdOf;
    hide ToBytes;
    hide Count;
    hide One;
    hide Broadcast;
    var id := IdOf(d).value;
    var m := Message(id, ActionDescribeStart, StartText(pend[id].value));
    assert d == ToBytes(m);
    Reaches(inbox, m, i);
    ReachesCount(inbox, m, i);
  }

  lemma BroadcastReply(inbox: seq<seq<string>>, d: string, pend: Pending, i: nat)
    requires i < |inbox| == |pend| <= 100_000_000 && IsReply(d, pend) && OwnReplies(inbox[i], i, pend)
    ensures OwnReplies(Broadcast(inbox, d)[i], i, pend)
    ensures Count(Broadcast(inbox, d)[i], i) == Count(inbox[i], i) + One(d, i)
  {
    hide IdOf;
    hide ToBytes;
    hide Count;
    hide One;
    hide Broadcast;
    var id := IdOf(d).value;
    var m := Message(id, ActionDescribeEnd, EndText(pend[id].value));
    assert d == ToBytes(m);
    Reaches(inbox, m, i);
    ReachesCount(inbox, m, i);
  }

  /** The greeting reaches nobody. */
  lemma BroadcastHello(inbox: seq<seq<string>>, i: nat)
    requires i < |inbox| <= 100_000_000
    ensures Broadcast(inbox, Hello())[i] == inbox[i] && One(Hello(), i) == 0
  {
    Reaches(inbox, Message(-1, RemoteHostStarted, "{}"), i);
    HelloDecodes();
    hide ToBytes;
    hide IdOf;
    hide Broadcast;
  }

  lemma ForwardsPairKeeps(net: Net, pend: Pending)
    requires Carries(net, pend) && OneEach(net, pend) && net.plugin.hand.FromPair?
    requires NetNext(net, PluginForwards).Some?
    ensures var r := NetNext(net, PluginForwards).value; Carries(r, pend) && OneEach(r, pend)
  {
    hide Count;
    hide IsRequest;
    hide IsReply;
    hide OwnRequests;
    hide OwnReplies;
    hide One;
    hide Broadcast;
    hide Hello;
    var r, d := NetNext(net, PluginForwards).value, net.plugin.hand.data;
    forall i | 0 <= i < |pend|
      ensures OwnReplies(r.plugin.inbox[i], i, pend)
      ensures Count(r.plugin.inbox[i], i) == Count(net.plugin.inbox[i], i) + One(d, i)
    {
      if d == Hello() {
        BroadcastHello(net.plugin.inbox, i);
      } else {
        BroadcastReply(net.plugin.inbox, d, pend, i);
      }
    }
    assert Carries(r, pend);
    hide Carries;
    assert forall i | 0 <= i < |pend| :: InFlight(r, i) == InFlight(net, i);
  }

  lemma HostForwardsPairKeeps(net: Net, pend: Pending)
    requires Carries(net, pend) && OneEach(net, pend) && net.host.hand.FromPair?
    requires NetNext(net, HostForwards).Some?
    ensures var r := NetNext(net, HostForwards).value; Carries(r, pend) && OneEach(r, pend)
  {
    hide Count;
    hide IsRequest;
    hide IsReply;
    hide OwnRequests;
    hide OwnReplies;
    hide One;
    hide Broadcast;
    hide IsBack;
    var r, d := NetNext(net, HostForwards).value, net.host.hand.data;
    forall i | 0 <= i < |pend|
      ensures OwnRequests(r.host.inbox[i], i, pend)
      ensures Count(r.host.inbox[i], i) == Count(net.host.inbox[i], i) + One(d, i)
    {
      BroadcastRequest(net.host.inbox, d, pend, i);
    }
    assert Carries(r, pend);
    hide Carries;
    assert forall i | 0 <= i < |pend| :: InFlight(r, i) == InFlight(net, i);
  }

  /** A request taken from the queue of a host instance into its hands. */
  function Received(net: Net, j: nat, params: string): Net
    requires j < |net.hosts| && j < |net.host.inbox| && net.host.inbox[j] != []
  {
    net.(host := net.host.(inbox := net.host.inbox[j := net.host.inbox[j][1..]]),
         hosts := net.hosts[j := Handling(params)])
  }

  /** A host instance receives only requests, and gets the caller's parameters out of them. */
  lemma HostReceivesIs(net: Net, pend: Pending, j: nat)
    requires Carries(net, pend) && j < |pend| && net.hosts[j] == Free && net.host.inbox[j] != []
    ensures pend[j].Some? && net.host.inbox[j][0] == Request(j, pend[j].value)
    ensures NetNext(net, HostReceives(j)) == Some(Received(net, j, pend[j].value))
  {
    hide FromBytes;
    hide Request;
    hide ParamsOf;
    hide StartText;
    assert OwnRequests(net.host.inbox[j], j, pend);
    assert IsRequestOf(net.host.inbox[j][0], j, pend);
    RequestDecodes(j, pend[j].value);
  }

  lemma MayReceive(net: Net, j: nat)
    requires NetNext(net, HostReceives(j)).Some?
    ensures j < |net.hosts| && j < |net.host.inbox| && net.hosts[j] == Free && net.host.inbox[j] != []
  {
    hide FromBytes;
    hide ParamsOf;
  }

  lemma ReceivedCarries(net: Net, pend: Pending, j: nat)
    requires Carries(net, pend) && j < |pend| && net.host.inbox[j] != [] && pend[j].Some?
    ensures Carries(Received(net, j, pend[j].value), pend)
  {
    hide IsRequest;
    hide IsReply;
    hide IsBack;
    hide OwnReplies;
    hide IsRequestOf;
    assert OwnRequests(net.host.inbox[j], j, pend);
  }

  lemma ReceivedCount(net: Net, n: nat, j: nat, params: string, i: nat)
    requires Sized(net, n) && j < n && i < n && net.host.inbox[j] != [] && net.hosts[j] == Free
    requires IdOf(net.host.inbox[j][0]) == Some(j as int)
    ensures InFlight(Received(net, j, params), i) == InFlight(net, i)
  {
    hide Count;
    hide IdOf;
    hide HandCount;
    CountPop(net.host.inbox[j], i);
    OneOther(net.host.inbox[j][0], j, i);
  }

  lemma HostReceivesKeeps(net: Net, pend: Pending, j: nat)
    requires Carries(net, pend) && OneEach(net, pend)
    requires NetNext(net, HostReceives(j)).Some?
    ensures var r := NetNext(net, HostReceives(j)).value; Carries(r, pend) && OneEach(r, pend)
  {
    hide NetNext;
    hide Request;
    hide IdOf;
    hide InFlight;
    MayReceive(net, j);
    HostReceivesIs(net, pend, j);
    RequestDecodes(j, pend[j].value);
    ReceivedCarries(net, pend, j);
    hide Carries;
    forall i | 0 <= i < |pend| ensures InFlight(Received(net, j, pend[j].value), i) == InFlight(net, i) {
      ReceivedCount(net, |pend|, j, pend[j].value, i);
    }
  }

  lemma HostRepliesKeeps(net: Net, pend: Pending, j: nat)
    requires Carries(net, pend) && OneEach(net, pend)
    requires NetNext(net, HostReplies(j)).Some?
    ensures var r := NetNext(net, HostReplies(j)).value; Carries(r, pend) && OneEach(r, pend)
  {
    hide Count;
    hide IsRequest;
    hide IsReply;
    hide IsBack;
    hide OwnRequests;
    hide HandCount;
    hide Reply;
    hide FromBytes;
    var r := NetNext(net, HostReplies(j)).value;
    var m := Reply(j, net.hosts[j].params);
    ReplyDecodes(j, net.hosts[j].params);
    forall i | 0 <= i < |pend| ensures InFlight(r, i) == InFlight(net, i) {
      CountAdd(net.host.out[j], m, i);
      OneOther(m, j, i);
    }
  }

  lemma NetKeeps(net: Net, pend: Pending, step: NetStep)
    requires Carries(net, pend) && OneEach(net, pend)
    requires NetNext(net, step).Some?
    ensures Carries(NetNext(net, step).value, pend) && OneEach(NetNext(net, step).value, pend)
  {
    hide Carries;
    hide OneEach;
    match step
    case PluginTakesOut(i) => PluginTakesOutKeeps(net, pend, i);
    case PluginTakesPair => PluginTakesPairKeeps(net, pend);
    case PluginForwards =>
      if net.plugin.hand.FromSub? {
        ForwardsSubKeeps(net, pend);
      } else {
        ForwardsPairKeeps(net, pend);
      }
    case HostTakesOut(i) => HostTakesOutKeeps(net, pend, i);
    case HostTakesPair => HostTakesPairKeeps(net, pend);
    case HostForwards =>
      if net.host.hand.FromSub? {
        HostForwardsSubKeeps(net, pend);
      } else {
        HostForwardsPairKeeps(net, pend);
      }
    case HostReceives(i) => HostReceivesKeeps(net, pend, i);
    case HostReplies(i) => HostRepliesKeeps(net, pend, i);
  }
}
