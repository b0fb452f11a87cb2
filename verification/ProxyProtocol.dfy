/**
  The proxy as a state machine: calling threads and their mutexes, PUB/SUB and PAIR links as queues of
  encoded messages, a broker on each side and one serving thread per host instance. Steps of different
  actors interleave freely.
 */
module ProxyProtocol {
  import opened Bytes
  import opened Json
  import opened ProxyMessage

  /** What a broker holds between receiving a message and sending it on. */
  datatype Hand = Empty | FromSub(data: string) | FromPair(data: string)

  datatype Host = Free | Handling(params: string)

  /** One process: messages published by each instance, the broker, messages waiting for each instance. */
  datatype Side = Side(out: seq<seq<string>>, hand: Hand, inbox: seq<seq<string>>)

  /** `published` remembers what the plugin broker has sent to its instances. */
  datatype Net = Net(
    plugin: Side, toHost: seq<string>, toPlugin: seq<string>, host: Side, hosts: seq<Host>, published: seq<string>)

  /** The payload of a request. */
  function StartText(params: string): string {
    Dumps(JObject([Member("parameters", JString(params))]))
  }

  function ParamsOf(data: string): Option<string> {
    match Loads(data)
    case None => None
    case Some(v) =>
      match Lookup(v, "parameters")
      case Some(JString(params)) => Some(params)
      case _ => None
  }

  /** The payload of the reply to a request with these parameters. */
  function EndText(params: string): string {
    Dumps(JObject([
      Member("inputs", JArray([JString("input1"), JString("input2")])),
      Member("parameters", JArray([JString("a"), JString("b"), JString(params)])),
      Member("status", JString("kOfxStatusOk"))]))
  }

  /** What the caller looks up in a reply. */
  datatype Described = Described(inputs: seq<string>, parameters: seq<string>, status: string)

  function Texts(items: seq<Json>): Option<seq<string>> {
    if items == [] then Some([]) else
    match (items[0], Texts(items[1..]))
    case (JString(s), Some(rest)) => Some([s] + rest)
    case _ => None
  }

  function DescribedBy(data: string): Option<Described> {
    match Loads(data)
    case None => None
    case Some(v) =>
      match (Lookup(v, "inputs"), Lookup(v, "parameters"), Lookup(v, "status"))
      case (Some(JArray(inputs)), Some(JArray(parameters)), Some(JString(status))) =>
        (match (Texts(inputs), Texts(parameters))
         case (Some(xs), Some(ys)) => Some(Described(xs, ys, status))
         case _ => None)
      case _ => None
  }

  function Request(id: int, params: string): string {
    ToBytes(Message(id, ActionDescribeStart, StartText(params)))
  }

  function Reply(id: int, params: string): string {
    ToBytes(Message(id, ActionDescribeEnd, EndText(params)))
  }

  function Hello(): string {
    ToBytes(Message(-1, RemoteHostStarted, "{}"))
  }

  datatype NetStep =
    | PluginTakesOut(i: nat) | PluginTakesPair | PluginForwards
    | HostTakesOut(i: nat) | HostTakesPair | HostForwards
    | HostReceives(i: nat) | HostReplies(i: nat)

  function TakeOut(side: Side, i: nat): Option<Side> {
    if side.hand.Empty? && i < |side.out| && side.out[i] != []
    then Some(side.(hand := FromSub(side.out[i][0]), out := side.out[i := side.out[i][1..]]))
    else None
  }

  /** Every subscriber whose prefix the message starts with gets it. */
  function Broadcast(inbox: seq<seq<string>>, d: string): (r: seq<seq<string>>)
    ensures |r| == |inbox|
  {
    seq(|inbox|, j requires 0 <= j < |inbox| => if Delivered(j, d) then inbox[j] + [d] else inbox[j])
  }

  /** A step of a broker or of a host instance, if it is possible. */
  function NetNext(net: Net, step: NetStep): Option<Net> {
    match step
    case PluginTakesOut(i) =>
      var side := TakeOut(net.plugin, i);
      if side.None? then None else Some(net.(plugin := side.value))
    case PluginTakesPair =>
      if net.plugin.hand.Empty? && net.toPlugin != []
      then Some(net.(plugin := net.plugin.(hand := FromPair(net.toPlugin[0])), toPlugin := net.toPlugin[1..]))
      else None
    case PluginForwards =>
      (match net.plugin.hand
       case Empty => None
       case FromSub(d) => Some(net.(plugin := net.plugin.(hand := Empty), toHost := net.toHost + [d]))
       case FromPair(d) =>
         Some(net.(plugin := net.plugin.(hand := Empty, inbox := Broadcast(net.plugin.inbox, d)),
                   published := net.published + [d])))
    case HostTakesOut(i) =>
      var side := TakeOut(net.host, i);
      if side.None? then None else Some(net.(host := side.value))
    case HostTakesPair =>
      if net.host.hand.Empty? && net.toHost != []
      then Some(net.(host := net.host.(hand := FromPair(net.toHost[0])), toHost := net.toHost[1..]))
      else None
    case HostForwards =>
      (match net.host.hand
       case Empty => None
       case FromSub(d) => Some(net.(host := net.host.(hand := Empty), toPlugin := net.toPlugin + [d]))
       case FromPair(d) =>
         Some(net.(host := net.host.(hand := Empty, inbox := Broadcast(net.host.inbox, d)))))
    case HostReceives(i) =>
      if i < |net.hosts| && i < |net.host.inbox| && net.hosts[i] == Free && net.host.inbox[i] != [] then
        var rest := net.(host := net.host.(inbox := net.host.inbox[i := net.host.inbox[i][1..]]));
        match FromBytes(net.host.inbox[i][0])
        case None => None
        case Some(m) =>
          if m.kind != ActionDescribeStart then Some(rest)
          else if ParamsOf(m.data).None? then None
          else Some(rest.(hosts := net.hosts[i := Handling(ParamsOf(m.data).value)]))
      else None
    case HostReplies(i) =>
      if i < |net.hosts| && i < |net.host.out| && net.hosts[i].Handling? then
        Some(net.(hosts := net.hosts[i := Free],
                  host := net.host.(out := net.host.out[i := net.host.out[i] + [Reply(i, net.hosts[i].params)]])))
      else None
  }

  /** What a call brings back: what the reply says, or the error status of the unexpected message. */
  datatype Result = Answer(reply: Described) | Unexpected

  datatype Thread =
    | Idle
    | Asleep
    | Informed(ready: bool)
    | Acquiring(id: nat, params: string)
    | Sending(id: nat, params: string)
    | Receiving(id: nat, params: string)
    | Returning(id: nat, params: string, result: Result)

  /** How far the plugin broker is: before taking the lock of the status, polling with the lock held, main loop. */
  datatype Phase = Starting | Polling | Running

  datatype Return = Return(id: nat, params: string, result: Result)

  datatype State = State(
    threads: seq<Thread>, mutex: seq<Option<nat>>, phase: Phase, ready: Option<bool>, hostUp: bool, net: Net,
    returned: seq<Return>)

  datatype Step =
    | Wait(t: nat) | Call(t: nat, id: nat, params: string)
    | Acquire(t: nat) | Send(t: nat) | Receive(t: nat) | Release(t: nat)
    | Lock | Handshake | Timeout | HostStarts
    | Internal(step: NetStep)

  function Woken(threads: seq<Thread>, ready: bool): (r: seq<Thread>)
    ensures |r| == |threads|
    ensures forall t | 0 <= t < |r| :: r[t] == if threads[t] == Asleep then Informed(ready) else threads[t]
  {
    seq(|threads|, t requires 0 <= t < |threads| => if threads[t] == Asleep then Informed(ready) else threads[t])
  }

  predicate MayCall(thread: Thread) {
    thread.Idle? || thread.Informed?
  }

  /** The brokers work once they are past their start; host instances always do. */
  predicate Works(s: State, step: NetStep) {
    match step
    case PluginTakesOut(_) => s.phase == Running
    case PluginTakesPair => s.phase == Running
    case PluginForwards => s.phase == Running
    case HostTakesOut(_) => s.hostUp
    case HostTakesPair => s.hostUp
    case HostForwards => s.hostUp
    case _ => true
  }

  function Next(s: State, step: Step): Option<State> {
    match step
    case Wait(t) =>
      if t < |s.threads| && MayCall(s.threads[t]) && s.phase != Polling
      then Some(s.(threads := s.threads[t := if s.ready.Some? then Informed(s.ready.value) else Asleep]))
      else None
    case Call(t, id, params) =>
      if t < |s.threads| && MayCall(s.threads[t]) && id < |s.mutex|
      then Some(s.(threads := s.threads[t := Acquiring(id, params)]))
      else None
    case Acquire(t) =>
      if t < |s.threads| && s.threads[t].Acquiring? && s.threads[t].id < |s.mutex| && s.mutex[s.threads[t].id] == None
      then
        var Acquiring(id, params) := s.threads[t];
        Some(s.(threads := s.threads[t := Sending(id, params)], mutex := s.mutex[id := Some(t)]))
      else None
    case Send(t) =>
      if t < |s.threads| && s.threads[t].Sending? && s.threads[t].id < |s.net.plugin.out| then
        var Sending(id, params) := s.threads[t];
        var out := s.net.plugin.out;
        Some(s.(threads := s.threads[t := Receiving(id, params)],
                net := s.net.(plugin := s.net.plugin.(out := out[id := out[id] + [Request(id, params)]]))))
      else None
    case Receive(t) =>
      if t < |s.threads| && s.threads[t].Receiving? && s.threads[t].id < |s.net.plugin.inbox|
         && s.net.plugin.inbox[s.threads[t].id] != []
      then
        var Receiving(id, params) := s.threads[t];
        var inbox := s.net.plugin.inbox;
        match FromBytes(inbox[id][0])
        case None => None
        case Some(m) =>
          if m.kind == ActionDescribeEnd && DescribedBy(m.data).None? then None else
          var result := if m.kind == ActionDescribeEnd then Answer(DescribedBy(m.data).value) else Unexpected;
          Some(s.(threads := s.threads[t := Returning(id, params, result)],
                  net := s.net.(plugin := s.net.plugin.(inbox := inbox[id := inbox[id][1..]]))))
      else None
    case Release(t) =>
      if t < |s.threads| && s.threads[t].Returning? && s.threads[t].id < |s.mutex| then
        var Returning(id, params, result) := s.threads[t];
        Some(s.(threads := s.threads[t := Idle], mutex := s.mutex[id := None],
                returned := s.returned + [Return(id, params, result)]))
      else None
    case Lock => if s.phase == Starting then Some(s.(phase := Polling)) else None
    case Handshake =>
      if s.phase == Polling && s.net.toPlugin != [] then
        match FromBytes(s.net.toPlugin[0])
        case None => None
        case Some(m) =>
          var ready := m.kind == RemoteHostStarted;
          Some(s.(phase := Running, ready := Some(ready), threads := Woken(s.threads, ready),
                  net := s.net.(toPlugin := s.net.toPlugin[1..])))
      else None
    case Timeout =>
      if s.phase == Polling
      then Some(s.(phase := Running, ready := Some(false), threads := Woken(s.threads, false)))
      else None
    case HostStarts =>
      if !s.hostUp then Some(s.(hostUp := true, net := s.net.(toPlugin := s.net.toPlugin + [Hello()]))) else None
    case Internal(step) =>
      if !Works(s, step) then None else
      var net := NetNext(s.net, step);
      if net.None? then None else Some(s.(net := net.value))
  }

  function Empties(n: nat): (r: seq<seq<string>>)
    ensures |r| == n && forall i | 0 <= i < n :: r[i] == []
  {
    seq(n, i => [])
  }

  function EmptySide(n: nat): Side {
    Side(Empties(n), Empty, Empties(n))
  }

  /** `n` instances on either side and `k` threads that may call them. */
  function Init(n: nat, k: nat): State {
    State(seq(k, i => Idle), seq(n, i => None), Starting, None, false,
          Net(EmptySide(n), [], [], EmptySide(n), seq(n, i => Free), []), [])
  }

  /** The state after any sequence of steps, all of which were possible. */
  function After(n: nat, k: nat, steps: seq<Step>): Option<State> {
    if steps == [] then Some(Init(n, k)) else
    var s := After(n, k, steps[..|steps| - 1]);
    if s.None? then None else Next(s.value, steps[|steps| - 1])
  }
}
