// cyber/service/client.h and service.h: many clients and one service that share a
// request channel and a response channel of an unreliable network.
module ClientService {
  import opened Wrappers

  // transport::MessageInfo: who sent it, its number, and whose request it belongs to.
  datatype Info = Info(senderId: nat, seqNum: nat, spareId: nat)
  datatype Packet = Packet(info: Info, content: string)
  datatype Answer = Answer(request: Packet, response: string)

  // A client: promises are numbered as they are made, `promises` holds the values of
  // those that are set, `callbacks` the promises whose callback ran, in order.
  // setTwice says that a promise was set that had been set before.
  // `requests` is the history of what was sent.
  datatype ClientState = ClientState(
    isInit: bool,
    sequenceNumber: nat,
    pending: map<nat, nat>,
    promiseCount: nat,
    promises: map<nat, string>,
    setTwice: bool,
    callbacks: seq<nat>,
    requests: seq<string>)

  datatype ServiceState = ServiceState(inited: bool, tasks: seq<Packet>, handling: Option<Packet>)

  // The network may deliver whatever was sent, in any order, any number of times or
  // never.  `answers` is the history of what the service callback computed.
  datatype State = State(
    clients: seq<ClientState>,
    service: ServiceState,
    requestChannel: set<Packet>,
    responseChannel: set<Packet>,
    answers: set<Answer>)

  datatype Event =
    | Send(client: nat, content: string)
    | DeliverRequest(packet: Packet)
    | TakeTask
    | HandleTask(response: string)
    | DeliverResponse(client: nat, packet: Packet)
    | DestroyService

  // ---- What each operation does ----

  function RequestOf(c: ClientState, id: nat, content: string): (p: Packet) {
    Packet(Info(id, c.sequenceNumber + 1, id), content)
  }

  function AfterSend(c: ClientState, content: string): (c': ClientState) {
    if !c.isInit then c
    else
      var n := c.sequenceNumber + 1;
      c.(sequenceNumber := n, pending := c.pending[n := c.promiseCount], promiseCount := c.promiseCount + 1,
         requests := c.requests + [content])
  }

  function AfterResponse(c: ClientState, id: nat, packet: Packet): (c': ClientState) {
    if packet.info.spareId != id || packet.info.seqNum !in c.pending then c
    else
      var promise := c.pending[packet.info.seqNum];
      c.(pending := c.pending - {packet.info.seqNum},
         promises := c.promises[promise := packet.content],
         setTwice := c.setTwice || promise in c.promises,
         callbacks := c.callbacks + [promise])
  }

  // The service numbers its transmitter's id past all clients'.
  function ResponseTo(request: Packet, serviceId: nat, content: string): (p: Packet) {
    Packet(request.info.(senderId := serviceId), content)
  }

  function Step(s: State, e: Event): (s': State) {
    match e
    case Send(k, content) =>
      if k < |s.clients| && s.clients[k].isInit then
        s.(clients := s.clients[k := AfterSend(s.clients[k], content)],
           requestChannel := s.requestChannel + {RequestOf(s.clients[k], k, content)})
      else s
    case DeliverRequest(packet) =>
      if packet in s.requestChannel then s.(service := s.service.(tasks := s.service.tasks + [packet])) else s
    case TakeTask =>
      if s.service.inited && s.service.handling.None? && s.service.tasks != [] then
        s.(service := s.service.(tasks := s.service.tasks[1..], handling := Some(s.service.tasks[0])))
      else s
    case HandleTask(response) =>
      if s.service.handling.Some? then
        s.(service := s.service.(handling := None),
           answers := s.answers + {Answer(s.service.handling.value, response)},
           responseChannel := s.responseChannel + {ResponseTo(s.service.handling.value, |s.clients|, response)})
      else s
    case DeliverResponse(k, packet) =>
      if k < |s.clients| && packet in s.responseChannel then
        s.(clients := s.clients[k := AfterResponse(s.clients[k], k, packet)])
      else s
    case DestroyService =>
      s.(service := s.service.(inited := false, tasks := []))
  }

  function Run(s: State, events: seq<Event>): (s': State)
    decreases |events|
  {
    if events == [] then s else Run(Step(s, events[0]), events[1..])
  }

  ghost predicate Init(s: State) {
    && (forall k | 0 <= k < |s.clients| ::
          s.clients[k] == ClientState(s.clients[k].isInit, 0, map[], 0, map[], false, [], []))
    && s.service == ServiceState(true, [], None)
    && s.requestChannel == {} && s.responseChannel == {} && s.answers == {}
  }

  // ---- The invariant ----

  // The request that client `id` sent under number `seqNum`.
  function Sent(c: ClientState, id: nat, seqNum: nat): (p: Packet)
    requires 1 <= seqNum <= |c.requests|
  {
    Packet(Info(id, seqNum, id), c.requests[seqNum - 1])
  }

  ghost predicate Genuine(s: State, p: Packet) {
    && p.info.spareId < |s.clients|
    && 1 <= p.info.seqNum <= |s.clients[p.info.spareId].requests|
    && p == Sent(s.clients[p.info.spareId], p.info.spareId, p.info.seqNum)
  }

  // A response belongs to a request that was sent, and was computed from it.
  ghost predicate Backed(s: State, p: Packet) {
    && p.info.spareId < |s.clients|
    && 1 <= p.info.seqNum <= |s.clients[p.info.spareId].requests|
    && Answer(Sent(s.clients[p.info.spareId], p.info.spareId, p.info.seqNum), p.content) in s.answers
  }

  ghost predicate ClientInv(c: ClientState, id: nat, answers: set<Answer>) {
    && !c.setTwice && c.sequenceNumber == c.promiseCount == |c.requests|
    && (forall n | n in c.pending :: c.pending[n] == n - 1)
    && (forall n: nat :: n in c.pending <==> 1 <= n <= c.sequenceNumber && n - 1 !in c.promises)
    && (forall p | p in c.promises :: p < |c.requests| && Answer(Sent(c, id, p + 1), c.promises[p]) in answers)
    && (forall p: nat :: multiset(c.callbacks)[p] == if p in c.promises then 1 else 0)
  }

  ghost predicate Inv(s: State) {
    && (forall k | 0 <= k < |s.clients| :: ClientInv(s.clients[k], k, s.answers))
    && (forall p | p in s.requestChannel :: Genuine(s, p))
    && (forall p | p in s.service.tasks :: Genuine(s, p))
    && (s.service.handling.Some? ==> Genuine(s, s.service.handling.value))
    && (forall p | p in s.responseChannel :: Backed(s, p))
  }

  // ---- Every step keeps it ----

  // Histories only grow.
  ghost predicate Grows(s: State, t: State) {
    && |s.clients| == |t.clients| && s.answers <= t.answers
    && (forall k | 0 <= k < |s.clients| :: s.clients[k].requests <= t.clients[k].requests)
  }

  lemma {:induction false} GenuineStays(s: State, t: State, p: Packet)
    requires Grows(s, t) && Genuine(s, p)
    ensures Genuine(t, p)
  {
    assert s.clients[p.info.spareId].requests <= t.clients[p.info.spareId].requests;
  }

  lemma {:induction false} BackedStays(s: State, t: State, p: Packet)
    requires Grows(s, t) && Backed(s, p)
    ensures Backed(t, p)
  {
    assert s.clients[p.info.spareId].requests <= t.clients[p.info.spareId].requests;
  }

  lemma {:induction false} SendKeepsClient(c: ClientState, id: nat, content: string, answers: set<Answer>)
    requires ClientInv(c, id, answers)
    ensures ClientInv(AfterSend(c, content), id, answers)
  {
  }

  lemma {:induction false} ResponseKeepsClient(c: ClientState, id: nat, packet: Packet, answers: set<Answer>)
    requires ClientInv(c, id, answers)
    requires packet.info.spareId == id && 1 <= packet.info.seqNum <= |c.requests| ==>
               Answer(Sent(c, id, packet.info.seqNum), packet.content) in answers
    ensures ClientInv(AfterResponse(c, id, packet), id, answers)
  {
    if packet.info.spareId == id && packet.info.seqNum in c.pending {
      ResponseMovesOne(c, id, packet, answers);
      ResponseCallsBackOnce(c, id, packet, answers);
      ResponseValueIsAnswer(c, id, packet, answers);
      hide Sent, AfterResponse, ClientInv;
      ClientInvOf(AfterResponse(c, id, packet), id, answers);
    }
  }

  lemma {:induction false} ClientInvOf(c: ClientState, id: nat, answers: set<Answer>)
    requires !c.setTwice && c.sequenceNumber == c.promiseCount == |c.requests|
    requires forall n | n in c.pending :: c.pending[n] == n - 1
    requires forall n: nat :: n in c.pending <==> 1 <= n <= c.sequenceNumber && n - 1 !in c.promises
    requires forall p | p in c.promises :: p < |c.requests| && Answer(Sent(c, id, p + 1), c.promises[p]) in answers
    requires forall p: nat :: multiset(c.callbacks)[p] == if p in c.promises then 1 else 0
    ensures ClientInv(c, id, answers)
  {
  }

  lemma {:induction false} ResponseValueIsAnswer(c: ClientState, id: nat, packet: Packet, answers: set<Answer>)
    requires ClientInv(c, id, answers)
    requires packet.info.spareId == id && packet.info.seqNum in c.pending
    requires 1 <= packet.info.seqNum <= |c.requests| ==>
               Answer(Sent(c, id, packet.info.seqNum), packet.content) in answers
    ensures var c' := AfterResponse(c, id, packet);
            forall p | p in c'.promises :: p < |c'.requests| && Answer(Sent(c', id, p + 1), c'.promises[p]) in answers
  {
    ResponseMovesOne(c, id, packet, answers);
    hide AfterResponse;
    var c' := AfterResponse(c, id, packet);
    forall p | p in c'.promises ensures p < |c'.requests| && Answer(Sent(c', id, p + 1), c'.promises[p]) in answers {
      assert p != packet.info.seqNum - 1 ==> p in c.promises && c'.promises[p] == c.promises[p];
    }
  }

  lemma {:induction false} ResponseCallsBackOnce(c: ClientState, id: nat, packet: Packet, answers: set<Answer>)
    requires ClientInv(c, id, answers)
    requires packet.info.spareId == id && packet.info.seqNum in c.pending
    ensures var c' := AfterResponse(c, id, packet);
            forall p: nat :: multiset(c'.callbacks)[p] == if p in c'.promises then 1 else 0
  {
    var c' := AfterResponse(c, id, packet);
    var n := packet.info.seqNum;
    assert c.pending[n] == n - 1 && n - 1 !in c.promises;
    assert c'.callbacks == c.callbacks + [n - 1];
    forall p: nat ensures multiset(c'.callbacks)[p] == if p in c'.promises then 1 else 0 {
      assert multiset(c.callbacks)[p] == if p in c.promises then 1 else 0;
    }
  }

  // The request handled goes from pending to fulfilled, and nothing else moves.
  lemma {:induction false} ResponseMovesOne(c: ClientState, id: nat, packet: Packet, answers: set<Answer>)
    requires ClientInv(c, id, answers)
    requires packet.info.spareId == id && packet.info.seqNum in c.pending
    ensures var c' := AfterResponse(c, id, packet); var n := packet.info.seqNum;
            && 1 <= n <= |c.requests| && !c'.setTwice && c'.sequenceNumber == c'.promiseCount == |c'.requests|
            && c'.promises == c.promises[n - 1 := packet.content] && c'.callbacks == c.callbacks + [n - 1]
            && c'.requests == c.requests && c'.sequenceNumber == c.sequenceNumber && c'.promiseCount == c.promiseCount
            && (forall m | m in c'.pending :: c'.pending[m] == m - 1)
            && (forall m: nat :: m in c'.pending <==> 1 <= m <= c'.sequenceNumber && m - 1 !in c'.promises)
  {
    var c' := AfterResponse(c, id, packet);
    var n := packet.info.seqNum;
    assert c.pending[n] == n - 1 && n - 1 !in c.promises;
    forall m: nat ensures m in c'.pending <==> 1 <= m <= c'.sequenceNumber && m - 1 !in c'.promises {
      assert m in c.pending <==> 1 <= m <= c.sequenceNumber && m - 1 !in c.promises;
    }
  }

  lemma {:induction false} MoreAnswersKeepClient(c: ClientState, id: nat, answers: set<Answer>, more: set<Answer>)
    requires ClientInv(c, id, answers) && answers <= more
    ensures ClientInv(c, id, more)
  {
  }

  lemma {:induction false} StepGrows(s: State, e: Event)
    ensures Grows(s, Step(s, e))
  {
  }

  lemma {:induction false} StepKeepsClients(s: State, e: Event)
    requires Inv(s)
    ensures forall k | 0 <= k < |s.clients| :: ClientInv(Step(s, e).clients[k], k, Step(s, e).answers)
  {
    hide ClientInv;
    var t := Step(s, e);
    forall k | 0 <= k < |s.clients| ensures ClientInv(t.clients[k], k, t.answers) {
      match e
      case Send(_, content) => SendKeepsClient(s.clients[k], k, content, s.answers);
      case DeliverResponse(_, packet) =>
        if packet in s.responseChannel {
          assert Backed(s, packet);
          ResponseKeepsClient(s.clients[k], k, packet, s.answers);
        }
      case _ => MoreAnswersKeepClient(s.clients[k], k, s.answers, t.answers);
    }
  }

  lemma {:induction false} StepKeepsRequests(s: State, e: Event)
    requires Inv(s)
    ensures forall p | p in Step(s, e).requestChannel :: Genuine(Step(s, e), p)
    ensures forall p | p in Step(s, e).service.tasks :: Genuine(Step(s, e), p)
    ensures Step(s, e).service.handling.Some? ==> Genuine(Step(s, e), Step(s, e).service.handling.value)
  {
    var t := Step(s, e);
    StepGrows(s, e);
    forall p | Genuine(s, p) ensures Genuine(t, p) { GenuineStays(s, t, p); }
    if e.Send? && e.client < |s.clients| {
      var c := s.clients[e.client];
      assert ClientInv(c, e.client, s.answers);
      forall p | p in t.requestChannel ensures Genuine(t, p) {
        if p !in s.requestChannel {
          assert p == Sent(t.clients[e.client], e.client, c.sequenceNumber + 1);
        }
      }
    }
  }

  lemma {:induction false} StepKeepsResponses(s: State, e: Event)
    requires Inv(s)
    ensures forall p | p in Step(s, e).responseChannel :: Backed(Step(s, e), p)
  {
    var t := Step(s, e);
    StepGrows(s, e);
    forall p | p in t.responseChannel ensures Backed(t, p) {
      if p in s.responseChannel {
        BackedStays(s, t, p);
      }
    }
  }

  lemma {:induction false} StepKeepsInv(s: State, e: Event)
    requires Inv(s)
    ensures Inv(Step(s, e))
  {
    hide Step, ClientInv, Genuine, Backed;
    StepGrows(s, e);
    StepKeepsClients(s, e);
    StepKeepsRequests(s, e);
    StepKeepsResponses(s, e);
    InvOf(Step(s, e));
  }

  lemma {:induction false} InvOf(s: State)
    requires forall k | 0 <= k < |s.clients| :: ClientInv(s.clients[k], k, s.answers)
    requires forall p | p in s.requestChannel :: Genuine(s, p)
    requires forall p | p in s.service.tasks :: Genuine(s, p)
    requires s.service.handling.Some? ==> Genuine(s, s.service.handling.value)
    requires forall p | p in s.responseChannel :: Backed(s, p)
    ensures Inv(s)
  {
  }

  lemma {:induction false} RunKeepsInv(s: State, events: seq<Event>)
    requires Inv(s)
    ensures Inv(Run(s, events)) && Grows(s, Run(s, events))
    decreases |events|
  {
    hide Inv, Step;
    if events == [] {
    } else {
      StepKeepsInv(s, events[0]);
      StepGrows(s, events[0]);
      RunKeepsInv(Step(s, events[0]), events[1..]);
    }
  }

  lemma {:induction false} InitInv(s: State)
    requires Init(s)
    ensures Inv(s)
  {
  }

  // ---- What the protocol promises ----

  // However the network behaves: no promise is ever set twice, its value was computed
  // by the service from this client's request of the same number, pending are exactly
  // the requests sent and not answered, and the callback of each answered request ran
  // exactly once, and no other.
  lemma {:induction false} EveryAnswerIsOnesOwn(s: State, events: seq<Event>, k: nat)
    requires Init(s) && k < |s.clients|
    ensures |Run(s, events).clients| == |s.clients|
    ensures var t := Run(s, events); var c := t.clients[k];
            && !c.setTwice
            && (forall p | p in c.promises ::
                  p < |c.requests| && Answer(Packet(Info(k, p + 1, k), c.requests[p]), c.promises[p]) in t.answers)
            && (forall n: nat :: n in c.pending <==> 1 <= n <= |c.requests| && n - 1 !in c.promises)
            && (forall p: nat :: multiset(c.callbacks)[p] == if p in c.promises then 1 else 0)
  {
    InitInv(s);
    RunKeepsInv(s, events);
    assert ClientInv(Run(s, events).clients[k], k, Run(s, events).answers);
  }

  // A response sets only the promise of a pending request, which is not set.
  lemma {:induction false} StepKeepsAnswers(s: State, e: Event, k: nat, p: nat)
    requires Inv(s) && k < |s.clients| && p in s.clients[k].promises
    ensures |Step(s, e).clients| == |s.clients|
    ensures p in Step(s, e).clients[k].promises && Step(s, e).clients[k].promises[p] == s.clients[k].promises[p]
  {
    var c := s.clients[k];
    assert ClientInv(c, k, s.answers);
    if e.DeliverResponse? && e.packet.info.spareId == k && e.packet.info.seqNum in c.pending {
      ResponseMovesOne(c, k, e.packet, s.answers);
      assert c.pending[e.packet.info.seqNum] == e.packet.info.seqNum - 1;
      assert e.packet.info.seqNum - 1 !in c.promises;
    }
  }

  // A promise that is set keeps its value for ever.
  lemma {:induction false} AnswersNeverChange(s: State, events: seq<Event>, k: nat, p: nat)
    requires Inv(s) && k < |s.clients| && p in s.clients[k].promises
    ensures |Run(s, events).clients| == |s.clients|
    ensures p in Run(s, events).clients[k].promises && Run(s, events).clients[k].promises[p] == s.clients[k].promises[p]
    decreases |events|
  {
    hide Step, Inv;
    if events != [] {
      StepKeepsInv(s, events[0]);
      StepKeepsAnswers(s, events[0], k, p);
      AnswersNeverChange(Step(s, events[0]), events[1..], k, p);
    }
  }

  lemma {:induction false} RunAppend(s: State, a: seq<Event>, b: seq<Event>)
    ensures Run(s, a + b) == Run(Run(s, a), b)
    decreases |a|
  {
    if a == [] {
      assert a + b == b;
    } else {
      assert (a + b)[1..] == a[1..] + b;
      RunAppend(Step(s, a[0]), a[1..], b);
    }
  }

  // A response that reaches the client whose request it answers leaves that request
  // fulfilled; one that reaches another client changes nothing there.
  lemma {:induction false} DeliveryFulfils(s: State, k: nat, packet: Packet)
    requires Inv(s) && k < |s.clients| && packet in s.responseChannel
    ensures var c := Step(s, DeliverResponse(k, packet)).clients[k];
            if packet.info.spareId == k then packet.info.seqNum - 1 in c.promises else c == s.clients[k]
  {
    assert Backed(s, packet);
    assert ClientInv(s.clients[k], k, s.answers);
  }

  // One request and its response, with nothing lost or delayed.
  function Exchange(k: nat, n: nat, content: string, serviceId: nat, response: string): (events: seq<Event>) {
    [Send(k, content), DeliverRequest(Packet(Info(k, n, k), content)), TakeTask, HandleTask(response),
     DeliverResponse(k, Packet(Info(serviceId, n, k), response))]
  }

  // When the network does deliver, a request sent to an idle service is answered with
  // what the service computes, whatever happened before.
  lemma {:induction false} RequestIsAnswered(s: State, k: nat, content: string, response: string)
    requires Inv(s) && k < |s.clients| && s.clients[k].isInit
    requires s.service == ServiceState(true, [], None)
    ensures var n := |s.clients[k].requests|;
            var t := Run(s, Exchange(k, n + 1, content, |s.clients|, response));
            && |t.clients| == |s.clients|
            && t.clients[k].requests == s.clients[k].requests + [content]
            && t.clients[k].promises == s.clients[k].promises[n := response]
            && t.clients[k].pending == s.clients[k].pending
            && t.clients[k].callbacks == s.clients[k].callbacks + [n]
  {
    var c := s.clients[k];
    assert ClientInv(c, k, s.answers);
    var n := |c.requests|;
    var request := Packet(Info(k, n + 1, k), content);
    var reply := Packet(Info(|s.clients|, n + 1, k), response);
    var s1 := Step(s, Send(k, content));
    assert s1.clients[k] == AfterSend(c, content) && request in s1.requestChannel;
    var s2 := Step(s1, DeliverRequest(request));
    assert s2.service.tasks == [request];
    var s3 := Step(s2, TakeTask);
    var s4 := Step(s3, HandleTask(response));
    assert reply in s4.responseChannel && s4.clients == s1.clients;
    var s5 := Step(s4, DeliverResponse(k, reply));
    assert n + 1 !in c.pending && n !in c.promises;
    assert AfterSend(c, content).pending - {n + 1} == c.pending;
    RunFive(s, Send(k, content), DeliverRequest(request), TakeTask, HandleTask(response), DeliverResponse(k, reply));
  }

  lemma {:induction false} RunFive(s: State, a: Event, b: Event, c: Event, d: Event, e: Event)
    ensures Run(s, [a, b, c, d, e]) == Step(Step(Step(Step(Step(s, a), b), c), d), e)
  {
    hide Step;
    RunAppend(s, [a, b], [c, d, e]);
    assert [a, b] + [c, d, e] == [a, b, c, d, e];
    RunAppend(s, [a], [b]);
    assert [a] + [b] == [a, b];
    RunAppend(Run(s, [a, b]), [c], [d, e]);
    assert [c] + [d, e] == [c, d, e];
    RunAppend(Run(Run(s, [a, b]), [c]), [d], [e]);
    assert [d] + [e] == [d, e];
  }

  // The reply to a request.
  function Reply(s: State, request: Packet, response: string): (p: Packet) {
    ResponseTo(request, |s.clients|, response)
  }

  // The service takes its first task and answers it, and the network delivers the reply.
  function ServeOne(s: State, response: string): (events: seq<Event>)
    requires s.service.tasks != []
  {
    var request := s.service.tasks[0];
    [TakeTask, HandleTask(response), DeliverResponse(request.info.spareId, Reply(s, request, response))]
  }

  lemma {:induction false} FirstIsServed(s: State, response: string)
    requires Inv(s) && s.service.inited && s.service.handling == None && s.service.tasks != []
    ensures var t, request := Run(s, ServeOne(s, response)), s.service.tasks[0];
      var k, n := request.info.spareId, request.info.seqNum;
      && Inv(t) && t.service == s.service.(tasks := s.service.tasks[1..]) && |t.clients| == |s.clients|
      && t.answers == s.answers + {Answer(request, response)}
      && k < |s.clients| && t.clients == s.clients[k := t.clients[k]]
      && t.clients[k].promises == (if n in s.clients[k].pending then s.clients[k].promises[n - 1 := response]
                                   else s.clients[k].promises)
      && t.clients[k].pending == s.clients[k].pending - {n}
      && n >= 1 && n - 1 in t.clients[k].promises
  {
    var request := s.service.tasks[0];
    assert Genuine(s, request);
    var k := request.info.spareId;
    var s1 := Step(s, TakeTask);
    var s2 := Step(s1, HandleTask(response));
    var s3 := Step(s2, DeliverResponse(k, Reply(s, request, response)));
    StepKeepsInv(s, TakeTask);
    StepKeepsInv(s1, HandleTask(response));
    StepKeepsInv(s2, DeliverResponse(k, Reply(s, request, response)));
    assert ClientInv(s2.clients[k], k, s2.answers);
    DeliveryFulfils(s2, k, Reply(s, request, response));
    if request.info.seqNum in s2.clients[k].pending {
      ResponseMovesOne(s2.clients[k], k, Reply(s, request, response), s2.answers);
    }
    hide Inv, Step;
    RunThree(s, TakeTask, HandleTask(response), DeliverResponse(k, Reply(s, request, response)));
  }

  lemma {:induction false} RunThree(s: State, a: Event, b: Event, c: Event)
    ensures Run(s, [a, b, c]) == Step(Step(Step(s, a), b), c)
  {
    hide Step;
    RunAppend(s, [a], [b, c]);
    RunAppend(Step(s, a), [b], [c]);
    assert [a] + [b, c] == [a, b, c] && [b] + [c] == [b, c];
  }

  // Whatever is in the queue, with these responses in turn.
  function ServeAll(s: State, responses: seq<string>): (events: seq<Event>)
    requires |responses| <= |s.service.tasks|
    decreases |responses|
  {
    if responses == [] then [] else
    var t := Run(s, ServeOne(s, responses[0]));
    if |responses| - 1 <= |t.service.tasks| then ServeOne(s, responses[0]) + ServeAll(t, responses[1..]) else []
  }

  // From s to t, queued request i has been answered with its response; the first of equal
  // requests sets the promise, unless it was set before.
  ghost predicate Served(s: State, t: State, i: nat, response: string)
    requires i < |s.service.tasks|
  {
    var request := s.service.tasks[i];
    var k, n := request.info.spareId, request.info.seqNum;
    && k < |s.clients| == |t.clients| && n >= 1 && n - 1 in t.clients[k].promises
    && Answer(request, response) in t.answers
    && (n in s.clients[k].pending && (forall j | 0 <= j < i :: s.service.tasks[j] != request)
        ==> t.clients[k].promises[n - 1] == response)
  }

  // Every queued request is answered with what the service computes for it, in the order
  // of the queue, when the network delivers, and nothing is left in the queue.
  lemma {:induction false} QueueIsAnswered(s: State, responses: seq<string>)
    requires Inv(s) && s.service.inited && s.service.handling == None && |responses| == |s.service.tasks|
    ensures var t := Run(s, ServeAll(s, responses));
      && Inv(t) && t.service == ServiceState(true, [], None)
      && forall i | 0 <= i < |responses| :: Served(s, t, i, responses[i])
    decreases |responses|
  {
    hide Inv, Served, ServeOne;
    if responses != [] {
      var one := ServeOne(s, responses[0]);
      var s1 := Run(s, one);
      FirstIsServed(s, responses[0]);
      QueueIsAnswered(s1, responses[1..]);
      var rest := ServeAll(s1, responses[1..]);
      RunAppend(s, one, rest);
      forall i | 0 <= i < |responses| ensures Served(s, Run(s1, rest), i, responses[i]) {
        if i == 0 {
          FirstStaysServed(s, s1, rest, responses[0]);
        } else {
          assert responses[1..][i - 1] == responses[i];
          LaterIsServed(s, s1, Run(s1, rest), i, responses[i]);
        }
      }
    }
  }

  lemma {:induction false} FirstStaysServed(s: State, s1: State, rest: seq<Event>, response: string)
    requires Inv(s) && s.service.inited && s.service.handling == None && s.service.tasks != []
    requires s1 == Run(s, ServeOne(s, response))
    ensures Served(s, Run(s1, rest), 0, response)
  {
    hide Inv, Run, ServeOne, Step;
    FirstIsServed(s, response);
    var k, n := s.service.tasks[0].info.spareId, s.service.tasks[0].info.seqNum;
    AnswersNeverChange(s1, rest, k, n - 1);
    RunKeepsInv(s1, rest);
  }

  lemma {:induction false} LaterIsServed(s: State, s1: State, t: State, i: nat, response: string)
    requires Inv(s) && 0 < i < |s.service.tasks| && s1.service.tasks == s.service.tasks[1..]
    requires Served(s1, t, i - 1, response)
    requires var k, n := s.service.tasks[0].info.spareId, s.service.tasks[0].info.seqNum;
      && k < |s.clients| == |s1.clients| && s1.clients == s.clients[k := s1.clients[k]]
      && s1.clients[k].pending == s.clients[k].pending - {n}
    ensures Served(s, t, i, response)
  {
    hide Inv;
    var first, request := s.service.tasks[0], s.service.tasks[i];
    assert s1.service.tasks[i - 1] == request;
    TasksDiffer(s, 0, i);
    if forall j | 0 <= j < i :: s.service.tasks[j] != request {
      forall j | 0 <= j < i - 1 ensures s1.service.tasks[j] != request {
        assert s1.service.tasks[j] == s.service.tasks[j + 1];
      }
    }
  }

  // Two different tasks are of different clients or numbers.
  lemma {:induction false} TasksDiffer(s: State, i: nat, j: nat)
    requires Inv(s) && i < |s.service.tasks| && j < |s.service.tasks|
    ensures var a, b := s.service.tasks[i], s.service.tasks[j];
      a != b ==> a.info.spareId != b.info.spareId || a.info.seqNum != b.info.seqNum
  {
    assert Genuine(s, s.service.tasks[i]) && Genuine(s, s.service.tasks[j]);
  }

  function Deliveries(packets: seq<Packet>): (events: seq<Event>) {
    if packets == [] then [] else [DeliverRequest(packets[0])] + Deliveries(packets[1..])
  }

  function Queued(s: State, packets: seq<Packet>): (s': State) {
    s.(service := s.service.(tasks := s.service.tasks + packets))
  }

  lemma {:induction false} QueuedTwice(s: State, first: Packet, rest: seq<Packet>)
    ensures Queued(Queued(s, [first]), rest) == Queued(s, [first] + rest)
  {
    assert s.service.tasks + [first] + rest == s.service.tasks + ([first] + rest);
  }

  // Requests wait in the order in which the network delivers them.
  lemma {:induction false} DeliveredInOrder(s: State, packets: seq<Packet>)
    requires forall p | p in packets :: p in s.requestChannel
    ensures Run(s, Deliveries(packets)) == Queued(s, packets)
    decreases |packets|
  {
    if packets == [] {
      assert s.service.tasks + [] == s.service.tasks;
    } else {
      var s1 := Step(s, DeliverRequest(packets[0]));
      assert s1 == Queued(s, [packets[0]]);
      hide Step;
      DeliveredInOrder(s1, packets[1..]);
      hide Queued;
      QueuedTwice(s, packets[0], packets[1..]);
      assert Deliveries(packets)[1..] == Deliveries(packets[1..]);
      assert [packets[0]] + packets[1..] == packets;
    }
  }

  // A destroyed service has nothing queued, and unless it is at work it computes nothing
  // any more.
  lemma {:induction false} DestroyedServiceIsSilent(s: State, events: seq<Event>)
    requires s.service.handling == None
    ensures Step(s, DestroyService).service.tasks == []
    ensures Run(Step(s, DestroyService), events).answers == s.answers
    ensures Run(Step(s, DestroyService), events).responseChannel == s.responseChannel
  {
    StoppedServiceIsSilent(Step(s, DestroyService), events);
  }

  lemma {:induction false} StoppedServiceIsSilent(s: State, events: seq<Event>)
    requires s.service.handling == None && !s.service.inited
    ensures Run(s, events).answers == s.answers && Run(s, events).responseChannel == s.responseChannel
    decreases |events|
  {
    if events != [] {
      StoppedServiceIsSilent(Step(s, events[0]), events[1..]);
    }
  }

  // ---- The classes ----

  class Client {
    const isInit: bool
    const writerId: nat
    var sequenceNumber: nat
    var pendingRequests: map<nat, nat>
    var promiseCount: nat
    var promises: map<nat, string>
    ghost var setTwice: bool
    ghost var callbacks: seq<nat>
    ghost var requests: seq<string>

    ghost function Snapshot(): (s: ClientState)
      reads this
    {
      ClientState(isInit, sequenceNumber, pendingRequests, promiseCount, promises, setTwice, callbacks, requests)
    }

    constructor (isInit: bool, writerId: nat)
      ensures this.writerId == writerId
      ensures Snapshot() == ClientState(isInit, 0, map[], 0, map[], false, [], [])
      ensures ClientInv(Snapshot(), writerId, {})
    {
      this.isInit, this.writerId := isInit, writerId;
      sequenceNumber, pendingRequests, promiseCount, promises, setTwice := 0, map[], 0, map[], false;
      callbacks, requests := [], [];
    }

    // Sends a request; the future is the number of its promise.
    method AsyncSendRequest(content: string) returns (future: Option<nat>, transmitted: Option<Packet>)
      modifies this
      ensures Snapshot() == AfterSend(old(Snapshot()), content)
      ensures if isInit
              then && future == Some(old(promiseCount))
                   && transmitted == Some(RequestOf(old(Snapshot()), writerId, content))
              else future == None && transmitted == None && Snapshot() == old(Snapshot())
    {
      if isInit {
        sequenceNumber := sequenceNumber + 1;
        transmitted := Some(Packet(Info(writerId, sequenceNumber, writerId), content));
        requests := requests + [content];
        future := Some(promiseCount);
        pendingRequests := pendingRequests[sequenceNumber := promiseCount];
        promiseCount := promiseCount + 1;
      } else {
        future, transmitted := None, None;
      }
    }

    method HandleResponse(packet: Packet)
      modifies this
      ensures Snapshot() == AfterResponse(old(Snapshot()), writerId, packet)
    {
      if packet.info.spareId != writerId {
        return;
      }
      var n := packet.info.seqNum;
      if n !in pendingRequests {
        return;
      }
      var promise := pendingRequests[n];
      pendingRequests := pendingRequests - {n};
      setTwice := setTwice || promise in promises;
      promises := promises[promise := packet.content];
      callbacks := callbacks + [promise];
    }
  }

  class Service {
    const writerId: nat
    var inited: bool
    var tasks: seq<Packet>
    var handling: Option<Packet>

    function Snapshot(): (s: ServiceState)
      reads this
    {
      ServiceState(inited, tasks, handling)
    }

    // The service takes part in a state of the protocol.
    ghost predicate Serves(s: State)
      reads this
    {
      s.service == Snapshot() && |s.clients| == writerId
    }

    constructor (writerId: nat)
      ensures this.writerId == writerId && Snapshot() == ServiceState(true, [], None)
    {
      this.writerId := writerId;
      inited, tasks, handling := true, [], None;
    }

    method Enqueue(task: Packet)
      modifies this`tasks
      ensures tasks == old(tasks) + [task]
    {
      tasks := tasks + [task];
    }

    // One round of the service thread up to where it runs what it took, without waiting.
    method TakeNextTask(ghost s: State)
      requires Serves(s)
      modifies this`tasks, this`handling
      ensures Snapshot() == Step(s, TakeTask).service
    {
      if inited && handling.None? && tasks != [] {
        handling := Some(tasks[0]);
        tasks := tasks[1..];
      }
    }

    // HandleRequest and SendResponse: the response goes out under the request's number.
    method HandleRequest(ghost s: State, response: string) returns (transmitted: Option<Packet>)
      requires Serves(s)
      modifies this`handling
      ensures Snapshot() == Step(s, HandleTask(response)).service
      ensures Step(s, HandleTask(response)).responseChannel
           == s.responseChannel + (if transmitted.Some? then {transmitted.value} else {})
    {
      transmitted := None;
      if handling.Some? {
        var request := handling.value;
        handling := None;
        transmitted := Some(Packet(Info(writerId, request.info.seqNum, request.info.spareId), response));
      }
    }

    method Destroy()
      modifies this`inited, this`tasks
      ensures !inited && tasks == []
    {
      inited, tasks := false, [];
    }
  }
}
