/** Binding over whole runs: once a client has handled the reply to a request to bind, its proxy is bound to the
    service it asked for and knows its methods. */
module RpcBinding {
  import opened Options
  import opened Rpc
  import opened RpcCallbacks
  import opened RpcChannels
  import opened RpcEffects
  import opened RpcLinks
  import opened RpcNotices
  import opened RpcReplies
  import opened RpcSafety
  import opened RpcSystem

  // ---- Requests to bind and their replies -----------------------------------------------------------------

  predicate WaitsToBind(queued: map<nat, Queued>, id: nat) {
    id in queued && queued[id].QueuedBind?
  }

  predicate OlderReplies(toClient: seq<Frame>, toHost: seq<Frame>) {
    forall i, j :: 0 <= i < |toClient| && 0 <= j < |toHost| ==> toClient[i].id < toHost[j].id
  }

  /** There is one reply to a request to bind. */
  predicate OneReply(toClient: seq<Frame>) {
    forall i, j :: 0 <= i < |toClient| && 0 <= j < |toClient| && i != j && Binds(toClient[i]) ==>
      toClient[j].id != toClient[i].id
  }

  /** The frames between a client and a host that are about a binding. */
  predicate Binds(f: Frame) {
    f.BindService? || f.BindServiceReply?
  }

  predicate AllWait(frames: seq<Frame>, queued: map<nat, Queued>) {
    forall i :: 0 <= i < |frames| && Binds(frames[i]) ==> WaitsToBind(queued, frames[i].id)
  }

  /** Replies are to requests that were sent earlier than those on their way, and the client waits for each binding
      that it has asked for until it handles the one reply. */
  predicate BindingOk(l: Link) {
    && OlderReplies(l.toClient, l.client.toHost) && OneReply(l.toClient)
    && AllWait(l.client.toHost, l.client.queued) && AllWait(l.toClient, l.client.queued)
  }

  lemma {:induction false} SameBinding(l: Link, l': Link)
    requires BindingOk(l) && l'.toClient == l.toClient && l'.client.toHost == l.client.toHost
             && l'.client.queued == l.client.queued
    ensures BindingOk(l')
  {
  }

  lemma {:induction false} ReplyIds(services: map<nat, Service>, l: Link)
    requires FramesOk(services, l)
    ensures forall i :: 0 <= i < |l.toClient| ==> l.toClient[i].id <= l.client.lastRequest
    ensures forall j :: 0 <= j < |l.client.toHost| ==> l.client.toHost[j].id <= l.client.lastRequest
  {
  }

  /** One more request, under a new number. */
  lemma {:induction false} RequestBinding(services: map<nat, Service>, l: Link, l': Link, f: Frame)
    requires BindingOk(l) && FramesOk(services, l) && f.id == l.client.lastRequest + 1
    requires l'.toClient == l.toClient && l'.client.toHost == l.client.toHost + [f]
    requires forall id :: id <= l.client.lastRequest && id in l.client.queued ==>
               id in l'.client.queued && l'.client.queued[id] == l.client.queued[id]
    requires Binds(f) ==> WaitsToBind(l'.client.queued, f.id)
    ensures BindingOk(l')
  {
    hide FramesOk;
    ReplyIds(services, l);
  }

  lemma {:induction false} BindBinding(services: map<nat, Service>, l: Link, proxy: nat)
    requires LinkOk(services, l) && BindingOk(l)
    ensures BindingOk(l.(client := Bind(l.client, proxy)))
  {
    hide BindingOk, CallbacksOk, GivenOk, TablesOk, KeysOk, AllGotOk, FramesOk;
    var c := l.client;
    if c.connected && proxy in c.proxies {
      RequestBinding(services, l, l.(client := Bind(c, proxy)),
                     BindService(c.lastRequest + 1, c.proxies[proxy].service));
    } else {
      SameBinding(l, l.(client := Bind(c, proxy)));
    }
  }

  lemma {:induction false} BindAllBinding(services: map<nat, Service>, l: Link, proxies: seq<nat>)
    requires LinkOk(services, l) && BindingOk(l)
    ensures BindingOk(l.(client := BindAll(l.client, proxies)))
    decreases |proxies|
  {
    hide LinkOk, BindingOk;
    if proxies != [] {
      var l1 := l.(client := Bind(l.client, proxies[0]));
      BindLink(services, l, proxies[0]);
      BindBinding(services, l, proxies[0]);
      BindAllBinding(services, l1, proxies[1..]);
    }
  }

  lemma {:induction false} InvokeBinding(services: map<nat, Service>, l: Link, proxy: nat, methodName: string,
                                         args: nat, callback: Option<nat>)
    requires LinkOk(services, l) && BindingOk(l) && proxy in l.client.proxies
    ensures BindingOk(l.(client := Invoke(l.client, proxy, methodName, args, callback)))
  {
    hide BindingOk, CallbacksOk, GivenOk, TablesOk, KeysOk, AllGotOk, FramesOk;
    var c, p := l.client, l.client.proxies[proxy];
    var l' := l.(client := Invoke(c, proxy, methodName, args, callback));
    if c.connected && p.serviceId != 0 && methodName in p.methods {
      RequestBinding(services, l, l',
                     InvokeMethod(c.lastRequest + 1, p.serviceId, p.methods[methodName], args, callback.None?));
    } else {
      SameBinding(l, l');
    }
  }

  /** A frame is handled, and what waited for it, if it is the last one, no longer does. */
  lemma {:induction false} ReceivedBinding(l: Link)
    requires BindingOk(l) && l.toClient != []
    ensures BindingOk(l.(toClient := l.toClient[1..], client := OnFrameReceived(l.client, l.toClient[0])))
  {
    hide OnFrameReceived, OlderReplies, OneReply, AllWait;
    var c, f := l.client, l.toClient[0];
    var queued := OnFrameReceived(c, f).queued;
    ReceivedQueue(c, f);
    TailOlder(l.toClient, c.toHost);
    TailOneReply(l.toClient);
    StillWait(c.toHost, c.queued, queued, f.id);
    TailWait(l.toClient, c.queued);
    StillWait(l.toClient[1..], c.queued, queued, f.id);
  }

  lemma {:induction false} TailWait(frames: seq<Frame>, queued: map<nat, Queued>)
    requires AllWait(frames, queued) && frames != []
    ensures AllWait(frames[1..], queued)
  {
  }

  /** Whoever waits for another frame still waits. */
  lemma {:induction false} StillWait(frames: seq<Frame>, queued: map<nat, Queued>, queued': map<nat, Queued>, id: nat)
    requires AllWait(frames, queued)
    requires forall i :: i != id && i in queued ==> i in queued' && queued'[i] == queued[i]
    requires forall i :: 0 <= i < |frames| && Binds(frames[i]) ==> frames[i].id != id
    ensures AllWait(frames, queued')
  {
  }

  lemma {:induction false} TailOneReply(toClient: seq<Frame>)
    requires OneReply(toClient) && toClient != []
    ensures OneReply(toClient[1..])
    ensures forall i :: 0 <= i < |toClient[1..]| && Binds(toClient[1..][i]) ==> toClient[1..][i].id != toClient[0].id
  {
    assert forall i :: 0 <= i < |toClient[1..]| ==> toClient[1..][i] == toClient[i + 1];
  }

  lemma {:induction false} TailOlder(toClient: seq<Frame>, toHost: seq<Frame>)
    requires OlderReplies(toClient, toHost) && toClient != []
    ensures OlderReplies(toClient[1..], toHost) && forall j :: 0 <= j < |toHost| ==> toHost[j].id != toClient[0].id
  {
  }

  lemma {:induction false} ReceivedQueue(c: Client, f: Frame)
    ensures var c' := OnFrameReceived(c, f);
            && c'.toHost == c.toHost && c'.issued == c.issued
            && forall id :: id != f.id && id in c.queued ==> id in c'.queued && c'.queued[id] == c.queued[id]
  {
    hide OnBindServiceReply, OnInvokeMethodReply;
    if f.id in c.queued {
      var q, c1 := c.queued[f.id], c.(queued := c.queued - {f.id});
      if q.QueuedBind? && f.BindServiceReply? {
        BindReplyQueue(c1, q.proxy, f);
      } else if q.QueuedInvoke? && f.InvokeMethodReply? {
        ResultQueue(c1, q, f);
      }
    }
  }

  lemma {:induction false} BindReplyQueue(c: Client, proxy: nat, f: Frame)
    requires f.BindServiceReply?
    ensures var c' := OnBindServiceReply(c, proxy, f);
            c'.toHost == c.toHost && c'.issued == c.issued && c'.queued == c.queued
  {
    hide MethodMap;
  }

  lemma {:induction false} ResultQueue(c: Client, q: Queued, f: Frame)
    requires q.QueuedInvoke? && f.InvokeMethodReply?
    ensures var c' := OnInvokeMethodReply(c, q, f);
            c'.toHost == c.toHost && c'.issued == c.issued
              && (c'.queued == c.queued || c'.queued == c.queued[f.id := q])
  {
  }

  lemma {:induction false} ClientBinding(h: Host, sock: nat, l: Link, step: Step)
    requires LinkOk(h.services, l) && BindingOk(l) && LinkEnabled(h, sock, l, step) && IsClientStep(step)
    ensures var l' := l.(client := ClientAfter(l, step));
            BindingOk(if step.ClientReceives? then l'.(toClient := l.toClient[1..]) else l')
  {
    hide LinkOk, BindingOk, Bind, Invoke, OnFrameReceived, Noticed, Destroyed, Disconnected, Connected;
    var c, services := l.client, h.services;
    var l' := l.(client := ClientAfter(l, step));
    match step
    case BindProxy(_, proxy) => BindBinding(services, l, proxy);
    case ClientConnects(_) => ConnectedBinding(services, l);
    case Call(_, proxy, methodName, args, callback) => InvokeBinding(services, l, proxy, methodName, args, callback);
    case ClientReceives(_) => ReceivedBinding(l);
    case ClientDisconnects(_) => DisconnectedQueue(c); SameBinding(l, l');
    case ProxyNoticed(_) => NoticedQueue(c); SameBinding(l, l');
    case DestroyProxy(_, proxy) => DestroyedQueue(c, proxy); SameBinding(l, l');
    case _ => SameBinding(l, l');
  }

  lemma {:induction false} ConnectedBinding(services: map<nat, Service>, l: Link)
    requires LinkOk(services, l) && BindingOk(l) && !l.tried
    ensures BindingOk(l.(client := Connected(l.client)))
  {
    hide LinkOk, BindingOk, BindAll;
    var l1 := l.(client := l.client.(connected := true), tried := true);
    NowLinked(services, l);
    SameBinding(l, l1);
    BindAllBinding(services, l1, l.client.queuedBindings);
    SameBinding(l1.(client := BindAll(l1.client, l.client.queuedBindings)), l.(client := Connected(l.client)));
  }

  lemma {:induction false} NowLinked(services: map<nat, Service>, l: Link)
    requires LinkOk(services, l) && !l.tried
    ensures LinkOk(services, l.(client := l.client.(connected := true), tried := true))
  {
    hide CallbacksOk, GivenOk, FramesOk, TablesOk, AllGotOk;
    SamePending(l.client, l.client.(connected := true));
    NowConnected(services, l);
  }

  lemma {:induction false} DisconnectedQueue(c: Client)
    ensures var c' := Disconnected(c); c'.queued == c.queued && c'.toHost == c.toHost && c'.issued == c.issued
  {
  }

  lemma {:induction false} NoticedQueue(c: Client)
    requires c.notices != []
    ensures var c' := Noticed(c); c'.queued == c.queued && c'.toHost == c.toHost && c'.issued == c.issued
  {
    hide RejectedAll;
  }

  lemma {:induction false} DestroyedQueue(c: Client, proxy: nat)
    requires proxy in c.proxies
    ensures var c' := Destroyed(c, proxy); c'.queued == c.queued && c'.toHost == c.toHost && c'.issued == c.issued
  {
    hide RejectedAll;
  }

  // ---- What the host does ---------------------------------------------------------------------------------

  /** One more frame to the client: the reply to the oldest request, or a result. */
  lemma {:induction false} SentBinding(l: Link, f: Frame)
    requires BindingOk(l)
    requires forall j :: 0 <= j < |l.client.toHost| ==> f.id < l.client.toHost[j].id
    requires forall i :: 0 <= i < |l.toClient| && (Binds(l.toClient[i]) || Binds(f)) ==> l.toClient[i].id != f.id
    requires Binds(f) ==> WaitsToBind(l.client.queued, f.id)
    ensures BindingOk(SentAfter(l, f))
  {
  }

  lemma {:induction false} TakenBinding(l: Link, l': Link)
    requires BindingOk(l) && l.client.toHost != []
    requires l'.toClient == l.toClient && l'.client == l.client.(toHost := l.client.toHost[1..])
    ensures BindingOk(l')
  {
  }

  lemma {:induction false} HandledBinding(h: Host, sock: nat, l: Link, parses: bool)
    requires LinkOk(h.services, l) && BindingOk(l) && l.client.toHost != [] && sock in h.clientsBySocket
    ensures BindingOk(Handled(l, OnReceivedFrame(h, sock, l.client.toHost[0], parses)))
  {
    hide BindingOk, LinkOk, OnReceivedFrame, Handled, Binds;
    OldestRequest(h.services, l);
    ReplyKind(h, sock, l.client.toHost[0], parses);
    AnsweredBinding(h.services, l, OnReceivedFrame(h, sock, l.client.toHost[0], parses));
  }

  lemma {:induction false} AnsweredBinding(services: map<nat, Service>, l: Link, out: Outcome)
    requires LinkOk(services, l) && BindingOk(l) && l.client.toHost != []
    requires out.reply.Some? ==>
               out.reply.value.id == l.client.toHost[0].id && (Binds(out.reply.value) <==> Binds(l.client.toHost[0]))
    ensures BindingOk(Handled(l, out))
  {
    hide BindingOk, LinkOk, SentAfter, Handled, Binds, Taken;
    HandledIs(l, out);
    TakenBinding(l, Taken(l, out.dispatch));
    if out.reply.Some? {
      OldestRequest(services, l);
      SentBinding(Taken(l, out.dispatch), out.reply.value);
    }
  }

  /** The oldest request is taken, and noted if it is run. */
  function Taken(l: Link, dispatch: Option<Dispatch>): Link
    requires l.client.toHost != []
  {
    l.(client := l.client.(toHost := l.client.toHost[1..]),
       dispatched := if dispatch.Some? then l.dispatched[l.client.toHost[0].id := dispatch.value] else l.dispatched)
  }

  lemma {:induction false} HandledIs(l: Link, out: Outcome)
    requires l.client.toHost != []
    ensures var taken := Taken(l, out.dispatch);
            && Handled(l, out) == (if out.reply.Some? then SentAfter(taken, out.reply.value) else taken)
            && taken.toClient == l.toClient && taken.client == l.client.(toHost := l.client.toHost[1..])
  {
  }

  lemma {:induction false} OldestRequest(services: map<nat, Service>, l: Link)
    requires LinkOk(services, l) && BindingOk(l) && l.client.toHost != []
    ensures var f := l.client.toHost[0];
            && (forall j :: 0 <= j < |l.client.toHost[1..]| ==> f.id < l.client.toHost[1..][j].id)
            && (forall i :: 0 <= i < |l.toClient| ==> l.toClient[i].id != f.id)
            && (Binds(f) ==> WaitsToBind(l.client.queued, f.id)) && (f.BindService? || f.InvokeMethod?)
  {
  }

  lemma {:induction false} ReplyKind(h: Host, sock: nat, f: Frame, parses: bool)
    requires sock in h.clientsBySocket && (f.BindService? || f.InvokeMethod?)
    ensures var reply := OnReceivedFrame(h, sock, f, parses).reply;
            reply.Some? ==> reply.value.id == f.id && (Binds(reply.value) <==> Binds(f))
  {
    hide GetServiceByName, Target;
  }

  lemma {:induction false} ResolvedBinding(services: map<nat, Service>, l: Link, id: nat, result: Result)
    requires LinkOk(services, l) && BindingOk(l) && id in l.dispatched
    ensures BindingOk(SentAfter(l, InvokeMethodReply(id, result)))
  {
    hide BindingOk, SentAfter, CallbacksOk, GivenOk, TablesOk, KeysOk, AllGotOk;
    forall i | 0 <= i < |l.toClient| && Binds(l.toClient[i])
      ensures l.toClient[i].id != id
    {
      assert Answers(services, l.client.issued, l.toClient[i]);
    }
    SentBinding(l, InvokeMethodReply(id, result));
  }

  // ---- Runs -----------------------------------------------------------------------------------------------

  predicate AllBindingOk(s: System) {
    forall sock :: sock in s.links ==> BindingOk(s.links[sock])
  }

  lemma {:induction false} StepBinding(s: System, step: Step)
    requires Enabled(s, step) && Inv(s) && AllBindingOk(s)
    ensures AllBindingOk(Apply(s, step))
  {
    hide LinkOk, BindingOk, OnReceivedFrame, Handled, SentAfter, ClientAfter, ExposeService, OnNewIncomingConnection,
         HostDisconnected, LinkEnabled, PairedOk, AcceptedOk;
    match step
    case Expose(_) =>
    case HostDisconnects(_) =>
    case HostAccepts(sock) => SameBinding(s.links[sock], s.links[sock].(accepted := true));
    case StartClient(_) => NewBinding();
    case HostReceives(sock, parses) =>
      LinkReceives(s, sock, parses);
      TheLink(s, sock);
      HandledBinding(s.host, sock, s.links[sock], parses);
    case Resolve(k, result) =>
      var o := s.host.held[k];
      assert OwedOk(s.host.clients, s.host.lastClient, s.links, o);
      TheLink(s, o.sock);
      ResolvedBinding(s.host.services, s.links[o.sock], o.request, result);
    case _ => ClientStepBinding(s, step);
  }

  lemma {:induction false} NewBinding()
    ensures BindingOk(Link(NEW_CLIENT, [], false, false, map[], map[]))
  {
  }

  lemma {:induction false} ClientStepBinding(s: System, step: Step)
    requires Enabled(s, step) && Inv(s) && AllBindingOk(s) && IsClientStep(step)
    ensures AllBindingOk(Apply(s, step))
  {
    hide LinkOk, BindingOk, ClientAfter, PairedOk, HeldOk, AcceptedOk;
    var l := s.links[step.sock];
    TheLink(s, step.sock);
    ClientBinding(s.host, step.sock, l, step);
    var l' := l.(client := ClientAfter(l, step));
    SameBinding(if step.ClientReceives? then l'.(toClient := l.toClient[1..]) else l', Apply(s, step).links[step.sock]);
  }

  lemma {:induction false} RunBinding(states: seq<System>, steps: seq<Step>, k: nat)
    requires IsRun(states, steps) && k < |states|
    ensures AllBindingOk(states[k])
    decreases k
  {
    hide Apply, Enabled, Inv, BindingOk;
    if k > 0 {
      RunBinding(states, steps, k - 1);
      RunInv(states, steps, k - 1);
      StepBinding(states[k - 1], steps[k - 1]);
    }
  }

  // ---- A reply on its way ---------------------------------------------------------------------------------

  /** The request has been answered: no other frame has its number but the reply, if that is still on its way. */
  predicate Answered(l: Link, id: nat, reply: Frame) {
    && (forall k :: 0 <= k < |l.toClient| && l.toClient[k].id == id ==> l.toClient[k] == reply)
    && (forall j :: 0 <= j < |l.client.toHost| ==> id < l.client.toHost[j].id)
    && id <= l.client.lastRequest && id in l.client.issued && l.client.issued[id].BindRequest?
  }

  /** What a request was made for is not forgotten. */
  predicate Remembers(c: Client, c': Client) {
    forall id :: id in c.issued && id <= c.lastRequest ==> id in c'.issued && c'.issued[id] == c.issued[id]
  }

  lemma {:induction false} BindAllRemembers(c: Client, proxies: seq<nat>)
    ensures Remembers(c, BindAll(c, proxies))
    decreases |proxies|
  {
    if proxies != [] {
      BindAllRemembers(Bind(c, proxies[0]), proxies[1..]);
    }
  }

  lemma {:induction false} ClientRemembers(l: Link, step: Step)
    requires IsClientStep(step)
    requires step.Call? || step.DestroyProxy? ==> step.proxy in l.client.proxies
    requires step.ClientReceives? ==> l.toClient != []
    requires step.ProxyNoticed? ==> l.client.notices != []
    ensures Remembers(l.client, ClientAfter(l, step))
  {
    hide Bind, BindAll, Invoke, OnFrameReceived, Noticed, Destroyed, Disconnected, Remembers;
    var c, c' := l.client, ClientAfter(l, step);
    match step
    case BindProxy(_, proxy) => BindRemembers(c, proxy);
    case ClientConnects(_) =>
      BindAllRemembers(c.(connected := true), c.queuedBindings);
      SameRemembers(c, c', BindAll(c.(connected := true), c.queuedBindings));
    case Call(_, proxy, methodName, args, callback) => InvokeRemembers(c, proxy, methodName, args, callback);
    case ClientReceives(_) => ReceivedQueue(c, l.toClient[0]); ItselfRemembers(c, c');
    case ClientDisconnects(_) => DisconnectedQueue(c); ItselfRemembers(c, c');
    case ProxyNoticed(_) => NoticedQueue(c); ItselfRemembers(c, c');
    case DestroyProxy(_, proxy) => DestroyedQueue(c, proxy); ItselfRemembers(c, c');
    case _ => ItselfRemembers(c, c');
  }

  lemma {:induction false} ItselfRemembers(c: Client, c': Client)
    requires c'.issued == c.issued
    ensures Remembers(c, c')
  {
  }

  lemma {:induction false} SameRemembers(c: Client, c': Client, c1: Client)
    requires Remembers(c.(connected := true), c1) && c'.issued == c1.issued
    ensures Remembers(c, c')
  {
  }

  lemma {:induction false} BindRemembers(c: Client, proxy: nat)
    ensures Remembers(c, Bind(c, proxy))
  {
  }

  lemma {:induction false} InvokeRemembers(c: Client, proxy: nat, methodName: string, args: nat, callback: Option<nat>)
    requires proxy in c.proxies
    ensures Remembers(c, Invoke(c, proxy, methodName, args, callback))
  {
  }

  lemma {:induction false} ClientAnswered(l: Link, l': Link, id: nat, reply: Frame)
    requires Answered(l, id, reply) && Appends(l.client, l'.client) && Remembers(l.client, l'.client)
    requires l'.toClient == l.toClient || (l.toClient != [] && l'.toClient == l.toClient[1..])
    ensures Answered(l', id, reply)
  {
    forall j | 0 <= j < |l'.client.toHost|
      ensures id < l'.client.toHost[j].id
    {
      assert j < |l.client.toHost| ==> l'.client.toHost[j] == l.client.toHost[j];
    }
  }

  lemma {:induction false} SentAnswered(l: Link, f: Frame, id: nat, reply: Frame)
    requires Answered(l, id, reply) && f.id != id
    ensures Answered(SentAfter(l, f), id, reply)
  {
  }

  lemma {:induction false} HandledAnswered(h: Host, sock: nat, l: Link, parses: bool, id: nat, reply: Frame)
    requires LinkOk(h.services, l) && l.client.toHost != [] && sock in h.clientsBySocket && Answered(l, id, reply)
    ensures Answered(Handled(l, OnReceivedFrame(h, sock, l.client.toHost[0], parses)), id, reply)
  {
    hide LinkOk, OnReceivedFrame, Handled, Binds, Answered;
    FirstIsRequest(h.services, l);
    ReplyKind(h, sock, l.client.toHost[0], parses);
    OutcomeAnswered(l, OnReceivedFrame(h, sock, l.client.toHost[0], parses), id, reply);
  }

  lemma {:induction false} OutcomeAnswered(l: Link, out: Outcome, id: nat, reply: Frame)
    requires l.client.toHost != [] && Answered(l, id, reply)
    requires out.reply.Some? ==> out.reply.value.id == l.client.toHost[0].id
    ensures Answered(Handled(l, out), id, reply)
  {
    hide Handled, SentAfter, Taken;
    HandledIs(l, out);
    if out.reply.Some? {
      SentAnswered(Taken(l, out.dispatch), out.reply.value, id, reply);
    }
  }

  lemma {:induction false} FirstIsRequest(services: map<nat, Service>, l: Link)
    requires LinkOk(services, l) && l.client.toHost != []
    ensures AskedFor(services, l.client.issued, l.client.toHost[0])
  {
  }

  lemma {:induction false} StepAnswered(s: System, step: Step, sock: nat, id: nat, reply: Frame)
    requires Enabled(s, step) && Inv(s) && sock in s.links && Answered(s.links[sock], id, reply)
    ensures sock in Apply(s, step).links && Answered(Apply(s, step).links[sock], id, reply)
  {
    hide LinkOk, LinksOk, Answered, OnReceivedFrame, Handled, SentAfter, ClientAfter, ExposeService,
         OnNewIncomingConnection, HostDisconnected, PairedOk, AcceptedOk, Appends, Remembers;
    match step
    case Expose(_) =>
    case HostDisconnects(_) =>
    case HostAccepts(_) => AcceptedAnswered(s.links[sock], id, reply);
    case StartClient(_) =>
    case HostReceives(at, parses) =>
      if at == sock {
        TheLink(s, sock);
        HandledAnswered(s.host, sock, s.links[sock], parses, id, reply);
      }
    case Resolve(k, result) =>
      var o := s.host.held[k];
      assert OwedOk(s.host.clients, s.host.lastClient, s.links, o);
      if o.sock == sock {
        TheLink(s, sock);
        WasAsked(s.host.services, s.links[sock], o.request);
        AnsweredIsBind(s.links[sock], id, reply);
        SentAnswered(s.links[sock], InvokeMethodReply(o.request, result), id, reply);
      }
    case _ =>
      if step.sock == sock {
        ClientStepAnswered(s, step, id, reply);
      }
  }

  lemma {:induction false} AcceptedAnswered(l: Link, id: nat, reply: Frame)
    requires Answered(l, id, reply)
    ensures Answered(l.(accepted := true), id, reply)
  {
  }

  lemma {:induction false} AnsweredIsBind(l: Link, id: nat, reply: Frame)
    requires Answered(l, id, reply)
    ensures id in l.client.issued && l.client.issued[id].BindRequest?
  {
  }

  lemma {:induction false} ClientStepAnswered(s: System, step: Step, id: nat, reply: Frame)
    requires Enabled(s, step) && IsClientStep(step) && Answered(s.links[step.sock], id, reply)
    ensures step.sock in Apply(s, step).links && Answered(Apply(s, step).links[step.sock], id, reply)
  {
    hide Answered, ClientAfter, Appends, Remembers;
    var l, l' := s.links[step.sock], Apply(s, step).links[step.sock];
    ClientAppends(l, step);
    ClientRemembers(l, step);
    ClientAnswered(l, l', id, reply);
  }

  lemma {:induction false} StaysAnswered(states: seq<System>, steps: seq<Step>, i: nat, j: nat, sock: nat, id: nat,
                                         reply: Frame)
    requires IsRun(states, steps) && i <= j < |states| && sock in states[i].links
             && Answered(states[i].links[sock], id, reply)
    ensures sock in states[j].links && Answered(states[j].links[sock], id, reply)
    decreases j
  {
    hide Apply, Enabled, Inv, Answered;
    if i < j {
      StaysAnswered(states, steps, i, j - 1, sock, id, reply);
      RunInv(states, steps, j - 1);
      StepAnswered(states[j - 1], steps[j - 1], sock, id, reply);
    }
  }

  // ---- Who holds a service --------------------------------------------------------------------------------

  /** A proxy that a service is bound to, and that is alive, is bound to that service. */
  predicate HoldersOk(c: Client) {
    && 0 !in c.bindings
    && forall s :: s in c.bindings ==>
         && c.bindings[s] < c.madeProxies
         && (c.bindings[s] in c.proxies ==> c.proxies[c.bindings[s]].serviceId == s)
  }

  /** The same bindings, and no proxy is new or bound to another service. */
  predicate SameBound(c: Client, c': Client) {
    && c'.bindings == c.bindings && c'.madeProxies == c.madeProxies
    && forall p :: p in c'.proxies ==> p in c.proxies && c'.proxies[p].serviceId == c.proxies[p].serviceId
  }

  lemma {:induction false} SameHolders(c: Client, c': Client)
    requires HoldersOk(c) && SameBound(c, c')
    ensures HoldersOk(c')
  {
  }

  lemma {:induction false} BindAllBound(c: Client, proxies: seq<nat>)
    ensures SameBound(c, BindAll(c, proxies))
    decreases |proxies|
  {
    if proxies != [] {
      BindAllBound(Bind(c, proxies[0]), proxies[1..]);
    }
  }

  lemma {:induction false} InvokeBound(c: Client, proxy: nat, methodName: string, args: nat, callback: Option<nat>)
    requires proxy in c.proxies
    ensures SameBound(c, Invoke(c, proxy, methodName, args, callback))
  {
    var p := c.proxies[proxy];
    if p.serviceId == 0 || methodName !in p.methods {
    } else if !c.connected || callback.None? {
    } else {
    }
  }

  lemma {:induction false} NoticedBound(c: Client)
    requires c.notices != []
    ensures SameBound(c, Noticed(c))
  {
    hide RejectedAll;
  }

  lemma {:induction false} DestroyedHolders(c: Client, proxy: nat)
    requires HoldersOk(c) && proxy in c.proxies
    ensures HoldersOk(Destroyed(c, proxy))
  {
    hide RejectedAll;
  }

  lemma {:induction false} OtherReplyBound(c: Client, f: Frame)
    requires !AwaitsBinding(c, f)
    ensures SameBound(c, OnFrameReceived(c, f))
  {
    hide OnInvokeMethodReply, OnBindServiceReply;
    if f.id in c.queued && c.queued[f.id].QueuedInvoke? && f.InvokeMethodReply? {
      ResultBound(c.(queued := c.queued - {f.id}), c.queued[f.id], f);
    }
  }

  lemma {:induction false} ResultBound(c: Client, q: Queued, f: Frame)
    requires q.QueuedInvoke? && f.InvokeMethodReply?
    ensures SameBound(c, OnInvokeMethodReply(c, q, f))
  {
    hide EndInvoke;
    if q.proxy in c.proxies {
      EndInvokeBound(c, q.proxy, f.id, f.result);
    }
  }

  lemma {:induction false} EndInvokeBound(c: Client, proxy: nat, id: nat, result: Result)
    requires proxy in c.proxies
    ensures SameBound(c, EndInvoke(c, proxy, id, result))
  {
  }

  /** The services of one name are one, so a proxy is bound once. */
  lemma {:induction false} BoundHolders(services: map<nat, Service>, c: Client, f: Frame)
    requires HoldersOk(c) && TablesOk(services, c) && OneOfEach(services) && 0 !in services
    requires Answers(services, c.issued, f) && AwaitsBinding(c, f)
    ensures HoldersOk(OnFrameReceived(c, f))
  {
    hide OnFrameReceived, Reads, MethodTable;
    BindIsTaken(c, f);
    var c', p := OnFrameReceived(c, f), c.queued[f.id].proxy;
    assert Fits(c.queued[f.id], c.issued[f.id], c.proxies);
    if p in c.proxies && f.success && Free(c, f.serviceId) {
      assert BoundOk(services, c.proxies[p]);
    }
  }

  lemma {:induction false} ReceivedHolders(h: Host, l: Link)
    requires HoldersOk(l.client) && LinkOk(h.services, l) && PairedOk(h) && l.toClient != []
    ensures HoldersOk(OnFrameReceived(l.client, l.toClient[0]))
  {
    hide OnFrameReceived, CallbacksOk, GivenOk, KeysOk, AllGotOk, HoldersOk, OneOfEach, QueuedOk, ProxiesOk;
    var c, f := l.client, l.toClient[0];
    assert Answers(h.services, c.issued, f);
    if AwaitsBinding(c, f) {
      BoundHolders(h.services, c, f);
    } else {
      OtherReplyBound(c, f);
      SameHolders(c, OnFrameReceived(c, f));
    }
  }

  lemma {:induction false} NewProxyHolders(services: map<nat, Service>, c: Client, service: string)
    requires HoldersOk(c) && TablesOk(services, c)
    ensures HoldersOk(NewProxy(c, service))
  {
  }

  lemma {:induction false} ClientHolders(h: Host, sock: nat, l: Link, step: Step)
    requires LinkOk(h.services, l) && PairedOk(h) && HoldersOk(l.client) && LinkEnabled(h, sock, l, step)
    requires IsClientStep(step)
    ensures HoldersOk(ClientAfter(l, step))
  {
    hide LinkOk, HoldersOk, PairedOk, Bind, BindAll, Invoke, OnFrameReceived, Noticed, Destroyed, SameBound;
    var c, c' := l.client, ClientAfter(l, step);
    match step
    case MakeProxy(_, service) => LinkTables(h.services, l); NewProxyHolders(h.services, c, service);
    case BindProxy(_, proxy) => BindAllBound(c, [proxy]); OneBind(c, proxy); SameHolders(c, c');
    case ClientConnects(_) => ConnectedBound(c); SameHolders(c, c');
    case Call(_, proxy, methodName, args, callback) =>
      InvokeBound(c, proxy, methodName, args, callback);
      SameHolders(c, c');
    case ClientReceives(_) => ReceivedHolders(h, l);
    case ClientDisconnects(_) => DisconnectedHolders(c);
    case ProxyNoticed(_) => NoticedBound(c); SameHolders(c, c');
    case DestroyProxy(_, proxy) => DestroyedHolders(c, proxy);
    case _ => ItselfBound(c, c'); SameHolders(c, c');
  }

  lemma {:induction false} ItselfBound(c: Client, c': Client)
    requires c'.bindings == c.bindings && c'.madeProxies == c.madeProxies && c'.proxies == c.proxies
    ensures SameBound(c, c')
  {
  }

  lemma {:induction false} OneBind(c: Client, proxy: nat)
    ensures BindAll(c, [proxy]) == Bind(c, proxy)
  {
    assert [proxy][1..] == [];
    assert BindAll(Bind(c, proxy), []) == Bind(c, proxy);
  }

  lemma {:induction false} ConnectedBound(c: Client)
    ensures SameBound(c, Connected(c))
  {
    hide BindAll;
    BindAllBound(c.(connected := true), c.queuedBindings);
  }

  lemma {:induction false} DisconnectedHolders(c: Client)
    requires HoldersOk(c)
    ensures HoldersOk(Disconnected(c))
  {
  }

  lemma {:induction false} LinkTables(services: map<nat, Service>, l: Link)
    requires LinkOk(services, l)
    ensures TablesOk(services, l.client)
  {
  }

  predicate AllHoldersOk(s: System) {
    forall sock :: sock in s.links ==> HoldersOk(s.links[sock].client)
  }

  lemma {:induction false} StepHolders(s: System, step: Step)
    requires Enabled(s, step) && Inv(s) && AllHoldersOk(s)
    ensures AllHoldersOk(Apply(s, step))
  {
    hide LinkOk, HoldersOk, ClientAfter, Apply, LinkEnabled, PairedOk, HeldOk, AcceptedOk;
    forall sock | sock in Apply(s, step).links
      ensures HoldersOk(Apply(s, step).links[sock].client)
    {
      if IsClientStep(step) {
        ClientStepHolders(s, step, sock);
      } else if sock in s.links {
        OthersSame(s, step, sock);
        SameChannelHolders(s.links[sock], Apply(s, step).links[sock]);
      } else {
        OnlyStarted(s, step, sock);
        NewHolders();
      }
    }
  }

  lemma {:induction false} ClientStepHolders(s: System, step: Step, sock: nat)
    requires Enabled(s, step) && Inv(s) && AllHoldersOk(s) && IsClientStep(step) && sock in Apply(s, step).links
    ensures HoldersOk(Apply(s, step).links[sock].client)
  {
    hide LinkOk, HoldersOk, ClientAfter, HeldOk, AcceptedOk, PairedOk;
    TheLink(s, step.sock);
    ClientHolders(s.host, step.sock, s.links[step.sock], step);
  }

  lemma {:induction false} SameChannelHolders(l: Link, l': Link)
    requires HoldersOk(l.client) && SameButChannel(l, l')
    ensures HoldersOk(l'.client)
  {
    ItselfBound(l.client, l'.client);
    SameHolders(l.client, l'.client);
  }

  lemma {:induction false} NewHolders()
    ensures HoldersOk(NEW_CLIENT)
  {
  }

  lemma {:induction false} RunHolders(states: seq<System>, steps: seq<Step>, k: nat)
    requires IsRun(states, steps) && k < |states|
    ensures AllHoldersOk(states[k])
    decreases k
  {
    hide Apply, Enabled, Inv, HoldersOk;
    if k > 0 {
      RunHolders(states, steps, k - 1);
      RunInv(states, steps, k - 1);
      StepHolders(states[k - 1], steps[k - 1]);
    }
  }

  // ---- What it comes to -----------------------------------------------------------------------------------

  /** The host takes a request to bind to a service that it exposes. */
  predicate HandlesRequest(s: System, step: Step, sock: nat, id: nat, serviceId: nat) {
    && step.HostReceives? && step.sock == sock && sock in s.links && s.links[sock].client.toHost != []
    && var f := s.links[sock].client.toHost[0];
       && f.BindService? && f.id == id && serviceId in s.host.services && s.host.services[serviceId].name == f.service
  }

  /** The client takes the reply. */
  predicate HandlesReply(s: System, step: Step, sock: nat, id: nat) {
    && step == ClientReceives(sock) && sock in s.links
    && s.links[sock].toClient != [] && s.links[sock].toClient[0].id == id
  }

  /** The reply tells of the service. */
  predicate TellsOf(reply: Frame, serviceId: nat, methods: seq<string>) {
    reply.BindServiceReply? && reply.success && reply.serviceId == serviceId && Lists(reply.methods, methods)
  }

  lemma {:induction false} RequestAnswered(s: System, step: Step, sock: nat, id: nat, serviceId: nat)
    returns (reply: Frame)
    requires Enabled(s, step) && Inv(s) && AllBindingOk(s) && HandlesRequest(s, step, sock, id, serviceId)
    ensures var s' := Apply(s, step);
            sock in s'.links && s'.links[sock].toClient == s.links[sock].toClient + [reply]
              && Answered(s'.links[sock], id, reply)
    ensures reply.id == id && TellsOf(reply, serviceId, s.host.services[serviceId].methods)
  {
    hide LinkOk, LinksOk, HeldOk, AcceptedOk, BindingOk, GetServiceByName, Answered;
    var l, f := s.links[sock], s.links[sock].client.toHost[0];
    reply := OnBindService(s.host.services, f.id, f.service);
    BindReplyTells(s.host.services, f.id, f.service);
    assert Offered(s.host.services, f.service);
    TheLink(s, sock);
    OldestRequest(s.host.services, l);
    FirstIsRequest(s.host.services, l);
    ReplyIdsOf(s.host.services, l);
    NowAnswered(l, l.(client := l.client.(toHost := l.client.toHost[1..])), reply);
  }

  lemma {:induction false} ReplyIdsOf(services: map<nat, Service>, l: Link)
    requires LinkOk(services, l)
    ensures forall j :: 0 <= j < |l.client.toHost| ==> l.client.toHost[j].id <= l.client.lastRequest
  {
  }

  lemma {:induction false} NowAnswered(l: Link, taken: Link, reply: Frame)
    requires taken.toClient == l.toClient && taken.client.issued == l.client.issued
             && taken.client.lastRequest == l.client.lastRequest
    requires forall i :: 0 <= i < |l.toClient| ==> l.toClient[i].id != reply.id
    requires forall j :: 0 <= j < |taken.client.toHost| ==> reply.id < taken.client.toHost[j].id
    requires reply.id <= l.client.lastRequest && reply.id in l.client.issued && l.client.issued[reply.id].BindRequest?
    ensures Answered(SentAfter(taken, reply), reply.id, reply)
  {
  }

  /** The client knows every method of the service that has a name, and knows each by a number of its own. */
  ghost predicate KnowsAll(methods: seq<string>, known: map<string, nat>) {
    && (forall i :: 0 <= i < |methods| && methods[i] != [] ==> methods[i] in known)
    && forall name :: name in known ==> Numbered(methods, name, known[name])
  }

  lemma {:induction false} ReadsAll(infos: seq<MethodInfo>, methods: seq<string>, known: map<string, nat>)
    requires Lists(infos, methods) && Reads(infos, known)
    ensures KnowsAll(methods, known)
  {
    forall i | 0 <= i < |methods| && methods[i] != []
      ensures methods[i] in known
    {
      assert Names(infos, i, methods[i]);
    }
    forall name | name in known
      ensures Numbered(methods, name, known[name])
    {
      var i: nat :| i < |infos| && LastNamed(infos, i, name) && known[name] == infos[i].id;
    }
  }

  /** A service is free exactly if no proxy that is alive is bound to it. */
  lemma {:induction false} FreeIff(c: Client, serviceId: nat)
    requires HoldersOk(c) && Told(c) && !c.ended && serviceId != 0
    ensures Free(c, serviceId) <==> forall q :: q in c.proxies ==> c.proxies[q].serviceId != serviceId
  {
    forall q | q in c.proxies && c.proxies[q].serviceId == serviceId
      ensures !Free(c, serviceId)
    {
      assert BoundHere(c.bindings, c.proxies, q);
    }
  }

  lemma {:induction false} ReplyBinds(services: map<nat, Service>, l: Link, serviceId: nat, methods: seq<string>)
    requires LinkOk(services, l) && BindingOk(l) && HoldersOk(l.client) && Told(l.client) && !l.client.ended
    requires l.toClient != [] && TellsOf(l.toClient[0], serviceId, methods) && serviceId != 0
    ensures var c, c', f := l.client, OnFrameReceived(l.client, l.toClient[0]), l.toClient[0];
            && f.id in c.issued && c.issued[f.id].BindRequest?
            && var p := c.issued[f.id].proxy;
               p in c.proxies && (forall q :: q in c.proxies ==> c.proxies[q].serviceId != serviceId) ==>
                 p in c'.proxies && c'.proxies[p].serviceId == serviceId && KnowsAll(methods, c'.proxies[p].methods)
  {
    hide OnFrameReceived, CallbacksOk, GivenOk, KeysOk, AllGotOk, HoldersOk, Told, ProxiesOk, Reads, KnowsAll, ToHostOk,
         DispatchedOk;
    var c, f := l.client, l.toClient[0];
    assert Answers(services, c.issued, f);
    assert WaitsToBind(c.queued, f.id);
    assert Fits(c.queued[f.id], c.issued[f.id], c.proxies);
    FreeIff(c, serviceId);
    BindIsTaken(c, f);
    if c.issued[f.id].proxy in c.proxies && Free(c, serviceId) {
      ReadsAll(f.methods, methods, OnFrameReceived(c, f).proxies[c.issued[f.id].proxy].methods);
    }
  }

  /** In every run: a host that takes a request to bind to a service it exposes agrees, and once the client takes the
      reply, the proxy that asked, if it is alive and no proxy that is alive is bound to the service, is bound to it
      and knows its methods. */
  lemma {:induction false} BindingCompletes(states: seq<System>, steps: seq<Step>, i: nat, j: nat, sock: nat, id: nat,
                                            serviceId: nat)
    requires IsRun(states, steps) && i < j < |steps|
    requires HandlesRequest(states[i], steps[i], sock, id, serviceId) && HandlesReply(states[j], steps[j], sock, id)
    ensures sock in states[j + 1].links && id in states[j].links[sock].client.issued
    ensures var c, c' := states[j].links[sock].client, states[j + 1].links[sock].client;
            && c.issued[id].BindRequest?
            && var p := c.issued[id].proxy;
               p in c.proxies && (forall q :: q in c.proxies ==> c.proxies[q].serviceId != serviceId) ==>
                 && p in c'.proxies && c'.proxies[p].serviceId == serviceId
                 && KnowsAll(states[i].host.services[serviceId].methods, c'.proxies[p].methods)
  {
    hide Inv, LinkOk, BindingOk, HoldersOk, Told, Answered, KnowsAll, Apply, Enabled;
    RunInv(states, steps, i);
    RunBinding(states, steps, i);
    var reply := RequestAnswered(states[i], steps[i], sock, id, serviceId);
    assert states[i + 1] == Apply(states[i], steps[i]);
    StaysAnswered(states, steps, i + 1, j, sock, id, reply);
    RunInv(states, steps, j);
    RunBinding(states, steps, j);
    RunHolders(states, steps, j);
    RunTold(states, steps, j);
    IsReply(states[j].links[sock], id, reply);
    Numbers(states[i], serviceId);
    assert states[j + 1] == Apply(states[j], steps[j]);
    InvLinks(states[j]);
    TheLink(states[j], sock);
    ReplyStep(states[j], sock);
    ReplyBinds(states[j].host.services, states[j].links[sock], serviceId, states[i].host.services[serviceId].methods);
  }

  lemma {:induction false} IsReply(l: Link, id: nat, reply: Frame)
    requires Answered(l, id, reply) && l.toClient != [] && l.toClient[0].id == id
    ensures l.toClient[0] == reply
  {
  }

  lemma {:induction false} Numbers(s: System, serviceId: nat)
    requires Inv(s) && serviceId in s.host.services
    ensures serviceId != 0
  {
    hide LinksOk, HeldOk, AcceptedOk;
  }

  lemma {:induction false} ReplyStep(s: System, sock: nat)
    requires Enabled(s, ClientReceives(sock))
    ensures var s' := Apply(s, ClientReceives(sock)); var l := s.links[sock];
            sock in s'.links && !l.client.ended && l.toClient != []
              && s'.links[sock].client == OnFrameReceived(l.client, l.toClient[0])
  {
    hide OnFrameReceived;
  }
}
