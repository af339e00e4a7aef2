/** Whole runs of a host and its clients. */
module RpcSystem {
  import opened Options
  import opened Rpc
  import opened RpcCallbacks
  import opened RpcEffects
  import opened RpcLinks
  import opened RpcReplies
  import opened RpcSafety

  // ---- The invariant --------------------------------------------------------------------------------------

  /** The two tables of clients are each other's inverse, numbers only go up, and there is one service of a name. */
  predicate PairedOk(h: Host) {
    && (forall id :: id in h.clients ==>
         id <= h.lastClient && h.clients[id] in h.clientsBySocket && h.clientsBySocket[h.clients[id]] == id)
    && (forall sock :: sock in h.clientsBySocket ==>
         h.clientsBySocket[sock] in h.clients && h.clients[h.clientsBySocket[sock]] == sock)
    && (forall id :: id in h.services ==> 0 < id <= h.lastService) && OneOfEach(h.services)
  }

  /** A reply that is owed goes to where the call came from, or nowhere. */
  predicate OwedOk(clients: map<nat, nat>, lastClient: nat, links: map<nat, Link>, o: Held) {
    && o.client <= lastClient && (o.client in clients ==> clients[o.client] == o.sock)
    && o.sock in links && o.request in links[o.sock].dispatched
  }

  predicate HeldOk(h: Host, links: map<nat, Link>) {
    && (forall k :: k in h.held ==> k < h.nextHeld && OwedOk(h.clients, h.lastClient, links, h.held[k]))
    && (forall j, k :: j in h.held && k in h.held ==>
         h.held[j].sock == h.held[k].sock && h.held[j].request == h.held[k].request ==> j == k)
  }

  predicate AcceptedOk(h: Host, links: map<nat, Link>) {
    forall sock :: sock in h.clientsBySocket ==> sock in links && links[sock].accepted
  }

  ghost predicate LinksOk(services: map<nat, Service>, links: map<nat, Link>) {
    forall sock :: sock in links ==> LinkOk(services, links[sock])
  }

  ghost predicate Inv(s: System) {
    PairedOk(s.host) && HeldOk(s.host, s.links) && AcceptedOk(s.host, s.links) && LinksOk(s.host.services, s.links)
  }

  // ---- Steps ----------------------------------------------------------------------------------------------

  /** One link changes, and nothing that the host relies on. */
  lemma {:induction false} OneLink(h: Host, links: map<nat, Link>, sock: nat, l': Link)
    requires HeldOk(h, links) && AcceptedOk(h, links) && LinksOk(h.services, links) && sock in links
    requires LinkOk(h.services, l') && (links[sock].accepted ==> l'.accepted)
             && l'.dispatched.Keys >= links[sock].dispatched.Keys
    ensures HeldOk(h, links[sock := l']) && AcceptedOk(h, links[sock := l']) && LinksOk(h.services, links[sock := l'])
  {
    hide LinkOk;
    forall k | k in h.held
      ensures OwedOk(h.clients, h.lastClient, links[sock := l'], h.held[k])
    {
      assert OwedOk(h.clients, h.lastClient, links, h.held[k]);
    }
  }

  lemma {:induction false} ClientInv(s: System, step: Step)
    requires Enabled(s, step) && Inv(s) && IsClientStep(step)
    ensures Inv(Apply(s, step))
  {
    hide LinkOk, ClientAfter, PairedOk;
    var l := s.links[step.sock];
    ClientLink(s.host, step.sock, l, step);
    var tries := step.ClientConnects? || step.ConnectFails?;
    var l1 := l.(client := ClientAfter(l, step), tried := l.tried || tries);
    var l' := if step.ClientReceives? then l1.(toClient := l.toClient[1..]) else l1;
    OneLink(s.host, s.links, step.sock, l');
  }

  lemma {:induction false} ExposeInv(s: System, service: Service)
    requires Inv(s)
    ensures Inv(s.(host := ExposeService(s.host, service)))
  {
    hide LinkOk, GetServiceByName, Exposes, Offered, OneOfEach;
    var h' := ExposeService(s.host, service);
    ServiceExposed(s.host, service);
    forall k | k in h'.held
      ensures OwedOk(h'.clients, h'.lastClient, s.links, h'.held[k])
    {
      assert OwedOk(s.host.clients, s.host.lastClient, s.links, s.host.held[k]);
    }
    forall sock | sock in s.links
      ensures LinkOk(h'.services, s.links[sock])
    {
      GrownLink(s.host.services, h'.services, s.links[sock]);
    }
  }

  lemma {:induction false} AcceptInv(s: System, sock: nat)
    requires Enabled(s, HostAccepts(sock)) && Inv(s)
    ensures Inv(Apply(s, HostAccepts(sock)))
  {
    hide LinkOk, LinksOk, PairedOk, HeldOk, AcceptedOk, OnNewIncomingConnection;
    var l := s.links[sock];
    TheLink(s, sock);
    AcceptedLink(s.host.services, l);
    OneLink(s.host, s.links, sock, l.(accepted := true));
    NotPaired(s.host, s.links, sock);
    AcceptHost(s.host, s.links[sock := l.(accepted := true)], sock);
  }

  lemma {:induction false} NotPaired(h: Host, links: map<nat, Link>, sock: nat)
    requires AcceptedOk(h, links) && sock in links && !links[sock].accepted
    ensures sock !in h.clientsBySocket
  {
  }

  lemma {:induction false} AcceptHost(h: Host, links: map<nat, Link>, sock: nat)
    requires PairedOk(h) && HeldOk(h, links) && AcceptedOk(h, links) && sock !in h.clientsBySocket
    requires sock in links && links[sock].accepted
    ensures var h' := OnNewIncomingConnection(h, sock);
            PairedOk(h') && HeldOk(h', links) && AcceptedOk(h', links) && h'.services == h.services
  {
    var h' := OnNewIncomingConnection(h, sock);
    forall k | k in h'.held
      ensures OwedOk(h'.clients, h'.lastClient, links, h'.held[k])
    {
      assert OwedOk(h.clients, h.lastClient, links, h.held[k]);
    }
  }

  lemma {:induction false} AcceptedLink(services: map<nat, Service>, l: Link)
    requires LinkOk(services, l)
    ensures LinkOk(services, l.(accepted := true))
  {
  }

  lemma {:induction false} HostDisconnectsInv(s: System, sock: nat)
    requires Inv(s)
    ensures Inv(s.(host := HostDisconnected(s.host, sock)))
  {
    hide LinkOk;
    var h' := HostDisconnected(s.host, sock);
    forall k | k in h'.held
      ensures OwedOk(h'.clients, h'.lastClient, s.links, h'.held[k])
    {
      assert OwedOk(s.host.clients, s.host.lastClient, s.links, s.host.held[k]);
    }
  }

  lemma {:induction false} StartInv(s: System, sock: nat)
    requires Inv(s) && sock !in s.links
    ensures Inv(Apply(s, StartClient(sock)))
  {
    hide LinkOk;
    var l := Link(NEW_CLIENT, [], false, false, map[], map[]);
    NewLink(s.host.services);
    forall k | k in s.host.held
      ensures OwedOk(s.host.clients, s.host.lastClient, s.links[sock := l], s.host.held[k])
    {
      assert OwedOk(s.host.clients, s.host.lastClient, s.links, s.host.held[k]);
    }
  }

  lemma {:induction false} NewLink(services: map<nat, Service>)
    ensures LinkOk(services, Link(NEW_CLIENT, [], false, false, map[], map[]))
  {
  }

  lemma {:induction false} ReceivesInv(s: System, sock: nat, parses: bool)
    requires Enabled(s, HostReceives(sock, parses)) && Inv(s)
    ensures Inv(Apply(s, HostReceives(sock, parses)))
  {
    hide LinkOk, LinksOk, AcceptedOk, PairedOk, HeldOk, OnReceivedFrame, Handled;
    var h, l := s.host, s.links[sock];
    var out := OnReceivedFrame(h, sock, l.client.toHost[0], parses);
    TheLink(s, sock);
    HandledLink(h, sock, l, parses);
    HandledKeeps(h, sock, l, parses);
    var l' := Handled(l, out);
    OneLink(h, s.links, sock, l');
    NotRunYet(h.services, l);
    ReceivesHeld(s, sock, parses);
    SameHost(h, out.host.(nextHeld := h.nextHeld), s.links[sock := l']);
    NextHeld(out.host, out.host.(nextHeld := h.nextHeld), s.links[sock := l']);
  }

  lemma {:induction false} NextHeld(h: Host, h0: Host, links: map<nat, Link>)
    requires PairedOk(h0) && AcceptedOk(h0, links) && h == h0.(nextHeld := h.nextHeld)
    ensures PairedOk(h) && AcceptedOk(h, links)
  {
  }

  lemma {:induction false} HandledKeeps(h: Host, sock: nat, l: Link, parses: bool)
    requires l.client.toHost != [] && sock in h.clientsBySocket
    ensures var out := OnReceivedFrame(h, sock, l.client.toHost[0], parses);
            && Handled(l, out).accepted == l.accepted && Handled(l, out).dispatched.Keys >= l.dispatched.Keys
            && out.host == h.(held := out.host.held, nextHeld := out.host.nextHeld)
  {
    hide OnReceivedFrame, Handled;
    var out := OnReceivedFrame(h, sock, l.client.toHost[0], parses);
    OnlyHeld(h, sock, l.client.toHost[0], parses);
    StillAccepted(l, out);
  }

  lemma {:induction false} OnlyHeld(h: Host, sock: nat, frame: Frame, parses: bool)
    requires sock in h.clientsBySocket
    ensures var h' := OnReceivedFrame(h, sock, frame, parses).host;
            h' == h.(held := h'.held, nextHeld := h'.nextHeld)
  {
    hide Rpc.OnBindService, Target;
  }

  lemma {:induction false} StillAccepted(l: Link, out: Outcome)
    requires l.client.toHost != []
    ensures Handled(l, out).accepted == l.accepted && Handled(l, out).dispatched.Keys >= l.dispatched.Keys
  {
  }

  lemma {:induction false} ReceivesHeld(s: System, sock: nat, parses: bool)
    requires Enabled(s, HostReceives(sock, parses)) && HeldOk(s.host, s.links) && PairedOk(s.host)
    requires s.links[sock].client.toHost[0].id !in s.links[sock].dispatched
    ensures var out := OnReceivedFrame(s.host, sock, s.links[sock].client.toHost[0], parses);
            HeldOk(out.host, s.links[sock := Handled(s.links[sock], out)])
  {
    hide OnBindService, Target;
    var h, l := s.host, s.links[sock];
    var out := OnReceivedFrame(h, sock, l.client.toHost[0], parses);
    var h', links' := out.host, s.links[sock := Handled(l, out)];
    HandledKeeps(h, sock, l, parses);
    forall k | k in h'.held
      ensures k < h'.nextHeld && OwedOk(h'.clients, h'.lastClient, links', h'.held[k])
    {
      if k in h.held {
        assert OwedOk(h.clients, h.lastClient, s.links, h.held[k]);
      }
    }
    forall j, k | j in h'.held && k in h'.held && h'.held[j].sock == h'.held[k].sock
        && h'.held[j].request == h'.held[k].request
      ensures j == k
    {
      assert j in h.held ==> OwedOk(h.clients, h.lastClient, s.links, h.held[j]);
      assert k in h.held ==> OwedOk(h.clients, h.lastClient, s.links, h.held[k]);
    }
  }

  lemma {:induction false} NotRunYet(services: map<nat, Service>, l: Link)
    requires LinkOk(services, l) && l.client.toHost != []
    ensures l.client.toHost[0].id !in l.dispatched
  {
  }

  lemma {:induction false} ResolveInv(s: System, k: nat, result: Result)
    requires Enabled(s, Resolve(k, result)) && Inv(s)
    ensures Inv(Apply(s, Resolve(k, result)))
  {
    hide LinkOk, LinksOk, AcceptedOk, PairedOk, SentAfter;
    var h, owed := s.host, s.host.held[k];
    var h' := Resolved(h, k, result);
    assert OwedOk(h.clients, h.lastClient, s.links, owed);
    if ReplyTo(h, k).Some? {
      var l, f := s.links[owed.sock], InvokeMethodReply(owed.request, result);
      TheLink(s, owed.sock);
      WasAsked(h.services, l, owed.request);
      SentLink(h.services, l, f);
      SentKeeps(l, f);
      OneLink(h, s.links, owed.sock, SentAfter(l, f));
      SameHost(h, h', s.links[owed.sock := SentAfter(l, f)]);
    } else {
      SameHost(h, h', s.links);
    }
  }

  lemma {:induction false} TheLink(s: System, sock: nat)
    requires LinksOk(s.host.services, s.links) && sock in s.links
    ensures LinkOk(s.host.services, s.links[sock])
  {
  }

  lemma {:induction false} SentKeeps(l: Link, f: Frame)
    ensures SentAfter(l, f).accepted == l.accepted && SentAfter(l, f).dispatched == l.dispatched
  {
  }

  lemma {:induction false} SameHost(h: Host, h': Host, links: map<nat, Link>)
    requires PairedOk(h) && AcceptedOk(h, links) && h' == h.(held := h'.held)
    ensures PairedOk(h') && AcceptedOk(h', links)
  {
  }

  lemma {:induction false} WasAsked(services: map<nat, Service>, l: Link, id: nat)
    requires LinkOk(services, l) && id in l.dispatched
    ensures id in l.client.issued && l.client.issued[id].InvokeRequest?
  {
  }

  lemma {:induction false} StepInv(s: System, step: Step)
    requires Enabled(s, step) && Inv(s)
    ensures Inv(Apply(s, step))
  {
    hide Inv;
    match step
    case Expose(service) => ExposeInv(s, service);
    case StartClient(sock) => StartInv(s, sock);
    case HostAccepts(sock) => AcceptInv(s, sock);
    case HostDisconnects(sock) => HostDisconnectsInv(s, sock);
    case HostReceives(sock, parses) => ReceivesInv(s, sock, parses);
    case Resolve(k, result) => ResolveInv(s, k, result);
    case _ => ClientInv(s, step);
  }

  lemma {:induction false} RunInv(states: seq<System>, steps: seq<Step>, k: nat)
    requires IsRun(states, steps) && k < |states|
    ensures Inv(states[k])
    decreases k
  {
    hide Apply, Enabled;
    if k > 0 {
      RunInv(states, steps, k - 1);
      StepInv(states[k - 1], steps[k - 1]);
    }
  }

  // ---- What it means --------------------------------------------------------------------------------------

  /** A method that runs is the one that the call named, on the service that the proxy stands for, with the
      arguments given. */
  lemma {:induction false} CallsReachTheirMethods(states: seq<System>, steps: seq<Step>, k: nat, sock: nat, id: nat)
    requires IsRun(states, steps) && k < |states| && sock in states[k].links && id in states[k].links[sock].dispatched
    ensures var l := states[k].links[sock];
            && id in l.client.issued && l.client.issued[id].InvokeRequest?
            && var r := l.client.issued[id]; l.dispatched[id] == Dispatch(r.service, r.methodName, r.args)
  {
    RunInv(states, steps, k);
    assert LinkOk(states[k].host.services, states[k].links[sock]);
  }

  /** A result goes to the client whose call it answers, or is dropped. */
  lemma {:induction false} ResultsGoBack(states: seq<System>, steps: seq<Step>, k: nat, held: nat)
    requires IsRun(states, steps) && k < |states| && held in states[k].host.held
    ensures var o := states[k].host.held[held];
            && (ReplyTo(states[k].host, held).Some? ==> ReplyTo(states[k].host, held).value == o.sock)
            && o.sock in states[k].links && o.request in states[k].links[o.sock].dispatched
  {
    RunInv(states, steps, k);
    assert OwedOk(states[k].host.clients, states[k].host.lastClient, states[k].links, states[k].host.held[held]);
  }

  /** A callback is given the beginning of what was sent for its own request, in order, and perhaps a rejection
      at the end. While it waits and its client has not learnt that the connection is gone, the rest of what was
      sent is on its way. */
  lemma {:induction false} CallbacksGetTheirResults(states: seq<System>, steps: seq<Step>, k: nat, sock: nat, id: nat,
                                                    callback: nat)
    requires IsRun(states, steps) && k < |states| && sock in states[k].links
             && For(states[k].links[sock].client, id, callback)
    ensures var l := states[k].links[sock];
            && l.client.got[id] <= SentFor(l, id) && callback in l.client.results
            && (l.client.results[callback] == l.client.got[id]
                 || l.client.results[callback] == l.client.got[id] + [REJECTED])
            && (!l.client.ended && Waiting(l.client.proxies, callback) ==>
                  l.client.results[callback] + InFlight(l.toClient, id) == SentFor(l, id))
  {
    RunInv(states, steps, k);
    var l := states[k].links[sock];
    assert LinkOk(states[k].host.services, l);
    assert Given(l.client, id, callback) && GotOk(l, id);
    if Waiting(l.client.proxies, callback) {
      WaitingHasAll(l.client, id, callback);
    }
  }

  lemma {:induction false} WaitingHasAll(c: Client, id: nat, callback: nat)
    requires GivenOk(c) && For(c, id, callback) && Waiting(c.proxies, callback)
    ensures Pending(c.proxies, id) && callback in c.results && c.results[callback] == c.got[id]
  {
    var p: nat, i: nat :| Waits(c.proxies, callback, p, i);
    assert For(c, i, callback);
  }

  /** Until a client has learnt that its connection is gone, the callbacks that wait at a proxy are exactly those of
      its calls in the queue. */
  lemma {:induction false} WaitingIsQueued(states: seq<System>, steps: seq<Step>, k: nat, sock: nat, proxy: nat,
                                           id: nat)
    requires IsRun(states, steps) && k < |states| && sock in states[k].links
    requires !states[k].links[sock].client.ended && proxy in states[k].links[sock].client.proxies
    ensures var c := states[k].links[sock].client;
            id in c.proxies[proxy].pending <==> QueuedFor(c.queued, id, proxy)
  {
    RunInv(states, steps, k);
    assert LinkOk(states[k].host.services, states[k].links[sock]);
  }

  /** A callback that no longer waits has had exactly one last result, at the end; one that waits has had none. */
  lemma {:induction false} OneLastResult(states: seq<System>, steps: seq<Step>, k: nat, sock: nat, callback: nat)
    requires IsRun(states, steps) && k < |states| && sock in states[k].links
             && callback in states[k].links[sock].client.results
    ensures var c := states[k].links[sock].client;
            if Waiting(c.proxies, callback) then AllMore(c.results[callback]) else Complete(c.results[callback])
  {
    RunInv(states, steps, k);
    assert LinkOk(states[k].host.services, states[k].links[sock]);
  }

  /** What a callback was given is never taken back, and nothing follows the last result. */
  lemma {:induction false} ResultsGrow(states: seq<System>, steps: seq<Step>, i: nat, j: nat, sock: nat)
    requires IsRun(states, steps) && i <= j < |states| && sock in states[i].links
    ensures sock in states[j].links && Grows(states[i].links[sock].client.results, states[j].links[sock].client.results)
    decreases j
  {
    hide Apply, Complete;
    if i < j {
      ResultsGrow(states, steps, i, j - 1, sock);
      RunInv(states, steps, j - 1);
      StepGrows(states[j - 1], steps[j - 1], sock);
      GrowsOn(states[i].links[sock].client.results, states[j - 1].links[sock].client.results,
          states[j].links[sock].client.results);
    }
  }

  lemma {:induction false} CallbacksFine(services: map<nat, Service>, l: Link)
    requires LinkOk(services, l)
    ensures CallbacksOk(l.client)
  {
  }

  lemma {:induction false} GrowsOn(a: map<nat, seq<Result>>, b: map<nat, seq<Result>>, c: map<nat, seq<Result>>)
    requires Grows(a, b) && Grows(b, c)
    ensures Grows(a, c)
  {
  }

  lemma {:induction false} StepGrows(s: System, step: Step, sock: nat)
    requires Enabled(s, step) && Inv(s) && sock in s.links
    ensures sock in Apply(s, step).links
    ensures Grows(s.links[sock].client.results, Apply(s, step).links[sock].client.results)
  {
    hide Inv, LinkOk, LinksOk, ClientAfter, Grows, Apply;
    if IsClientStep(step) {
      InvLinks(s);
      TheLink(s, step.sock);
      CallbacksFine(s.host.services, s.links[step.sock]);
      ClientStepGrows(s.host, step.sock, s.links[step.sock], step);
      ClientsSame(s, step, sock);
    } else {
      OthersSame(s, step, sock);
    }
    SameResults(s.links[sock].client.results);
  }

  lemma {:induction false} InvLinks(s: System)
    requires Inv(s)
    ensures LinksOk(s.host.services, s.links)
  {
  }

  lemma {:induction false} ClientsSame(s: System, step: Step, sock: nat)
    requires Enabled(s, step) && IsClientStep(step) && sock in s.links
    ensures sock in Apply(s, step).links
    ensures Apply(s, step).links[sock].client == if sock == step.sock then ClientAfter(s.links[sock], step)
            else s.links[sock].client
  {
  }

  lemma {:induction false} OthersSame(s: System, step: Step, sock: nat)
    requires Enabled(s, step) && !IsClientStep(step) && sock in s.links
    ensures sock in Apply(s, step).links && SameButChannel(s.links[sock], Apply(s, step).links[sock])
  {
    hide OnReceivedFrame, ExposeService, OnNewIncomingConnection, HostDisconnected, Handled, SentAfter, LinkEnabled;
    match step
    case Expose(_) =>
    case StartClient(_) =>
    case HostAccepts(_) =>
    case HostDisconnects(_) =>
    case HostReceives(at, parses) =>
      LinkReceives(s, at, parses);
      HandledResults(s.links[at], OnReceivedFrame(s.host, at, s.links[at].client.toHost[0], parses));
    case Resolve(k, result) =>
      if ReplyTo(s.host, k).Some? && ReplyTo(s.host, k).value in s.links {
        SentResults(s.links[ReplyTo(s.host, k).value], InvokeMethodReply(s.host.held[k].request, result));
      }
  }

  lemma {:induction false} LinkReceives(s: System, sock: nat, parses: bool)
    requires Enabled(s, HostReceives(sock, parses))
    ensures sock in s.host.clientsBySocket && s.links[sock].client.toHost != []
  {
  }

  /** The client is as it was, but for the frames that the host has taken. */
  predicate SameButChannel(l: Link, l': Link) {
    l'.client.(toHost := l.client.toHost) == l.client && l'.tried == l.tried
  }

  lemma {:induction false} HandledResults(l: Link, out: Outcome)
    requires l.client.toHost != []
    ensures SameButChannel(l, Handled(l, out))
  {
  }

  lemma {:induction false} SentResults(l: Link, f: Frame)
    ensures SameButChannel(l, SentAfter(l, f))
  {
  }
}
