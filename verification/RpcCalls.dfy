/** Calls over whole runs, step by step: what is called goes out, what comes in is run, what a service answers is sent
    and what is sent is handed on. */
module RpcCalls {
  import opened Options
  import opened Rpc
  import opened RpcCallbacks
  import opened RpcEffects
  import opened RpcLinks
  import opened RpcSafety
  import opened RpcSystem

  lemma {:induction false} CallStep(s: System, step: Step)
    requires Enabled(s, step) && step.Call?
    ensures step.sock in s.links && step.sock in Apply(s, step).links && step.proxy in s.links[step.sock].client.proxies
    ensures Apply(s, step).links[step.sock].client
            == Invoke(s.links[step.sock].client, step.proxy, step.methodName, step.args, step.callback)
  {
    hide Invoke;
  }

  /** In every run, a call goes out exactly if the connection stands, the proxy is bound and the method is known, and
      then the host would run the method it names, on the service of the proxy, with its arguments. */
  lemma {:induction false} CallGoesOut(states: seq<System>, steps: seq<Step>, k: nat)
    requires IsRun(states, steps) && k < |steps| && steps[k].Call?
    ensures var step := steps[k];
            && step.sock in states[k].links && step.sock in states[k + 1].links
            && var c, c' := states[k].links[step.sock].client, states[k + 1].links[step.sock].client;
               && step.proxy in c.proxies && CallMade(c, step.proxy, step.methodName, step.args, step.callback, c')
               && (|c'.toHost| > |c.toHost| ==>
                     var f := c'.toHost[|c.toHost|];
                     f.InvokeMethod? && Target(states[k].host.services, f)
                       == Some(Dispatch(c.proxies[step.proxy].service, step.methodName, step.args)))
  {
    hide Apply, Enabled, Invoke, CallMade, LinkOk;
    var s, step := states[k], steps[k];
    RunInv(states, steps, k);
    assert states[k + 1] == Apply(s, step);
    CallStep(s, step);
    var l := s.links[step.sock];
    CallIsMade(l.client, step.proxy, step.methodName, step.args, step.callback);
    TheLink(s, step.sock);
    Outgoing(s.host.services, l, step.proxy, step.methodName, step.args, step.callback);
  }

  lemma {:induction false} Outgoing(services: map<nat, Service>, l: Link, proxy: nat, methodName: string, args: nat,
                                    callback: Option<nat>)
    requires LinkOk(services, l) && proxy in l.client.proxies
    ensures var c, c' := l.client, Invoke(l.client, proxy, methodName, args, callback);
            |c'.toHost| > |c.toHost| ==>
              var f := c'.toHost[|c.toHost|];
              && f.InvokeMethod?
              && Target(services, f) == Some(Dispatch(c.proxies[proxy].service, methodName, args))
  {
    hide CallbacksOk, GivenOk, FramesOk, KeysOk, AllGotOk, QueuedOk;
    var p := l.client.proxies[proxy];
    assert BoundOk(services, p);
    if p.serviceId != 0 && methodName in p.methods {
      assert Numbered(services[p.serviceId].methods, methodName, p.methods[methodName]);
    }
  }

  /** The host takes a call. */
  predicate TakesCall(s: System, step: Step) {
    step.HostReceives? && step.sock in s.links && s.links[step.sock].client.toHost != []
    && s.links[step.sock].client.toHost[0].InvokeMethod?
  }

  /** The method has been run for the request. */
  predicate Runs(l: Link, id: nat, dispatch: Dispatch) {
    id in l.dispatched && l.dispatched[id] == dispatch
  }

  /** A reply is owed to a request, and would go to the socket. */
  predicate OwedFor(h: Host, owed: nat, id: nat, sock: nat) {
    owed in h.held && h.held[owed].request == id && ReplyTo(h, owed) == Some(sock)
  }

  lemma {:induction false} Owed(h: Host, sock: nat, f: Frame, parses: bool, r: Request)
    requires sock in h.clientsBySocket && PairedOk(h) && f.InvokeMethod? && r.InvokeRequest?
    requires f.dropReply == r.callback.None? && Target(h.services, f) == Some(Dispatch(r.service, r.methodName, r.args))
    ensures var out := OnReceivedFrame(h, sock, f, parses);
            if parses then
              && out.dispatch == Some(Dispatch(r.service, r.methodName, r.args)) && out.reply.None?
              && (r.callback.Some? ==> OwedFor(out.host, h.nextHeld, f.id, sock))
            else out.dispatch.None? && out.reply == Some(InvokeMethodReply(f.id, REJECTED)) && out.host == h
  {
  }

  /** In every run, a call that the host takes is run as it was made, and if a callback waits, a reply is owed to the
      socket it came from; but if its arguments do not parse, it is rejected. */
  lemma {:induction false} CallIsRun(states: seq<System>, steps: seq<Step>, k: nat)
    requires IsRun(states, steps) && k < |steps| && TakesCall(states[k], steps[k])
    ensures var sock, s, s' := steps[k].sock, states[k], states[k + 1];
            && sock in s'.links && var l, l' := s.links[sock], s'.links[sock];
            && var id := l.client.toHost[0].id;
            && id in l.client.issued && l.client.issued[id].InvokeRequest?
            && var r := l.client.issued[id];
            && l'.client.toHost == l.client.toHost[1..]
            && if steps[k].parses then
                 && Runs(l', id, Dispatch(r.service, r.methodName, r.args)) && l'.toClient == l.toClient
                 && (r.callback.Some? ==> exists owed :: owed !in s.host.held && OwedFor(s'.host, owed, id, sock))
               else l'.toClient == l.toClient + [InvokeMethodReply(id, REJECTED)] && s'.host == s.host
  {
    hide Inv, LinkOk, Apply, Enabled, OnReceivedFrame, LinksOk;
    var s, sock := states[k], steps[k].sock;
    var l := s.links[sock];
    var f := l.client.toHost[0];
    RunInv(states, steps, k);
    HostParts(s);
    TheLink(s, sock);
    Asked(s.host.services, l);
    assert states[k + 1] == Apply(s, steps[k]);
    ReceiveStep(s, steps[k]);
    Owed(s.host, sock, f, steps[k].parses, l.client.issued[f.id]);
  }

  lemma {:induction false} HostParts(s: System)
    requires Inv(s)
    ensures PairedOk(s.host) && LinksOk(s.host.services, s.links)
    ensures forall k :: k in s.host.held ==> k < s.host.nextHeld
  {
    hide LinksOk, PairedOk, AcceptedOk;
  }

  lemma {:induction false} Asked(services: map<nat, Service>, l: Link)
    requires LinkOk(services, l) && l.client.toHost != []
    ensures AskedFor(services, l.client.issued, l.client.toHost[0])
  {
  }

  lemma {:induction false} ReceiveStep(s: System, step: Step)
    requires Enabled(s, step) && TakesCall(s, step)
    ensures step.sock in s.host.clientsBySocket
    ensures var l, s' := s.links[step.sock], Apply(s, step);
            var out := OnReceivedFrame(s.host, step.sock, l.client.toHost[0], step.parses);
            && step.sock in s'.links && s'.host == out.host
            && s'.links[step.sock].client.toHost == l.client.toHost[1..]
            && s'.links[step.sock].toClient == (if out.reply.Some? then l.toClient + [out.reply.value] else l.toClient)
            && (out.dispatch.Some? ==> Runs(s'.links[step.sock], l.client.toHost[0].id, out.dispatch.value))
  {
    hide OnReceivedFrame;
  }

  /** In every run, what a service answers is sent to the client that called, if it is still there, and the reply is
      owed no more exactly after the last answer. */
  lemma {:induction false} AnswerIsSent(states: seq<System>, steps: seq<Step>, k: nat)
    requires IsRun(states, steps) && k < |steps| && steps[k].Resolve? && steps[k].held in states[k].host.held
    ensures var s, s', owed := states[k], states[k + 1], steps[k].held;
            && (owed in s'.host.held <==> steps[k].result.hasMore)
            && var o := s.host.held[owed];
               o.client in s.host.clients ==>
                 && o.sock in s.links && o.sock in s'.links
                 && s'.links[o.sock].toClient
                    == s.links[o.sock].toClient + [InvokeMethodReply(o.request, steps[k].result)]
  {
    hide Apply, Enabled, LinkOk;
    var s, owed := states[k], steps[k].held;
    RunInv(states, steps, k);
    assert states[k + 1] == Apply(s, steps[k]);
    assert OwedOk(s.host.clients, s.host.lastClient, s.links, s.host.held[owed]);
    ResolveStep(s, owed, steps[k].result);
  }

  lemma {:induction false} ResolveStep(s: System, k: nat, result: Result)
    requires Enabled(s, Resolve(k, result))
    requires OwedOk(s.host.clients, s.host.lastClient, s.links, s.host.held[k])
    ensures var s', o := Apply(s, Resolve(k, result)), s.host.held[k];
            && (k in s'.host.held <==> result.hasMore)
            && (o.client in s.host.clients ==>
                  && o.sock in s'.links
                  && s'.links[o.sock].toClient == s.links[o.sock].toClient + [InvokeMethodReply(o.request, result)])
  {
  }

  /** In every run, a result that comes in is handed to the callback that waits for it. */
  lemma {:induction false} ResultIsHandedOn(states: seq<System>, steps: seq<Step>, k: nat, sock: nat)
    requires IsRun(states, steps) && k < |steps| && steps[k] == ClientReceives(sock)
    requires sock in states[k].links && states[k].links[sock].toClient != []
    requires AwaitsResult(states[k].links[sock].client, states[k].links[sock].toClient[0])
    ensures sock in states[k + 1].links
    ensures ResultTaken(states[k].links[sock].client, states[k].links[sock].toClient[0],
                        states[k + 1].links[sock].client)
  {
    hide Apply, Enabled, LinkOk, ResultTaken;
    RunInv(states, steps, k);
    TheLink(states[k], sock);
    CallbacksFine(states[k].host.services, states[k].links[sock]);
    ResultIsTaken(states[k].links[sock].client, states[k].links[sock].toClient[0]);
    assert states[k + 1] == Apply(states[k], steps[k]);
    TakesFrame(states[k], sock);
  }

  lemma {:induction false} TakesFrame(s: System, sock: nat)
    requires Enabled(s, ClientReceives(sock))
    ensures var s', l := Apply(s, ClientReceives(sock)), s.links[sock];
            sock in s'.links && s'.links[sock].client == OnFrameReceived(l.client, l.toClient[0])
  {
    hide OnFrameReceived;
  }
}
