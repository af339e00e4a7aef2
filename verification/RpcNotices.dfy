/** No callback is forgotten: once the connection is gone, every proxy where one still waits is going to be told. */
module RpcNotices {
  import opened Options
  import opened Ordering
  import opened Rpc
  import opened RpcCallbacks
  import opened RpcLinks
  import opened RpcSystem

  // ---- The invariant --------------------------------------------------------------------------------------

  /** The proxy is the one bound to its service. */
  predicate BoundHere(bindings: map<nat, nat>, proxies: map<nat, Proxy>, p: nat)
    requires p in proxies
  {
    proxies[p].serviceId != 0 ==> proxies[p].serviceId in bindings && bindings[proxies[p].serviceId] == p
  }

  /** What a client keeps on its own, whatever frames come: a callback waits only at a proxy that is among the
      bindings, and once the client has learnt that its connection is gone, at one that is going to be told. */
  predicate Told(c: Client) {
    && (c.connected ==> !c.ended) && (c.notices != [] ==> c.ended)
    && (forall p :: p in c.proxies ==> p < c.madeProxies)
    && ToldOf(c.ended, c.bindings, c.proxies, c.notices)
  }

  predicate ToldOf(ended: bool, bindings: map<nat, nat>, proxies: map<nat, Proxy>, notices: seq<nat>) {
    && (!ended ==> forall p :: p in proxies ==> BoundHere(bindings, proxies, p))
    && (forall p :: p in proxies && proxies[p].pending != map[] ==>
           if ended then p in notices else p in bindings.Values)
  }

  /** Callbacks may come to wait at a proxy that is bound, or where some wait already. */
  lemma {:induction false} PendingChanges(ended: bool, bindings: map<nat, nat>, proxies: map<nat, Proxy>,
                                          notices: seq<nat>, proxy: nat, pending: map<nat, nat>)
    requires ToldOf(ended, bindings, proxies, notices) && proxy in proxies
    requires pending == map[] || proxies[proxy].pending != map[] || (!ended && proxies[proxy].serviceId != 0)
    ensures ToldOf(ended, bindings, proxies[proxy := proxies[proxy].(pending := pending)], notices)
  {
    var proxies' := proxies[proxy := proxies[proxy].(pending := pending)];
    assert !ended ==> BoundHere(bindings, proxies, proxy);
    forall p | p in proxies'
      ensures !ended ==> BoundHere(bindings, proxies', p)
    {
      assert !ended ==> BoundHere(bindings, proxies, p);
    }
  }

  // ---- Steps ----------------------------------------------------------------------------------------------

  lemma {:induction false} BindAllTold(c: Client, proxies: seq<nat>)
    ensures var c' := BindAll(c, proxies);
            && c'.connected == c.connected && c'.ended == c.ended && c'.proxies == c.proxies && c'.notices == c.notices
            && c'.bindings == c.bindings && c'.madeProxies == c.madeProxies
    decreases |proxies|
  {
    if proxies != [] {
      BindAllTold(Bind(c, proxies[0]), proxies[1..]);
    }
  }

  lemma {:induction false} ReceivedTold(c: Client, f: Frame)
    requires Told(c)
    ensures Told(OnFrameReceived(c, f))
  {
    hide OnBindServiceReply, OnInvokeMethodReply, Told;
    if f.id in c.queued {
      var q, c1 := c.queued[f.id], c.(queued := c.queued - {f.id});
      SameTold(c, c1);
      if q.QueuedBind? && f.BindServiceReply? {
        BindReplyTold(c1, q.proxy, f);
      } else if q.QueuedInvoke? && f.InvokeMethodReply? {
        InvokeReplyTold(c1, q, f);
      }
    }
  }

  lemma {:induction false} BindReplyTold(c: Client, proxy: nat, f: Frame)
    requires Told(c) && f.BindServiceReply?
    ensures Told(OnBindServiceReply(c, proxy, f))
  {
    hide MethodMap, ToldOf;
    if proxy in c.proxies && f.success && (f.serviceId in c.bindings ==> c.bindings[f.serviceId] !in c.proxies) {
      BoundAnew(c.ended, c.bindings, c.proxies, c.notices, proxy, f.serviceId, MethodMap(f.methods));
    }
  }

  /** A service is bound anew only when the proxy it was bound to is gone. */
  lemma {:induction false} BoundAnew(ended: bool, bindings: map<nat, nat>, proxies: map<nat, Proxy>,
                                     notices: seq<nat>, proxy: nat, serviceId: nat, methods: map<string, nat>)
    requires ToldOf(ended, bindings, proxies, notices) && proxy in proxies
    requires serviceId in bindings ==> bindings[serviceId] !in proxies
    ensures ToldOf(ended, bindings[serviceId := proxy],
                   proxies[proxy := proxies[proxy].(serviceId := serviceId, methods := methods)], notices)
  {
    var bindings' := bindings[serviceId := proxy];
    var proxies' := proxies[proxy := proxies[proxy].(serviceId := serviceId, methods := methods)];
    forall p | p in proxies'
      ensures !ended ==> BoundHere(bindings', proxies', p)
      ensures !ended && proxies'[p].pending != map[] ==> p in bindings'.Values
    {
      assert !ended ==> BoundHere(bindings, proxies, p);
      if !ended && proxies[p].pending != map[] {
        var id :| id in bindings && bindings[id] == p;
        assert bindings'[id] == p;
      }
    }
  }

  lemma {:induction false} InvokeReplyTold(c: Client, q: Queued, f: Frame)
    requires Told(c) && q.QueuedInvoke? && f.InvokeMethodReply?
    ensures Told(OnInvokeMethodReply(c, q, f))
  {
    hide ToldOf;
    if q.proxy in c.proxies {
      var pending := c.proxies[q.proxy].pending;
      PendingChanges(c.ended, c.bindings, c.proxies, c.notices, q.proxy, pending - {f.id});
    }
  }

  lemma {:induction false} DisconnectedTold(c: Client)
    requires Told(c)
    ensures Told(Disconnected(c))
  {
    hide InOrder;
    var services := InOrder(c.bindings.Keys);
    var posted := BoundProxies(c.bindings, services);
    forall p | p in c.proxies && c.proxies[p].pending != map[]
      ensures p in c.notices + posted
    {
      if !c.ended {
        var id :| id in c.bindings && c.bindings[id] == p;
        assert id in services;
        var i :| 0 <= i < |services| && services[i] == id;
        assert posted[i] == p;
      }
    }
  }

  lemma {:induction false} DestroyedTold(c: Client, proxy: nat)
    requires Told(c) && proxy in c.proxies
    ensures Told(Destroyed(c, proxy))
  {
    hide RejectedAll;
    var c' := Destroyed(c, proxy);
    forall p | p in c'.proxies
      ensures !c.ended ==> BoundHere(c'.bindings, c'.proxies, p)
      ensures !c.ended && c'.proxies[p].pending != map[] ==> p in c'.bindings.Values
    {
      assert !c.ended ==> BoundHere(c.bindings, c.proxies, p) && BoundHere(c.bindings, c.proxies, proxy);
      if !c.ended && c.proxies[p].pending != map[] {
        var id :| id in c.bindings && c.bindings[id] == p;
        assert id in c'.bindings && c'.bindings[id] == p;
      }
    }
  }

  lemma {:induction false} InvokeTold(c: Client, proxy: nat, methodName: string, args: nat, callback: Option<nat>)
    requires Told(c) && proxy in c.proxies
    ensures Told(Invoke(c, proxy, methodName, args, callback))
  {
    hide ToldOf;
    var p := c.proxies[proxy];
    if p.serviceId != 0 && c.connected && callback.Some? {
      PendingChanges(c.ended, c.bindings, c.proxies, c.notices, proxy, p.pending[c.lastRequest + 1 := callback.value]);
    }
  }

  lemma {:induction false} ConnectedTold(c: Client)
    requires Told(c) && !c.ended
    ensures Told(Connected(c))
  {
    hide BindAll;
    BindAllTold(c.(connected := true), c.queuedBindings);
  }

  lemma {:induction false} NoticedTold(c: Client)
    requires Told(c) && c.notices != []
    ensures Told(Noticed(c))
  {
    hide RejectedAll;
    assert c.notices == [c.notices[0]] + c.notices[1..];
  }

  lemma {:induction false} NewProxyTold(c: Client, service: string)
    requires Told(c)
    ensures Told(NewProxy(c, service))
  {
    var c' := NewProxy(c, service);
    forall p | p in c'.proxies
      ensures !c.ended ==> BoundHere(c'.bindings, c'.proxies, p)
    {
      assert !c.ended && p in c.proxies ==> BoundHere(c.bindings, c.proxies, p);
    }
  }

  lemma {:induction false} SameTold(c: Client, c': Client)
    requires Told(c) && c'.proxies == c.proxies && c'.bindings == c.bindings && c'.madeProxies == c.madeProxies
    requires c'.notices == c.notices && c'.ended == c.ended && (c'.connected ==> c.connected)
    ensures Told(c')
  {
  }

  /** Whatever a client does, every proxy where a callback waits is bound or is going to be told. */
  lemma {:induction false} ClientTold(h: Host, sock: nat, l: Link, step: Step)
    requires Told(l.client) && (!l.tried ==> !l.client.ended) && LinkEnabled(h, sock, l, step) && IsClientStep(step)
    ensures Told(ClientAfter(l, step))
  {
    hide OnFrameReceived, Invoke, Noticed, BindAll, RejectedAll, BoundHere, Told, Connected, Disconnected, Destroyed;
    var c := l.client;
    match step
    case MakeProxy(_, service) => NewProxyTold(c, service);
    case BindProxy(_, proxy) => SameTold(c, Bind(c, proxy));
    case ClientConnects(_) => ConnectedTold(c);
    case ConnectFails(_) => SameTold(c, ConnectFailed(c));
    case Call(_, proxy, methodName, args, callback) => InvokeTold(c, proxy, methodName, args, callback);
    case ClientReceives(_) => ReceivedTold(c, l.toClient[0]);
    case SocketShuts(_) => SameTold(c, Shut(c));
    case ClientDisconnects(_) => DisconnectedTold(c);
    case ProxyNoticed(_) => NoticedTold(c);
    case DestroyProxy(_, proxy) => DestroyedTold(c, proxy);
  }

  // ---- Runs -----------------------------------------------------------------------------------------------

  predicate AllTold(s: System) {
    forall sock :: sock in s.links ==> Told(s.links[sock].client)
  }

  lemma {:induction false} StepTold(s: System, step: Step)
    requires Enabled(s, step) && Inv(s) && AllTold(s)
    ensures AllTold(Apply(s, step))
  {
    hide Inv, Told, Apply;
    forall sock | sock in Apply(s, step).links
      ensures Told(Apply(s, step).links[sock].client)
    {
      if IsClientStep(step) {
        ClientStepTold(s, step, sock);
      } else {
        OtherStepTold(s, step, sock);
      }
    }
  }

  lemma {:induction false} ClientStepTold(s: System, step: Step, sock: nat)
    requires Enabled(s, step) && Inv(s) && AllTold(s) && IsClientStep(step) && sock in Apply(s, step).links
    ensures Told(Apply(s, step).links[sock].client)
  {
    hide Inv, Told, ClientAfter;
    EndsLater(s, step.sock);
    ClientTold(s.host, step.sock, s.links[step.sock], step);
  }

  /** A client learns of a disconnection only after it has tried to connect. */
  lemma {:induction false} EndsLater(s: System, sock: nat)
    requires Inv(s) && sock in s.links
    ensures !s.links[sock].tried ==> !s.links[sock].client.ended
  {
  }

  lemma {:induction false} OtherStepTold(s: System, step: Step, sock: nat)
    requires Enabled(s, step) && AllTold(s) && !IsClientStep(step) && sock in Apply(s, step).links
    ensures Told(Apply(s, step).links[sock].client)
  {
    hide Told, Apply;
    if sock in s.links {
      OthersSame(s, step, sock);
      SameTold(s.links[sock].client, Apply(s, step).links[sock].client);
    } else {
      NewTold();
      OnlyStarted(s, step, sock);
    }
  }

  lemma {:induction false} OnlyStarted(s: System, step: Step, sock: nat)
    requires Enabled(s, step) && !IsClientStep(step) && sock in Apply(s, step).links && sock !in s.links
    ensures Apply(s, step).links[sock] == Link(NEW_CLIENT, [], false, false, map[], map[])
  {
  }

  lemma {:induction false} NewTold()
    ensures Told(NEW_CLIENT)
  {
  }

  lemma {:induction false} RunTold(states: seq<System>, steps: seq<Step>, k: nat)
    requires IsRun(states, steps) && k < |states|
    ensures AllTold(states[k])
    decreases k
  {
    hide Apply, Enabled, Told, Inv;
    if k > 0 {
      RunTold(states, steps, k - 1);
      RunInv(states, steps, k - 1);
      StepTold(states[k - 1], steps[k - 1]);
    }
  }

  /** In every run, once a client has learnt that its connection is gone, a callback that still waits does so at
      a proxy that is going to be told; and once all have been told, every callback has had its last result. */
  lemma {:induction false} NoneForgotten(states: seq<System>, steps: seq<Step>, k: nat, sock: nat, callback: nat)
    requires IsRun(states, steps) && k < |states| && sock in states[k].links
    requires callback in states[k].links[sock].client.results && states[k].links[sock].client.ended
    ensures var c := states[k].links[sock].client;
            && (forall p, id :: Waits(c.proxies, callback, p, id) ==> p in c.notices)
            && (c.notices == [] ==> Complete(c.results[callback]))
  {
    hide Inv, Complete, AllMore;
    RunTold(states, steps, k);
    OneLastResult(states, steps, k, sock, callback);
    var c := states[k].links[sock].client;
    assert Told(c);
    forall p: nat, id: nat | Waits(c.proxies, callback, p, id)
      ensures p in c.notices
    {
      assert c.proxies[p].pending != map[];
    }
  }
}
