/** What holds between a client and the host: every frame on its way was asked for, every bound proxy knows its
    service, and every result handed on is one that the host sent for that request. */
module RpcLinks {
  import opened Options
  import opened Rpc
  import opened RpcCallbacks

  // ---- The invariant --------------------------------------------------------------------------------------

  /** A frame to the host says what its request was made for; a call reaches the method it names. */
  predicate AskedFor(services: map<nat, Service>, issued: map<nat, Request>, f: Frame) {
    f.id in issued && match f
      case BindService(id, service) => issued[id].BindRequest? && issued[id].service == service
      case InvokeMethod(id, _, _, _, dropReply) =>
        var r := issued[id];
        r.InvokeRequest? && dropReply == r.callback.None?
          && Target(services, f) == Some(Dispatch(r.service, r.methodName, r.args))
      case _ => false
  }

  predicate ToHostOk(services: map<nat, Service>, issued: map<nat, Request>, toHost: seq<Frame>, last: nat) {
    && (forall i :: 0 <= i < |toHost| ==> AskedFor(services, issued, toHost[i]) && toHost[i].id <= last)
    && (forall i, j :: 0 <= i < j < |toHost| ==> toHost[i].id < toHost[j].id)
  }

  /** A frame to the client answers a request of its kind; a binding is for the service of that name. */
  predicate Answers(services: map<nat, Service>, issued: map<nat, Request>, f: Frame) {
    f.id in issued && match f
      case BindServiceReply(id, success, serviceId, methods) =>
        issued[id].BindRequest? && (success ==>
          && serviceId in services && services[serviceId].name == issued[id].service
          && methods == MethodTable(services[serviceId].methods))
      case InvokeMethodReply(id, _) => issued[id].InvokeRequest?
      case _ => false
  }

  predicate ToClientOk(services: map<nat, Service>, issued: map<nat, Request>, toClient: seq<Frame>) {
    forall i :: 0 <= i < |toClient| ==> Answers(services, issued, toClient[i])
  }

  predicate QueuedOk(queued: map<nat, Queued>, issued: map<nat, Request>, proxies: map<nat, Proxy>, made: nat) {
    forall id :: id in queued ==> id in issued && queued[id].proxy < made && Fits(queued[id], issued[id], proxies)
  }

  predicate Fits(q: Queued, r: Request, proxies: map<nat, Proxy>) {
    match q
    case QueuedBind(p) => r.BindRequest? && r.proxy == p && (p in proxies ==> proxies[p].service == r.service)
    case QueuedInvoke(_, _) => r.InvokeRequest?
  }

  /** A bound proxy has the number of its service and, of each method it knows, the right number. */
  predicate BoundOk(services: map<nat, Service>, p: Proxy) {
    p.serviceId != 0 ==>
      && p.serviceId in services && services[p.serviceId].name == p.service
      && forall m :: m in p.methods ==> Numbered(services[p.serviceId].methods, m, p.methods[m])
  }

  predicate Numbered(methods: seq<string>, name: string, id: nat) {
    0 < id <= |methods| && methods[id - 1] == name
  }

  predicate ProxiesOk(services: map<nat, Service>, proxies: map<nat, Proxy>, made: nat) {
    forall p :: p in proxies ==> p < made && BoundOk(services, proxies[p])
  }

  predicate QueuedFor(queued: map<nat, Queued>, id: nat, proxy: nat) {
    id in queued && queued[id].QueuedInvoke? && queued[id].proxy == proxy
  }

  /** Until a client has learnt that its connection is gone, the callbacks that wait at a proxy are those of its
      calls in the queue. */
  ghost predicate KeysOk(ended: bool, queued: map<nat, Queued>, proxies: map<nat, Proxy>) {
    !ended ==> forall p, id: nat :: p in proxies ==> (id in proxies[p].pending <==> QueuedFor(queued, id, p))
  }

  /** The results on their way for a request. */
  function InFlight(toClient: seq<Frame>, id: nat): seq<Result> {
    if toClient == [] then []
    else
      var first := toClient[0];
      (if first.InvokeMethodReply? && first.id == id then [first.result] else []) + InFlight(toClient[1..], id)
  }

  ghost predicate Pending(proxies: map<nat, Proxy>, id: nat) {
    exists p :: p in proxies && id in proxies[p].pending
  }

  /** What was handed on for a request is the beginning of what was sent for it; while it waits, the rest is on
      its way. */
  ghost predicate GotOk(l: Link, id: nat)
    requires id in l.client.got
  {
    && l.client.got[id] <= SentFor(l, id)
    && (!l.client.ended && Pending(l.client.proxies, id) ==>
           l.client.got[id] + InFlight(l.toClient, id) == SentFor(l, id))
  }

  ghost predicate AllGotOk(l: Link) {
    forall id :: id in l.client.got ==> GotOk(l, id)
  }

  /** The request has this callback. */
  predicate For(c: Client, id: nat, k: nat) {
    id in c.got && id in c.issued && c.issued[id].InvokeRequest? && c.issued[id].callback == Some(k)
  }

  /** A callback was given what was handed on for its request, and perhaps a rejection. */
  predicate Given(c: Client, id: nat, k: nat)
    requires id in c.got
  {
    k in c.results && (c.results[k] == c.got[id] || c.results[k] == c.got[id] + [REJECTED])
  }

  ghost predicate GivenOk(c: Client) {
    && (forall id: nat, k: nat :: For(c, id, k) ==> Given(c, id, k))
    && (forall i: nat, j: nat, k: nat :: For(c, i, k) && For(c, j, k) ==> i == j)
    && (forall k: nat, p: nat, id: nat :: Waits(c.proxies, k, p, id) ==>
           For(c, id, k) && Given(c, id, k) && c.results[k] == c.got[id])
  }

  /** What was run for a request is what it asked for, and it has been taken from the channel. */
  predicate DispatchedOk(dispatched: map<nat, Dispatch>, issued: map<nat, Request>, toHost: seq<Frame>) {
    forall id :: id in dispatched ==>
      && id in issued && issued[id].InvokeRequest?
      && dispatched[id] == Dispatch(issued[id].service, issued[id].methodName, issued[id].args)
      && forall i :: 0 <= i < |toHost| ==> id < toHost[i].id
  }

  predicate NumbersOk(l: Link) {
    && (forall id :: id in l.client.issued ==> 0 < id <= l.client.lastRequest)
    && (forall id :: id in l.client.got ==> id in l.client.issued)
    && (forall id :: id in l.sent ==> id in l.client.issued)
  }

  /** Before a client has connected it has asked for nothing, and it learns of a disconnection only after one. */
  predicate FreshOk(l: Link) {
    var c := l.client;
    && (!l.tried ==> !c.connected && !c.ended && c.queued == map[] && forall p :: p in c.proxies ==>
           c.proxies[p].pending == map[])
    && (c.notices != [] ==> c.ended)
    && (c.ended ==> l.tried && !c.connected)
  }

  predicate FramesOk(services: map<nat, Service>, l: Link) {
    var c := l.client;
    && ToHostOk(services, c.issued, c.toHost, c.lastRequest) && ToClientOk(services, c.issued, l.toClient)
    && DispatchedOk(l.dispatched, c.issued, c.toHost) && NumbersOk(l)
  }

  predicate TablesOk(services: map<nat, Service>, c: Client) {
    QueuedOk(c.queued, c.issued, c.proxies, c.madeProxies) && ProxiesOk(services, c.proxies, c.madeProxies)
  }

  ghost predicate LinkOk(services: map<nat, Service>, l: Link) {
    var c := l.client;
    && CallbacksOk(c) && GivenOk(c) && FramesOk(services, l) && TablesOk(services, c)
    && KeysOk(c.ended, c.queued, c.proxies) && AllGotOk(l) && FreshOk(l)
  }

  // ---- Requests -------------------------------------------------------------------------------------------

  /** A new request has a number that nothing has yet. */
  lemma {:induction false} FramesAsked(services: map<nat, Service>, l: Link, l': Link, f: Frame, r: Request)
    requires FramesOk(services, l) && f.id == l.client.lastRequest + 1
    requires AskedFor(services, l.client.issued[f.id := r], f)
    requires l'.toClient == l.toClient && l'.sent == l.sent && l'.dispatched == l.dispatched
    requires l'.client.issued == l.client.issued[f.id := r] && l'.client.toHost == l.client.toHost + [f]
    requires l'.client.lastRequest == f.id
    requires l'.client.got == l.client.got || l'.client.got == l.client.got[f.id := []]
    ensures FramesOk(services, l')
  {
    var issued, issued' := l.client.issued, l'.client.issued;
    forall i | 0 <= i < |l'.client.toHost|
      ensures AskedFor(services, issued', l'.client.toHost[i])
    {
      if i < |l.client.toHost| {
        assert AskedFor(services, issued, l.client.toHost[i]);
      }
    }
    forall i | 0 <= i < |l.toClient|
      ensures Answers(services, issued', l.toClient[i])
    {
      assert Answers(services, issued, l.toClient[i]);
    }
  }

  lemma {:induction false} NoneInFlight(services: map<nat, Service>, issued: map<nat, Request>, toClient: seq<Frame>,
                                        id: nat)
    requires ToClientOk(services, issued, toClient) && id !in issued
    ensures InFlight(toClient, id) == []
    decreases |toClient|
  {
    if toClient != [] {
      assert Answers(services, issued, toClient[0]);
      NoneInFlight(services, issued, toClient[1..], id);
    }
  }

  lemma {:induction false} BindFrames(services: map<nat, Service>, l: Link, proxy: nat)
    requires LinkOk(services, l) && l.client.connected && proxy in l.client.proxies
    ensures var l' := l.(client := Bind(l.client, proxy));
            FramesOk(services, l') && TablesOk(services, l'.client)
              && KeysOk(false, l'.client.queued, l'.client.proxies)
  {
    hide CallbacksOk, GivenOk, AllGotOk;
    var c := l.client;
    var id, service := c.lastRequest + 1, c.proxies[proxy].service;
    FramesAsked(services, l, l.(client := Bind(c, proxy)), BindService(id, service), BindRequest(proxy, service));
    var c' := Bind(c, proxy);
    forall p, i: nat | p in c.proxies
      ensures i in c'.proxies[p].pending <==> QueuedFor(c'.queued, i, p)
    {
      assert i in c.proxies[p].pending <==> QueuedFor(c.queued, i, p);
      assert id !in c.queued;
    }
  }

  lemma {:induction false} GotKept(l: Link, l': Link)
    requires AllGotOk(l) && l'.toClient == l.toClient && l'.sent == l.sent && l'.client.got == l.client.got
    requires l'.client.connected == l.client.connected && l'.client.ended == l.client.ended
    requires forall p, i :: p in l'.client.proxies && i in l'.client.proxies[p].pending ==>
               p in l.client.proxies && i in l.client.proxies[p].pending
    ensures AllGotOk(l')
  {
    forall id | id in l'.client.got
      ensures GotOk(l', id)
    {
      assert GotOk(l, id);
      if Pending(l'.client.proxies, id) {
        var p :| p in l'.client.proxies && id in l'.client.proxies[p].pending;
        assert p in l.client.proxies && id in l.client.proxies[p].pending;
      }
    }
  }

  lemma {:induction false} SameGiven(c: Client, c': Client)
    requires GivenOk(c) && c'.proxies == c.proxies && c'.got == c.got && c'.results == c.results
    requires forall id :: id in c.got ==> id in c.issued && id in c'.issued && c'.issued[id] == c.issued[id]
    ensures GivenOk(c')
  {
    assert forall id, k :: For(c', id, k) == For(c, id, k);
    assert forall id, k :: id in c.got ==> Given(c', id, k) == Given(c, id, k);
  }

  lemma {:induction false} BindLink(services: map<nat, Service>, l: Link, proxy: nat)
    requires LinkOk(services, l)
    ensures LinkOk(services, l.(client := Bind(l.client, proxy)))
  {
    hide CallbacksOk, FramesOk, TablesOk, KeysOk, GivenOk, AllGotOk;
    var c, c' := l.client, Bind(l.client, proxy);
    if c.connected && proxy in c.proxies {
      BindOk(c, proxy);
      BindFrames(services, l, proxy);
      FrameIds(services, l);
      SameGiven(c, c');
      GotKept(l, l.(client := c'));
    } else {
      SameLink(services, l, l.(client := c'));
    }
  }

  lemma {:induction false} FrameIds(services: map<nat, Service>, l: Link)
    requires FramesOk(services, l)
    ensures NumbersOk(l) && ToClientOk(services, l.client.issued, l.toClient)
  {
  }

  /** What the invariant does not speak of may change, and the connection may go. */
  predicate SameButBindings(c: Client, c': Client) {
    && c'.lastRequest == c.lastRequest && c'.queued == c.queued && c'.proxies == c.proxies
         && c'.madeProxies == c.madeProxies
    && c'.toHost == c.toHost && c'.issued == c.issued && c'.got == c.got && c'.results == c.results
  }

  lemma {:induction false} SameLink(services: map<nat, Service>, l: Link, l': Link)
    requires LinkOk(services, l) && SameButBindings(l.client, l'.client)
    requires l'.toClient == l.toClient && l'.sent == l.sent && l'.dispatched == l.dispatched
    requires (l.client.ended ==> l'.client.ended) && (l'.client.connected ==> l.client.connected)
             && (l.tried ==> l'.tried)
    requires (l'.client.notices != [] ==> l'.client.ended) && (l'.client.ended ==> l'.tried && !l'.client.connected)
    ensures LinkOk(services, l')
  {
    hide ToHostOk, ToClientOk, QueuedOk, ProxiesOk, DispatchedOk, CallbacksOk;
    var c, c' := l.client, l'.client;
    SamePending(c, c');
    assert forall id, k :: For(c', id, k) == For(c, id, k);
    assert forall id, k :: id in c.got ==> Given(c', id, k) == Given(c, id, k);
    forall id | id in c'.got
      ensures GotOk(l', id)
    {
      assert GotOk(l, id);
    }
  }

  lemma {:induction false} BindAllLink(services: map<nat, Service>, l: Link, proxies: seq<nat>)
    requires LinkOk(services, l)
    ensures LinkOk(services, l.(client := BindAll(l.client, proxies)))
    decreases |proxies|
  {
    hide LinkOk;
    if proxies != [] {
      var c' := Bind(l.client, proxies[0]);
      BindLink(services, l, proxies[0]);
      BindAllLink(services, l.(client := c'), proxies[1..]);
    }
  }

  lemma {:induction false} ConnectedLink(services: map<nat, Service>, l: Link)
    requires LinkOk(services, l) && !l.tried
    ensures LinkOk(services, l.(client := Connected(l.client), tried := true))
  {
    hide BindAll, CallbacksOk, GivenOk, FramesOk, TablesOk;
    var c := l.client;
    var l1 := l.(client := c.(connected := true), tried := true);
    SamePending(c, l1.client);
    NowConnected(services, l);
    var l2 := l1.(client := BindAll(l1.client, c.queuedBindings));
    BindAllLink(services, l1, c.queuedBindings);
    SameLink(services, l2, l.(client := Connected(c), tried := true));
  }

  lemma {:induction false} NowConnected(services: map<nat, Service>, l: Link)
    requires LinkOk(services, l) && !l.tried
    ensures var l1 := l.(client := l.client.(connected := true), tried := true);
            GivenOk(l1.client) && FramesOk(services, l1) && TablesOk(services, l1.client)
              && KeysOk(false, l1.client.queued, l1.client.proxies) && AllGotOk(l1)
  {
    hide CallbacksOk;
    var c := l.client;
    var l1 := l.(client := c.(connected := true), tried := true);
    SameFrames(services, l, l1);
    assert forall id, k :: For(l1.client, id, k) == For(c, id, k);
    assert forall id, k :: id in c.got ==> Given(l1.client, id, k) == Given(c, id, k);
    forall id | id in c.got
      ensures GotOk(l1, id)
    {
      assert GotOk(l, id);
    }
  }

  lemma {:induction false} SameFrames(services: map<nat, Service>, l: Link, l': Link)
    requires FramesOk(services, l) && l'.toClient == l.toClient && l'.sent == l.sent && l'.dispatched == l.dispatched
    requires l'.client.issued == l.client.issued && l'.client.toHost == l.client.toHost
    requires l.client.lastRequest <= l'.client.lastRequest && l'.client.got.Keys <= l.client.got.Keys
    ensures FramesOk(services, l')
  {
  }

  // ---- Calls ----------------------------------------------------------------------------------------------

  lemma {:induction false} RejectedGiven(c: Client, c': Client, callback: Option<nat>)
    requires GivenOk(c) && (callback.Some? ==> callback.value !in c.results)
    requires c'.proxies == c.proxies && c'.got == c.got && c'.issued == c.issued
    requires c'.results == Rejected(c, callback).results
    ensures GivenOk(c')
  {
    assert forall id, k :: For(c', id, k) == For(c, id, k);
    forall id: nat, k: nat | For(c, id, k)
      ensures Given(c', id, k)
    {
      assert Given(c, id, k);
    }
  }

  lemma {:induction false} RejectedLink(services: map<nat, Service>, l: Link, l': Link, callback: Option<nat>)
    requires LinkOk(services, l) && (callback.Some? ==> callback.value !in l.client.results)
    requires l' == l.(client := Rejected(l.client.(lastRequest := l'.client.lastRequest), callback))
    requires l.client.lastRequest <= l'.client.lastRequest
    ensures LinkOk(services, l')
  {
    hide CallbacksOk, TablesOk, KeysOk, FramesOk, GivenOk, AllGotOk;
    var c, c' := l.client, l'.client;
    SamePending(c, c.(lastRequest := c'.lastRequest));
    RejectedOk(c.(lastRequest := c'.lastRequest), callback);
    SameFrames(services, l, l');
    SameTables(services, c, c');
    RejectedGiven(c, c', callback);
    GotKept(l, l');
  }

  lemma {:induction false} SameTables(services: map<nat, Service>, c: Client, c': Client)
    requires TablesOk(services, c) && c'.queued == c.queued && c'.issued == c.issued && c'.proxies == c.proxies
             && c'.madeProxies == c.madeProxies
    ensures TablesOk(services, c')
  {
  }

  lemma {:induction false} InvokeFrames(services: map<nat, Service>, l: Link, proxy: nat, methodName: string,
                                        args: nat, callback: Option<nat>)
    requires FramesOk(services, l) && TablesOk(services, l.client) && proxy in l.client.proxies && l.client.connected
    requires l.client.proxies[proxy].serviceId != 0 && methodName in l.client.proxies[proxy].methods
    ensures FramesOk(services, l.(client := Invoke(l.client, proxy, methodName, args, callback)))
  {
    hide ToHostOk, ToClientOk, DispatchedOk, QueuedOk, FramesOk;
    var c := l.client;
    var p, id := c.proxies[proxy], c.lastRequest + 1;
    assert BoundOk(services, p);
    assert Numbered(services[p.serviceId].methods, methodName, p.methods[methodName]);
    FramesAsked(services, l, l.(client := Invoke(c, proxy, methodName, args, callback)),
                InvokeMethod(id, p.serviceId, p.methods[methodName], args, callback.None?),
                InvokeRequest(p.service, methodName, args, callback));
  }

  lemma {:induction false} InvokeTables(services: map<nat, Service>, l: Link, proxy: nat, methodName: string,
                                        args: nat, callback: Option<nat>)
    requires NumbersOk(l) && TablesOk(services, l.client) && KeysOk(l.client.ended, l.client.queued, l.client.proxies)
    requires proxy in l.client.proxies && l.client.connected && !l.client.ended
    requires l.client.proxies[proxy].serviceId != 0 && methodName in l.client.proxies[proxy].methods
    ensures var c' := Invoke(l.client, proxy, methodName, args, callback);
            TablesOk(services, c') && KeysOk(false, c'.queued, c'.proxies)
  {
    var c, c', id := l.client, Invoke(l.client, proxy, methodName, args, callback), l.client.lastRequest + 1;
    assert id !in c.queued;
    forall i | i in c'.queued
      ensures i in c'.issued && c'.queued[i].proxy < c'.madeProxies && Fits(c'.queued[i], c'.issued[i], c'.proxies)
    {
      if i != id {
        assert i in c.queued && Fits(c.queued[i], c.issued[i], c.proxies);
      }
    }
    forall p, i: nat | p in c'.proxies
      ensures i in c'.proxies[p].pending <==> QueuedFor(c'.queued, i, p)
    {
      assert i in c.proxies[p].pending <==> QueuedFor(c.queued, i, p);
    }
    forall p | p in c'.proxies
      ensures p < c'.madeProxies && BoundOk(services, c'.proxies[p])
    {
      assert BoundOk(services, c.proxies[p]);
    }
  }

  lemma {:induction false} InvokeGiven(services: map<nat, Service>, l: Link, proxy: nat, methodName: string,
                                       args: nat, callback: Option<nat>)
    requires GivenOk(l.client) && NumbersOk(l) && proxy in l.client.proxies && l.client.connected
    requires l.client.proxies[proxy].serviceId != 0 && methodName in l.client.proxies[proxy].methods
    requires callback.Some? ==> callback.value !in l.client.results
    ensures GivenOk(Invoke(l.client, proxy, methodName, args, callback))
  {
    var c, c', id := l.client, Invoke(l.client, proxy, methodName, args, callback), l.client.lastRequest + 1;
    forall i: nat, k: nat | For(c', i, k)
      ensures (i == id && callback == Some(k)) || (i != id && For(c, i, k) && Given(c, i, k) && callback != Some(k))
      ensures Given(c', i, k)
    {
      if i != id {
        assert For(c, i, k) && Given(c, i, k);
      }
    }
    forall k: nat, p: nat, i: nat | Waits(c'.proxies, k, p, i)
      ensures For(c', i, k) && Given(c', i, k) && c'.results[k] == c'.got[i]
    {
      if i != id {
        assert Waits(c.proxies, k, p, i);
      } else if p != proxy {
        assert Waits(c.proxies, k, p, i);
      }
    }
  }

  lemma {:induction false} InvokeGot(services: map<nat, Service>, l: Link, proxy: nat, methodName: string, args: nat,
                                     callback: Option<nat>)
    requires AllGotOk(l) && NumbersOk(l) && ToClientOk(services, l.client.issued, l.toClient)
             && proxy in l.client.proxies && l.client.connected
    requires l.client.proxies[proxy].serviceId != 0 && methodName in l.client.proxies[proxy].methods
    ensures AllGotOk(l.(client := Invoke(l.client, proxy, methodName, args, callback)))
  {
    hide ToClientOk;
    var c, c', id := l.client, Invoke(l.client, proxy, methodName, args, callback), l.client.lastRequest + 1;
    var l' := l.(client := c');
    NoneInFlight(services, c.issued, l.toClient, id);
    forall i | i in c'.got
      ensures GotOk(l', i)
    {
      if i != id {
        assert GotOk(l, i);
        if Pending(c'.proxies, i) {
          var p :| p in c'.proxies && i in c'.proxies[p].pending;
          assert p in c.proxies && i in c.proxies[p].pending;
        }
      }
    }
  }

  lemma {:induction false} InvokeLink(services: map<nat, Service>, l: Link, proxy: nat, methodName: string, args: nat,
                                      callback: Option<nat>)
    requires LinkOk(services, l) && proxy in l.client.proxies
             && (callback.Some? ==> callback.value !in l.client.results)
    ensures LinkOk(services, l.(client := Invoke(l.client, proxy, methodName, args, callback)))
  {
    hide CallbacksOk, GivenOk, FramesOk, TablesOk, KeysOk, AllGotOk;
    var c := l.client;
    var p, l' := c.proxies[proxy], l.(client := Invoke(c, proxy, methodName, args, callback));
    if p.serviceId == 0 || methodName !in p.methods || !c.connected {
      RejectedLink(services, l, l', callback);
    } else {
      InvokeOk(c, proxy, methodName, args, callback);
      FrameIds(services, l);
      InvokeFrames(services, l, proxy, methodName, args, callback);
      InvokeTables(services, l, proxy, methodName, args, callback);
      InvokeGiven(services, l, proxy, methodName, args, callback);
      InvokeGot(services, l, proxy, methodName, args, callback);
    }
  }
}
