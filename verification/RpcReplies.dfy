/** What the client does with the frames of the host, and the host with those of the client, keeps what holds
    between them. */
module RpcReplies {
  import opened Rpc
  import opened RpcCallbacks
  import opened RpcLinks

  // ---- Binding --------------------------------------------------------------------------------------------

  predicate AllNumbered(methods: seq<string>, m: map<string, nat>) {
    forall name :: name in m ==> Numbered(methods, name, m[name])
  }

  lemma {:induction false} MethodMapNumbered(methods: seq<string>, n: nat)
    requires n <= |methods|
    ensures AllNumbered(methods, MethodMap(MethodTable(methods)[..n]))
    decreases n
  {
    if n > 0 {
      MethodMapNumbered(methods, n - 1);
      var infos := MethodTable(methods)[..n];
      var front := MethodMap(infos[..n - 1]);
      assert infos[..n - 1] == MethodTable(methods)[..n - 1];
      assert infos[n - 1] == MethodInfo(methods[n - 1], n);
      assert MethodMap(infos) == if methods[n - 1] == [] then front else front[methods[n - 1] := n];
    }
  }

  predicate AllDifferent(names: seq<string>) {
    forall i, j :: 0 <= i < j < |names| ==> names[i] != names[j]
  }

  /** A client that is told of the methods of a service knows each by its own number, if their names differ. */
  lemma {:induction false} MethodMapFinds(methods: seq<string>, n: nat, i: nat)
    requires i < n <= |methods| && AllDifferent(methods) && methods[i] != []
    ensures var m := MethodMap(MethodTable(methods)[..n]);
            methods[i] in m && m[methods[i]] == i + 1
    decreases n
  {
    var infos := MethodTable(methods)[..n];
    assert infos[..n - 1] == MethodTable(methods)[..n - 1];
    if i < n - 1 {
      MethodMapFinds(methods, n - 1, i);
    }
  }

  lemma {:induction false} BoundNow(services: map<nat, Service>, issued: map<nat, Request>, f: Frame, p: Proxy)
    requires f.BindServiceReply? && f.success && Answers(services, issued, f) && p.service == issued[f.id].service
    ensures BoundOk(services, p.(serviceId := f.serviceId, methods := MethodMap(f.methods)))
  {
    var methods := services[f.serviceId].methods;
    MethodMapNumbered(methods, |methods|);
    assert MethodTable(methods)[..|methods|] == MethodTable(methods);
  }

  // ---- The client receives --------------------------------------------------------------------------------

  lemma {:induction false} TailFrames(services: map<nat, Service>, l: Link, l': Link)
    requires FramesOk(services, l) && l.toClient != [] && l'.toClient == l.toClient[1..]
    requires l'.sent == l.sent && l'.dispatched == l.dispatched && l'.client.issued == l.client.issued
    requires l'.client.toHost == l.client.toHost && l'.client.lastRequest == l.client.lastRequest
    requires l'.client.got.Keys == l.client.got.Keys
    ensures FramesOk(services, l') && Answers(services, l.client.issued, l.toClient[0])
  {
  }

  /** A frame that hands nothing on leaves what was handed on as it is. */
  lemma {:induction false} GotUnchanged(l: Link, l': Link)
    requires AllGotOk(l) && l.toClient != [] && l'.toClient == l.toClient[1..] && l'.sent == l.sent
    requires l'.client.got == l.client.got && l'.client.ended == l.client.ended
    requires forall p, i :: p in l'.client.proxies && i in l'.client.proxies[p].pending ==>
               p in l.client.proxies && i in l.client.proxies[p].pending
    requires l.toClient[0].InvokeMethodReply? ==> !Pending(l'.client.proxies, l.toClient[0].id)
    ensures AllGotOk(l')
  {
    forall id | id in l'.client.got
      ensures GotOk(l', id)
    {
      assert GotOk(l, id);
      if Pending(l'.client.proxies, id) {
        var p :| p in l'.client.proxies && id in l'.client.proxies[p].pending;
        assert p in l.client.proxies && id in l.client.proxies[p].pending;
        assert InFlight(l.toClient, id) == InFlight(l'.toClient, id);
      }
    }
  }

  /** A frame for a request that is not in the queue, or whose proxy is gone. */
  lemma {:induction false} IgnoredLink(services: map<nat, Service>, l: Link, l': Link)
    requires LinkOk(services, l) && l.tried && !l.client.ended && l.toClient != []
    requires var f := l.toClient[0];
             && (f.id in l.client.queued ==> l.client.queued[f.id].proxy !in l.client.proxies)
             && l' == l.(toClient := l.toClient[1..], client := l.client.(queued := l.client.queued - {f.id}))
    ensures LinkOk(services, l')
  {
    hide CallbacksOk, FramesOk, GivenOk, ProxiesOk;
    var c, c', f := l.client, l'.client, l.toClient[0];
    SamePending(c, c');
    TailFrames(services, l, l');
    FrameIds(services, l);
    SameGiven(c, c');
    forall p, id: nat | p in c'.proxies
      ensures id in c'.proxies[p].pending <==> QueuedFor(c'.queued, id, p)
    {
      assert id in c.proxies[p].pending <==> QueuedFor(c.queued, id, p);
    }
    GotUnchanged(l, l');
  }

  lemma {:induction false} BindReplyEffect(c: Client, f: Frame)
    requires f.BindServiceReply? && f.id in c.queued && c.queued[f.id].QueuedBind?
    ensures var c', p := OnFrameReceived(c, f), c.queued[f.id].proxy;
            && SameAsking(c, c') && c'.got == c.got && c'.results == c.results && c'.queued == c.queued - {f.id}
            && (|| c'.proxies == c.proxies
                || (p in c.proxies && f.success &&
                    c'.proxies == c.proxies[p := c.proxies[p].(serviceId := f.serviceId,
                        methods := MethodMap(f.methods))]))
  {
  }

  /** What a reply to a binding changes at the client. */
  lemma {:induction false} BindReplyClient(services: map<nat, Service>, c: Client, f: Frame)
    requires CallbacksOk(c) && GivenOk(c) && TablesOk(services, c) && KeysOk(c.ended, c.queued, c.proxies)
    requires f.BindServiceReply? && f.id in c.queued && Answers(services, c.issued, f)
    ensures var c' := OnFrameReceived(c, f);
            && CallbacksOk(c') && GivenOk(c') && SameAsking(c, c') && c'.got == c.got
            && TablesOk(services, c') && KeysOk(c'.ended, c'.queued, c'.proxies)
            && c'.proxies.Keys == c.proxies.Keys && forall p :: p in c.proxies ==>
                   c'.proxies[p].pending == c.proxies[p].pending
  {
    hide CallbacksOk, MethodMap, GivenOk, KeysOk, ProxiesOk, BoundOk, OnFrameReceived;
    var c', q := OnFrameReceived(c, f), c.queued[f.id];
    ReceivedOk(c, f);
    assert Fits(q, c.issued[f.id], c.proxies);
    BindReplyEffect(c, f);
    if q.proxy in c.proxies {
      ProxyBound(services, c, q.proxy);
      if f.success {
        BoundNow(services, c.issued, f, c.proxies[q.proxy]);
      }
    }
    BoundGiven(c, c');
    BoundTables(services, c, c', f.id, q.proxy);
  }

  lemma {:induction false} BindReplyLink(services: map<nat, Service>, l: Link)
    requires LinkOk(services, l) && l.tried && !l.client.ended && l.toClient != []
    requires l.toClient[0].BindServiceReply? && l.toClient[0].id in l.client.queued
    ensures LinkOk(services, l.(toClient := l.toClient[1..], client := OnFrameReceived(l.client, l.toClient[0])))
  {
    hide CallbacksOk, FramesOk, GivenOk, TablesOk, KeysOk, AllGotOk, OnFrameReceived;
    var c, f := l.client, l.toClient[0];
    TailFrames(services, l, l.(toClient := l.toClient[1..]));
    BindReplyClient(services, c, f);
    var l' := l.(toClient := l.toClient[1..], client := OnFrameReceived(c, f));
    TailFrames(services, l, l');
    GotUnchanged(l, l');
    FreshConnected(l, l');
  }

  lemma {:induction false} ProxyBound(services: map<nat, Service>, c: Client, p: nat)
    requires TablesOk(services, c) && p in c.proxies
    ensures BoundOk(services, c.proxies[p])
  {
  }

  /** Binding a proxy does not touch what waits there. */
  lemma {:induction false} BoundGiven(c: Client, c': Client)
    requires GivenOk(c) && c'.issued == c.issued && c'.got == c.got && c'.results == c.results
    requires c'.proxies.Keys == c.proxies.Keys && forall p :: p in c.proxies ==>
               c'.proxies[p].pending == c.proxies[p].pending
    ensures GivenOk(c')
  {
    SameWaits(c.proxies, c'.proxies);
    assert forall id, k :: For(c', id, k) == For(c, id, k);
    assert forall id, k :: id in c.got ==> Given(c', id, k) == Given(c, id, k);
  }

  lemma {:induction false} BoundTables(services: map<nat, Service>, c: Client, c': Client, id: nat, proxy: nat)
    requires TablesOk(services, c) && KeysOk(c.ended, c.queued, c.proxies)
    requires id in c.queued && c.queued[id].QueuedBind?
    requires c'.connected == c.connected && c'.ended == c.ended && c'.queued == c.queued - {id}
             && c'.issued == c.issued && c'.madeProxies == c.madeProxies
    requires c'.proxies.Keys == c.proxies.Keys
    requires forall p :: p in c.proxies ==>
               c'.proxies[p].pending == c.proxies[p].pending && c'.proxies[p].service == c.proxies[p].service
    requires forall p :: p in c.proxies && p != proxy ==> c'.proxies[p] == c.proxies[p]
    requires proxy in c.proxies ==> BoundOk(services, c'.proxies[proxy])
    ensures TablesOk(services, c') && KeysOk(c'.ended, c'.queued, c'.proxies)
  {
  }

  // ---- A result comes in ----------------------------------------------------------------------------------

  lemma {:induction false} ResultGiven(c: Client, proxy: nat, id: nat, r: Result)
    requires GivenOk(c) && CallbacksOk(c) && proxy in c.proxies && id in c.proxies[proxy].pending
    ensures var c' := EndInvoke(c, proxy, id, r);
            && GivenOk(c') && id in c.got && c'.got == c.got[id := c.got[id] + [r]]
            && c'.proxies == if r.hasMore then c.proxies
                 else c.proxies[proxy := c.proxies[proxy].(pending := c.proxies[proxy].pending - {id})]
  {
    var k := c.proxies[proxy].pending[id];
    assert Waits(c.proxies, k, proxy, id);
    var c' := EndInvoke(c, proxy, id, r);
    forall i: nat, j: nat | For(c', i, j)
      ensures For(c, i, j) && Given(c', i, j)
    {
      assert For(c, i, j) && Given(c, i, j);
      if j == k {
        assert For(c, id, k);
      }
    }
    forall j: nat, p: nat, i: nat | Waits(c'.proxies, j, p, i)
      ensures For(c', i, j) && Given(c', i, j) && c'.results[j] == c'.got[i]
    {
      assert Waits(c.proxies, j, p, i);
      assert For(c, i, j);
      if i == id {
        assert For(c, id, k);
      } else {
        assert For(c', i, j);
      }
    }
  }

  lemma {:induction false} ResultGot(l: Link, l': Link, proxy: nat)
    requires AllGotOk(l) && !l.client.ended && !l'.client.ended && l.toClient != [] && l.toClient[0].InvokeMethodReply?
    requires proxy in l.client.proxies && l.toClient[0].id in l.client.proxies[proxy].pending
             && l.toClient[0].id in l.client.got
    requires l'.toClient == l.toClient[1..] && l'.sent == l.sent
    requires var f := l.toClient[0]; l'.client.got == l.client.got[f.id := l.client.got[f.id] + [f.result]]
    requires forall p, i :: p in l'.client.proxies && i in l'.client.proxies[p].pending ==>
               p in l.client.proxies && i in l.client.proxies[p].pending
    ensures AllGotOk(l')
  {
    var f := l.toClient[0];
    forall id | id in l'.client.got
      ensures GotOk(l', id)
    {
      assert GotOk(l, id);
      if id == f.id {
        assert Pending(l.client.proxies, id);
        var got := l.client.got[id];
        assert got + InFlight(l.toClient, id) == SentFor(l, id);
        assert got + ([f.result] + InFlight(l'.toClient, id)) == got + [f.result] + InFlight(l'.toClient, id);
      } else if Pending(l'.client.proxies, id) {
        var p :| p in l'.client.proxies && id in l'.client.proxies[p].pending;
        assert p in l.client.proxies && id in l.client.proxies[p].pending;
        assert InFlight(l.toClient, id) == InFlight(l'.toClient, id);
      }
    }
  }

  lemma {:induction false} ResultTables(services: map<nat, Service>, c: Client, c': Client, proxy: nat, id: nat,
                                        more: bool)
    requires TablesOk(services, c) && KeysOk(true, c.queued, c.proxies)
    requires proxy in c.proxies && id in c.proxies[proxy].pending
    requires c'.issued == c.issued && c'.madeProxies == c.madeProxies
    requires c'.queued == if more then c.queued else c.queued - {id}
    requires c'.proxies == if more then c.proxies
                           else c.proxies[proxy := c.proxies[proxy].(pending := c.proxies[proxy].pending - {id})]
    ensures TablesOk(services, c') && KeysOk(true, c'.queued, c'.proxies)
  {
  }

  /** What a result changes at the client. */
  lemma {:induction false} ResultClient(c: Client, f: Frame, q: Queued)
    requires CallbacksOk(c) && GivenOk(c) && f.InvokeMethodReply? && f.id in c.queued && c.queued[f.id] == q
    requires q.QueuedInvoke? && q.proxy in c.proxies && f.id in c.proxies[q.proxy].pending
    ensures var c' := OnFrameReceived(c, f);
            && CallbacksOk(c') && GivenOk(c') && SameAsking(c, c') && f.id in c.got
            && c'.got == c.got[f.id := c.got[f.id] + [f.result]]
            && c'.queued == (if f.result.hasMore then c.queued else c.queued - {f.id})
            && c'.proxies == if f.result.hasMore then c.proxies
                             else c.proxies[q.proxy := c.proxies[q.proxy].(pending :=
                                 c.proxies[q.proxy].pending - {f.id})]
  {
    hide CallbacksOk, GivenOk, EndInvoke;
    var c0 := c.(queued := c.queued - {f.id});
    SamePending(c, c0);
    ReceivedOk(c, f);
    BoundGiven(c, c0);
    ResultGiven(c0, q.proxy, f.id, f.result);
    EndInvokeFrame(c0, q.proxy, f.id, f.result);
    BoundGiven(EndInvoke(c0, q.proxy, f.id, f.result), OnFrameReceived(c, f));
    assert (c.queued - {f.id})[f.id := q] == c.queued;
  }

  /** The same requests, on the same connection. */
  predicate SameAsking(c: Client, c': Client) {
    && c'.connected == c.connected && c'.ended == c.ended && c'.lastRequest == c.lastRequest && c'.issued == c.issued
    && c'.toHost == c.toHost && c'.madeProxies == c.madeProxies && c'.notices == c.notices
  }

  lemma {:induction false} ResultLink(services: map<nat, Service>, l: Link)
    requires LinkOk(services, l) && l.tried && !l.client.ended && l.toClient != []
    requires var f := l.toClient[0];
             f.InvokeMethodReply? && f.id in l.client.queued && l.client.queued[f.id].QueuedInvoke?
               && l.client.queued[f.id].proxy in l.client.proxies
    ensures LinkOk(services, l.(toClient := l.toClient[1..], client := OnFrameReceived(l.client, l.toClient[0])))
  {
    hide CallbacksOk, FramesOk, TablesOk, GivenOk, AllGotOk, OnFrameReceived;
    var c, f := l.client, l.toClient[0];
    var q := c.queued[f.id];
    assert QueuedFor(c.queued, f.id, q.proxy);
    assert f.id in c.proxies[q.proxy].pending;
    ResultClient(c, f, q);
    var c' := OnFrameReceived(c, f);
    var l' := l.(toClient := l.toClient[1..], client := c');
    TailFrames(services, l, l');
    ResultTables(services, c, c', q.proxy, f.id, f.result.hasMore);
    ResultGot(l, l', q.proxy);
    FreshConnected(l, l');
  }

  lemma {:induction false} FreshConnected(l: Link, l': Link)
    requires FreshOk(l) && l.tried && l'.tried && !l.client.ended && !l'.client.ended
    requires l'.client.notices == l.client.notices
    ensures FreshOk(l')
  {
  }

  lemma {:induction false} EndInvokeFrame(c: Client, proxy: nat, id: nat, r: Result)
    requires proxy in c.proxies
    ensures var c' := EndInvoke(c, proxy, id, r);
            && c'.connected == c.connected && c'.ended == c.ended && c'.lastRequest == c.lastRequest
                 && c'.queued == c.queued && c'.issued == c.issued
            && c'.toHost == c.toHost && c'.madeProxies == c.madeProxies && c'.notices == c.notices
  {
  }

  lemma {:induction false} ReceivedLink(services: map<nat, Service>, l: Link)
    requires LinkOk(services, l) && l.tried && !l.client.ended && l.toClient != []
    ensures LinkOk(services, l.(toClient := l.toClient[1..], client := OnFrameReceived(l.client, l.toClient[0])))
  {
    hide CallbacksOk, GivenOk, KeysOk, AllGotOk, MethodMap, EndInvoke, ToHostOk, DispatchedOk;
    var c, f := l.client, l.toClient[0];
    assert Answers(services, c.issued, f);
    if f.id !in c.queued {
      assert c.queued - {f.id} == c.queued;
      IgnoredLink(services, l, l.(toClient := l.toClient[1..], client := c.(queued := c.queued - {f.id})));
    } else {
      var q := c.queued[f.id];
      assert Fits(q, c.issued[f.id], c.proxies);
      if f.BindServiceReply? {
        BindReplyLink(services, l);
      } else if q.proxy in c.proxies {
        ResultLink(services, l);
      } else {
        IgnoredLink(services, l, l.(toClient := l.toClient[1..], client := c.(queued := c.queued - {f.id})));
      }
    }
  }
}
