/** Every callback given to a proxy gets its results in order and exactly one last one, whatever the host sends. */
module RpcCallbacks {
  import opened Options
  import opened Rpc

  // ---- The invariant --------------------------------------------------------------------------------------

  /** The callback waits at the proxy for the reply to the request. */
  predicate Waits(proxies: map<nat, Proxy>, callback: nat, proxy: nat, id: nat) {
    proxy in proxies && id in proxies[proxy].pending && proxies[proxy].pending[id] == callback
  }

  ghost predicate Waiting(proxies: map<nat, Proxy>, callback: nat) {
    exists proxy: nat, id: nat :: Waits(proxies, callback, proxy, id)
  }

  predicate AllMore(results: seq<Result>) {
    forall i :: 0 <= i < |results| ==> results[i].hasMore
  }

  /** Any number of results that are not the last, and then one that is. */
  predicate Complete(results: seq<Result>) {
    results != [] && !results[|results| - 1].hasMore && AllMore(results[..|results| - 1])
  }

  /** A callback waits in one place at most. */
  ghost predicate OnePlace(proxies: map<nat, Proxy>) {
    forall k: nat, p: nat, i: nat, q: nat, j: nat :: Waits(proxies, k, p, i) && Waits(proxies, k, q, j) ==>
          p == q && i == j
  }

  ghost predicate Recorded(proxies: map<nat, Proxy>, results: map<nat, seq<Result>>, got: map<nat, seq<Result>>,
                           last: nat) {
    forall k: nat, p: nat, i: nat :: Waits(proxies, k, p, i) ==> k in results && i in got && i <= last
  }

  ghost predicate ResultsOk(proxies: map<nat, Proxy>, results: map<nat, seq<Result>>) {
    forall k :: k in results ==> if Waiting(proxies, k) then AllMore(results[k]) else Complete(results[k])
  }

  ghost predicate CallbacksOk(c: Client) {
    && OnePlace(c.proxies) && Recorded(c.proxies, c.results, c.got, c.lastRequest) && ResultsOk(c.proxies, c.results)
  }

  // ---- Parts ----------------------------------------------------------------------------------------------

  lemma {:induction false} CompleteSnoc(results: seq<Result>, r: Result)
    requires AllMore(results)
    ensures if r.hasMore then AllMore(results + [r]) else Complete(results + [r])
  {
  }

  /** The callbacks of other proxies wait as before. */
  lemma {:induction false} SameWaits(before: map<nat, Proxy>, after: map<nat, Proxy>)
    requires before.Keys == after.Keys && forall p :: p in before ==> after[p].pending == before[p].pending
    ensures forall k: nat, p: nat, i: nat :: Waits(after, k, p, i) <==> Waits(before, k, p, i)
  {
  }

  lemma {:induction false} SamePending(c: Client, d: Client)
    requires CallbacksOk(c) && d.results == c.results && d.got == c.got && c.lastRequest <= d.lastRequest
    requires forall k: nat, p: nat, i: nat :: Waits(d.proxies, k, p, i) <==> Waits(c.proxies, k, p, i)
    ensures CallbacksOk(d)
  {
  }

  // ---- Calling --------------------------------------------------------------------------------------------

  lemma {:induction false} RejectedOk(c: Client, callback: Option<nat>)
    requires CallbacksOk(c) && (callback.Some? ==> callback.value !in c.results)
    ensures CallbacksOk(Rejected(c, callback))
  {
  }

  lemma {:induction false} InvokeOk(c: Client, proxy: nat, methodName: string, args: nat, callback: Option<nat>)
    requires CallbacksOk(c) && proxy in c.proxies && (callback.Some? ==> callback.value !in c.results)
    ensures CallbacksOk(Invoke(c, proxy, methodName, args, callback))
  {
    var p, d := c.proxies[proxy], Invoke(c, proxy, methodName, args, callback);
    if p.serviceId == 0 || methodName !in p.methods {
      RejectedOk(c, callback);
    } else if !c.connected {
      SamePending(c, c.(lastRequest := c.lastRequest + 1));
      RejectedOk(c.(lastRequest := c.lastRequest + 1), callback);
    } else if callback.None? {
      assert forall k: nat, q: nat, i: nat :: Waits(d.proxies, k, q, i) ==> Waits(c.proxies, k, q, i);
    } else {
      AskedOk(c, d, proxy, callback.value);
    }
  }

  lemma {:induction false} AskedOk(c: Client, d: Client, proxy: nat, callback: nat)
    requires CallbacksOk(c) && proxy in c.proxies && callback !in c.results
    requires var id := c.lastRequest + 1;
             && d.lastRequest == id && d.got == c.got[id := []] && d.results == c.results[callback := []]
             && d.proxies == c.proxies[proxy := c.proxies[proxy].(pending := c.proxies[proxy].pending[id := callback])]
    ensures CallbacksOk(d)
  {
    var id := c.lastRequest + 1;
    forall k: nat, q: nat, i: nat | Waits(d.proxies, k, q, i)
      ensures (q == proxy && i == id && k == callback) || (Waits(c.proxies, k, q, i) && k in c.results
              && i <= c.lastRequest)
    {
      if !(q == proxy && i == id) {
        assert Waits(c.proxies, k, q, i);
      }
    }
    assert Waits(d.proxies, callback, proxy, id);
    forall k | k in c.results
      ensures Waiting(d.proxies, k) <==> Waiting(c.proxies, k)
    {
      if Waiting(d.proxies, k) {
        var q: nat, i: nat :| Waits(d.proxies, k, q, i);
        assert Waits(c.proxies, k, q, i);
      }
      if Waiting(c.proxies, k) {
        var q: nat, i: nat :| Waits(c.proxies, k, q, i);
        assert i in c.got && i <= c.lastRequest;
        assert Waits(d.proxies, k, q, i);
      }
    }
  }

  // ---- Replies --------------------------------------------------------------------------------------------

  lemma {:induction false} EndInvokeOk(c: Client, proxy: nat, id: nat, result: Result)
    requires CallbacksOk(c) && proxy in c.proxies
    ensures CallbacksOk(EndInvoke(c, proxy, id, result))
  {
    var p, d := c.proxies[proxy], EndInvoke(c, proxy, id, result);
    if id in p.pending {
      var callback := p.pending[id];
      assert Waits(c.proxies, callback, proxy, id);
      CompleteSnoc(c.results[callback], result);
      forall k: nat, q: nat, i: nat | Waits(d.proxies, k, q, i)
        ensures Waits(c.proxies, k, q, i) && (!result.hasMore ==> !(q == proxy && i == id))
      {
      }
      forall k: nat, q: nat, i: nat | Waits(d.proxies, k, q, i)
        ensures !result.hasMore ==> k != callback
      {
        assert Waits(c.proxies, k, q, i);
      }
      forall k | k in d.results
        ensures if Waiting(d.proxies, k) then AllMore(d.results[k]) else Complete(d.results[k])
      {
        if Waiting(c.proxies, k) && (k != callback || result.hasMore) {
          var q: nat, i: nat :| Waits(c.proxies, k, q, i);
          assert Waits(d.proxies, k, q, i);
        }
      }
    }
  }

  lemma {:induction false} ReceivedOk(c: Client, frame: Frame)
    requires CallbacksOk(c)
    ensures CallbacksOk(OnFrameReceived(c, frame))
  {
    hide CallbacksOk, OnBindServiceReply, OnInvokeMethodReply;
    if frame.id in c.queued {
      var q := c.queued[frame.id];
      var c' := c.(queued := c.queued - {frame.id});
      SamePending(c, c');
      if q.QueuedBind? && frame.BindServiceReply? {
        BindReplyOk(c', q.proxy, frame);
      } else if q.QueuedInvoke? && frame.InvokeMethodReply? {
        InvokeReplyOk(c', q, frame);
      }
    }
  }

  lemma {:induction false} BindReplyOk(c: Client, proxy: nat, frame: Frame)
    requires CallbacksOk(c) && frame.BindServiceReply?
    ensures CallbacksOk(OnBindServiceReply(c, proxy, frame))
  {
    hide CallbacksOk, OnBindServiceReply, Waits;
    var d := OnBindServiceReply(c, proxy, frame);
    BindReplyPending(c, proxy, frame);
    SameWaits(c.proxies, d.proxies);
    SamePending(c, d);
  }

  lemma {:induction false} BindReplyPending(c: Client, proxy: nat, frame: Frame)
    requires frame.BindServiceReply?
    ensures var d := OnBindServiceReply(c, proxy, frame);
            && d.results == c.results && d.got == c.got && d.lastRequest == c.lastRequest
            && d.proxies.Keys == c.proxies.Keys && forall p :: p in c.proxies ==>
                   d.proxies[p].pending == c.proxies[p].pending
  {
    hide MethodMap;
  }

  lemma {:induction false} InvokeReplyOk(c: Client, q: Queued, frame: Frame)
    requires CallbacksOk(c) && q.QueuedInvoke? && frame.InvokeMethodReply?
    ensures CallbacksOk(OnInvokeMethodReply(c, q, frame))
  {
    hide CallbacksOk, EndInvoke;
    if q.proxy in c.proxies {
      EndInvokeOk(c, q.proxy, frame.id, frame.result);
      SamePending(EndInvoke(c, q.proxy, frame.id, frame.result), OnInvokeMethodReply(c, q, frame));
    }
  }

  // ---- Letting go -----------------------------------------------------------------------------------------

  /** All that waits at a proxy is rejected and no longer waits. */
  lemma {:induction false} LetGoOk(c: Client, d: Client, proxy: nat)
    requires CallbacksOk(c) && proxy in c.proxies && d.got == c.got && d.lastRequest == c.lastRequest
    requires d.results == RejectedAll(c.results, c.proxies[proxy].pending)
    requires forall k: nat, q: nat, i: nat :: Waits(d.proxies, k, q, i) <==> Waits(c.proxies, k, q, i) && q != proxy
    ensures CallbacksOk(d)
  {
    var pending := c.proxies[proxy].pending;
    forall k | k in d.results
      ensures if Waiting(d.proxies, k) then AllMore(d.results[k]) else Complete(d.results[k])
    {
      if k in pending.Values {
        var i :| i in pending && pending[i] == k;
        assert Waits(c.proxies, k, proxy, i);
        CompleteSnoc(c.results[k], REJECTED);
      } else if Waiting(d.proxies, k) {
        var q: nat, j: nat :| Waits(d.proxies, k, q, j);
        assert Waits(c.proxies, k, q, j);
      }
    }
    forall k: nat, q: nat, i: nat | Waits(d.proxies, k, q, i)
      ensures k in d.results && i in d.got && i <= d.lastRequest
    {
      assert Waits(c.proxies, k, q, i);
    }
    forall k: nat, p: nat, i: nat, q: nat, j: nat | Waits(d.proxies, k, p, i) && Waits(d.proxies, k, q, j)
      ensures p == q && i == j
    {
      assert Waits(c.proxies, k, p, i) && Waits(c.proxies, k, q, j);
    }
  }

  lemma {:induction false} NoneWait(proxies: map<nat, Proxy>, proxy: nat)
    requires proxy in proxies
    ensures var proxies' := proxies[proxy := proxies[proxy].(pending := map[])];
            forall k: nat, q: nat, i: nat :: Waits(proxies', k, q, i) <==> Waits(proxies, k, q, i) && q != proxy
  {
  }

  lemma {:induction false} NoticedOk(c: Client)
    requires CallbacksOk(c) && c.notices != []
    ensures CallbacksOk(Noticed(c))
  {
    hide CallbacksOk, RejectedAll;
    var proxy := c.notices[0];
    if proxy in c.proxies {
      NoneWait(c.proxies, proxy);
      LetGoOk(c, Noticed(c), proxy);
    } else {
      SamePending(c, Noticed(c));
    }
  }

  lemma {:induction false} DestroyedOk(c: Client, proxy: nat)
    requires CallbacksOk(c) && proxy in c.proxies
    ensures CallbacksOk(Destroyed(c, proxy))
  {
    LetGoOk(c, Destroyed(c, proxy), proxy);
  }

  /** Once a proxy has learned of the disconnection or is gone, every callback that waited there has had its
      last result. */
  lemma {:induction false} NoticedCompletes(c: Client, callback: nat, id: nat)
    requires CallbacksOk(c) && c.notices != [] && Waits(c.proxies, callback, c.notices[0], id)
    ensures callback in Noticed(c).results && Complete(Noticed(c).results[callback])
  {
  }

  lemma {:induction false} DestroyedCompletes(c: Client, proxy: nat, callback: nat, id: nat)
    requires CallbacksOk(c) && Waits(c.proxies, callback, proxy, id)
    ensures callback in Destroyed(c, proxy).results && Complete(Destroyed(c, proxy).results[callback])
  {
  }

  // ---- Binding --------------------------------------------------------------------------------------------

  lemma {:induction false} BindOk(c: Client, proxy: nat)
    requires CallbacksOk(c)
    ensures CallbacksOk(Bind(c, proxy))
  {
  }

  lemma {:induction false} BindAllOk(c: Client, proxies: seq<nat>)
    requires CallbacksOk(c)
    ensures CallbacksOk(BindAll(c, proxies))
    decreases |proxies|
  {
    if proxies != [] {
      BindOk(c, proxies[0]);
      BindAllOk(Bind(c, proxies[0]), proxies[1..]);
    }
  }

  lemma {:induction false} NewProxyOk(c: Client, service: string)
    requires CallbacksOk(c) && c.madeProxies !in c.proxies
    ensures CallbacksOk(NewProxy(c, service))
  {
    SamePending(c, NewProxy(c, service));
  }

  // ---- All that a client does -----------------------------------------------------------------------------

  lemma {:induction false} ClientStepOk(h: Host, sock: nat, l: Link, step: Step)
    requires CallbacksOk(l.client) && LinkEnabled(h, sock, l, step)
    requires step.MakeProxy? ==> l.client.madeProxies !in l.client.proxies
    requires IsClientStep(step)
    ensures CallbacksOk(ClientAfter(l, step))
  {
    hide CallbacksOk;
    var c := l.client;
    match step
    case MakeProxy(_, service) => NewProxyOk(c, service);
    case BindProxy(_, proxy) => BindOk(c, proxy);
    case ClientConnects(_) =>
      SamePending(c, c.(connected := true));
      BindAllOk(c.(connected := true), c.queuedBindings);
      SamePending(BindAll(c.(connected := true), c.queuedBindings), Connected(c));
    case ConnectFails(_) => SamePending(c, ConnectFailed(c));
    case Call(_, proxy, methodName, args, callback) => InvokeOk(c, proxy, methodName, args, callback);
    case ClientReceives(_) => ReceivedOk(c, l.toClient[0]);
    case SocketShuts(_) => SamePending(c, Shut(c));
    case ClientDisconnects(_) => SamePending(c, Disconnected(c));
    case ProxyNoticed(_) => NoticedOk(c);
    case DestroyProxy(_, proxy) => DestroyedOk(c, proxy);
  }

  /** What a callback has been given stays, and once it has had its last result it gets nothing more. */
  predicate Grows(before: map<nat, seq<Result>>, after: map<nat, seq<Result>>) {
    forall k :: k in before ==> k in after && before[k] <= after[k] && (Complete(before[k]) ==> after[k] == before[k])
  }

  lemma {:induction false} LetGoGrows(c: Client, proxy: nat)
    requires CallbacksOk(c) && proxy in c.proxies
    ensures Grows(c.results, RejectedAll(c.results, c.proxies[proxy].pending))
  {
    var pending := c.proxies[proxy].pending;
    forall k | k in c.results && k in pending.Values
      ensures !Complete(c.results[k])
    {
      var i :| i in pending && pending[i] == k;
      assert Waits(c.proxies, k, proxy, i);
    }
  }

  lemma {:induction false} EndInvokeGrows(c: Client, proxy: nat, id: nat, result: Result)
    requires CallbacksOk(c) && proxy in c.proxies
    ensures Grows(c.results, EndInvoke(c, proxy, id, result).results)
  {
    if id in c.proxies[proxy].pending {
      assert Waits(c.proxies, c.proxies[proxy].pending[id], proxy, id);
    }
  }

  lemma {:induction false} BindAllResults(c: Client, proxies: seq<nat>)
    ensures BindAll(c, proxies).results == c.results
    decreases |proxies|
  {
    if proxies != [] {
      BindAllResults(Bind(c, proxies[0]), proxies[1..]);
    }
  }

  lemma {:induction false} ReceivedGrows(c: Client, frame: Frame)
    requires CallbacksOk(c)
    ensures Grows(c.results, OnFrameReceived(c, frame).results)
  {
    hide CallbacksOk, EndInvoke, MethodMap, Complete;
    if frame.id in c.queued && c.queued[frame.id].QueuedInvoke? && frame.InvokeMethodReply?
        && c.queued[frame.id].proxy in c.proxies {
      var c' := c.(queued := c.queued - {frame.id});
      SamePending(c, c');
      EndInvokeGrows(c', c.queued[frame.id].proxy, frame.id, frame.result);
    }
  }

  lemma {:induction false} InvokeGrows(c: Client, proxy: nat, methodName: string, args: nat, callback: Option<nat>)
    requires proxy in c.proxies && (callback.Some? ==> callback.value !in c.results)
    ensures Grows(c.results, Invoke(c, proxy, methodName, args, callback).results)
  {
    hide Complete, Grows;
    SameResults(c.results);
    InvokeResults(c, proxy, methodName, args, callback);
    if callback.Some? {
      var results := Invoke(c, proxy, methodName, args, callback).results;
      NewCallback(c.results, callback.value, results[callback.value]);
    }
  }

  lemma {:induction false} InvokeResults(c: Client, proxy: nat, methodName: string, args: nat, callback: Option<nat>)
    requires proxy in c.proxies
    ensures var results := Invoke(c, proxy, methodName, args, callback).results;
            if callback.None? then results == c.results
            else callback.value in results && results == c.results[callback.value := results[callback.value]]
  {
  }

  lemma {:induction false} NewCallback(results: map<nat, seq<Result>>, k: nat, given: seq<Result>)
    requires k !in results
    ensures Grows(results, results[k := given])
  {
    hide Complete;
  }

  lemma {:induction false} NoticedGrows(c: Client)
    requires CallbacksOk(c) && c.notices != []
    ensures Grows(c.results, Noticed(c).results)
  {
    hide CallbacksOk, RejectedAll, Complete;
    if c.notices[0] in c.proxies {
      LetGoGrows(c, c.notices[0]);
    }
  }

  lemma {:induction false} ConnectedGrows(c: Client)
    ensures Grows(c.results, Connected(c).results)
  {
    hide BindAll, Complete;
    BindAllResults(c.(connected := true), c.queuedBindings);
  }

  lemma {:induction false} SameResults(results: map<nat, seq<Result>>)
    ensures Grows(results, results)
  {
  }

  lemma {:induction false} ClientStepGrows(h: Host, sock: nat, l: Link, step: Step)
    requires CallbacksOk(l.client) && LinkEnabled(h, sock, l, step)
    requires IsClientStep(step)
    ensures Grows(l.client.results, ClientAfter(l, step).results)
  {
    hide CallbacksOk, Grows, Invoke, OnFrameReceived, Noticed, Connected, RejectedAll;
    var c := l.client;
    SameResults(c.results);
    match step
    case MakeProxy(_, service) =>
    case BindProxy(_, proxy) =>
    case ClientConnects(_) => ConnectedGrows(c);
    case ConnectFails(_) =>
    case Call(_, proxy, methodName, args, callback) => InvokeGrows(c, proxy, methodName, args, callback);
    case ClientReceives(_) => ReceivedGrows(c, l.toClient[0]);
    case SocketShuts(_) =>
    case ClientDisconnects(_) =>
    case ProxyNoticed(_) => NoticedGrows(c);
    case DestroyProxy(_, proxy) => LetGoGrows(c, proxy);
  }
}
