/** The two ends of the protocol as they are programmed: objects that each event changes. */
module RpcEndpoints {
  import opened Options
  import opened Ordering
  import opened Rpc
  import opened RpcCallbacks
  import opened RpcEffects
  import opened RpcNotices
  import opened RpcSafety
  import opened RpcSystem

  /** Only a callback that waits for the frame may have been given something: the frame's result. */
  ghost predicate OnlyAnswered(c: Client, c': Client, frame: Frame) {
    && c'.results.Keys == c.results.Keys
    && forall k :: k in c.results ==>
         || c'.results[k] == c.results[k]
         || (&& frame.InvokeMethodReply? && c'.results[k] == c.results[k] + [frame.result]
             && exists p :: Waits(c.proxies, k, p, frame.id))
  }

  lemma {:induction false} ReceivedAnswers(c: Client, frame: Frame)
    ensures OnlyAnswered(c, OnFrameReceived(c, frame), frame)
  {
    hide OnBindServiceReply, OnInvokeMethodReply;
    if frame.id in c.queued {
      var q, c1 := c.queued[frame.id], c.(queued := c.queued - {frame.id});
      if q.QueuedBind? && frame.BindServiceReply? {
        BindReplyPending(c1, q.proxy, frame);
      } else if q.QueuedInvoke? && frame.InvokeMethodReply? {
        ReplyAnswers(c1, q, frame);
      }
    }
  }

  lemma {:induction false} ReplyAnswers(c: Client, q: Queued, frame: Frame)
    requires q.QueuedInvoke? && frame.InvokeMethodReply?
    ensures OnlyAnswered(c, OnInvokeMethodReply(c, q, frame), frame)
  {
    if q.proxy in c.proxies && frame.id in c.proxies[q.proxy].pending {
      assert Waits(c.proxies, c.proxies[q.proxy].pending[frame.id], q.proxy, frame.id);
    }
  }

  /** A callback waits in one place, or has had exactly one last result and gets no more; and it waits only
      where it will be told of a disconnection. */
  ghost predicate ClientOk(c: Client) {
    CallbacksOk(c) && Told(c) && Numbered(c)
  }

  /** The numbers of requests go up. */
  predicate Numbered(c: Client) {
    && (forall id :: id in c.issued ==> id <= c.lastRequest)
    && (forall id :: id in c.got ==> id <= c.lastRequest)
    && (forall id :: id in c.queued ==> id <= c.lastRequest)
  }

  lemma {:induction false} SameNumbered(c: Client, c': Client)
    requires Numbered(c) && c.lastRequest <= c'.lastRequest
    requires c'.issued.Keys <= c.issued.Keys && c'.got.Keys <= c.got.Keys && c'.queued.Keys <= c.queued.Keys
    ensures Numbered(c')
  {
    assert forall id :: id in c'.issued ==> id in c.issued.Keys;
    assert forall id :: id in c'.got ==> id in c.got.Keys;
    assert forall id :: id in c'.queued ==> id in c.queued.Keys;
  }

  lemma {:induction false} BindNumbered(c: Client, proxy: nat)
    requires Numbered(c)
    ensures Numbered(Bind(c, proxy))
  {
  }

  lemma {:induction false} InvokeNumbered(c: Client, proxy: nat, methodName: string, args: nat, callback: Option<nat>)
    requires Numbered(c) && proxy in c.proxies
    ensures Numbered(Invoke(c, proxy, methodName, args, callback))
  {
    hide Invoke, Asked, Numbered;
    var c' := Invoke(c, proxy, methodName, args, callback);
    InvokeAsks(c, proxy, methodName, args, callback);
    if c.proxies[proxy].serviceId == 0 || methodName !in c.proxies[proxy].methods {
      SameNumbered(c, c');
    } else {
      AskedNumbered(c, proxy, methodName, args, callback);
      SameNumbered(Asked(c, proxy, methodName, args, callback), c');
    }
  }

  lemma {:induction false} AskedNumbered(c: Client, proxy: nat, methodName: string, args: nat, callback: Option<nat>)
    requires Numbered(c) && proxy in c.proxies && methodName in c.proxies[proxy].methods
    ensures Numbered(Asked(c, proxy, methodName, args, callback))
  {
  }

  lemma {:induction false} ReplyNumbered(c: Client, q: Queued, frame: Frame)
    requires Numbered(c) && q.QueuedInvoke? && frame.InvokeMethodReply? && frame.id <= c.lastRequest
    ensures Numbered(OnInvokeMethodReply(c, q, frame))
  {
  }

  lemma {:induction false} BindReplyNumbered(c: Client, proxy: nat, frame: Frame)
    requires Numbered(c) && frame.BindServiceReply?
    ensures Numbered(OnBindServiceReply(c, proxy, frame))
  {
    hide MethodMap;
  }

  lemma {:induction false} EndInvokeNumbered(c: Client, proxy: nat, id: nat, result: Result)
    requires Numbered(c) && proxy in c.proxies
    ensures Numbered(EndInvoke(c, proxy, id, result))
  {
  }

  lemma {:induction false} NoticedNumbered(c: Client)
    requires Numbered(c) && c.notices != []
    ensures Numbered(Noticed(c))
  {
    hide RejectedAll;
  }

  lemma {:induction false} NewKeeps()
    ensures ClientOk(NEW_CLIENT)
  {
  }

  lemma {:induction false} NewProxyKeeps(c: Client, service: string)
    requires ClientOk(c)
    ensures ClientOk(NewProxy(c, service)) && c.madeProxies !in c.proxies
  {
    hide CallbacksOk, Numbered;
    NewProxyOk(c, service);
    NewProxyTold(c, service);
    SameNumbered(c, NewProxy(c, service));
  }

  lemma {:induction false} BindKeeps(c: Client, proxy: nat)
    requires ClientOk(c)
    ensures ClientOk(Bind(c, proxy))
  {
    hide CallbacksOk, Told, Numbered;
    BindOk(c, proxy);
    SameTold(c, Bind(c, proxy));
    BindNumbered(c, proxy);
  }

  /** A call that is sent, if it can be, and queued if a reply is wanted. */
  function Asked(c: Client, proxy: nat, methodName: string, args: nat, callback: Option<nat>): (c': Client)
    requires proxy in c.proxies && methodName in c.proxies[proxy].methods
    ensures c'.proxies == c.proxies && c'.results == c.results
  {
    var p, id := c.proxies[proxy], c.lastRequest + 1;
    if !c.connected then c.(lastRequest := id)
    else c.(lastRequest := id,
            toHost := c.toHost + [InvokeMethod(id, p.serviceId, p.methods[methodName], args, callback.None?)],
            issued := c.issued[id := InvokeRequest(p.service, methodName, args, callback)],
            got := c.got[id := []],
            queued := if callback.None? then c.queued else c.queued[id := QueuedInvoke(proxy, methodName)])
  }

  /** Sending a call keeps the invariant, and its number was not used before. */
  lemma {:induction false} AskedKeeps(c: Client, proxy: nat, methodName: string, args: nat, callback: Option<nat>)
    requires ClientOk(c) && proxy in c.proxies && methodName in c.proxies[proxy].methods
    ensures ClientOk(Asked(c, proxy, methodName, args, callback))
    ensures c.lastRequest + 1 !in c.issued && c.lastRequest + 1 !in c.got && c.lastRequest + 1 !in c.queued
  {
    hide OnePlace, ResultsOk, ToldOf;
  }

  lemma {:induction false} InvokeAsks(c: Client, proxy: nat, methodName: string, args: nat, callback: Option<nat>)
    requires proxy in c.proxies
    ensures var p, c' := c.proxies[proxy], Invoke(c, proxy, methodName, args, callback);
            if p.serviceId == 0 || methodName !in p.methods then c' == Rejected(c, callback)
            else
              var asked := Asked(c, proxy, methodName, args, callback);
              if !c.connected || callback.None? then c' == (if c.connected then asked else Rejected(asked, callback))
              else c' == Awaited(asked, proxy, c.lastRequest + 1, callback.value)
  {
  }

  function Awaited(c: Client, proxy: nat, id: nat, callback: nat): Client
    requires proxy in c.proxies
  {
    var p := c.proxies[proxy];
    c.(proxies := c.proxies[proxy := p.(pending := p.pending[id := callback])], results := c.results[callback := []])
  }

  /** What the invariant does not speak of. */
  lemma {:induction false} SameKeeps(c: Client, c': Client)
    requires ClientOk(c) && c'.results == c.results && c'.got == c.got && c'.lastRequest == c.lastRequest
    requires c'.proxies == c.proxies && c'.bindings == c.bindings && c'.madeProxies == c.madeProxies
    requires c'.notices == c.notices && c'.ended == c.ended && (c'.connected ==> c.connected || !c.ended)
    requires c'.issued == c.issued && c'.queued.Keys <= c.queued.Keys
    ensures ClientOk(c')
  {
    hide CallbacksOk, Numbered;
    SamePending(c, c');
    SameNumbered(c, c');
  }

  lemma {:induction false} InvokeKeeps(c: Client, proxy: nat, methodName: string, args: nat, callback: Option<nat>)
    requires ClientOk(c) && proxy in c.proxies && (callback.Some? ==> callback.value !in c.results)
    ensures var c' := Invoke(c, proxy, methodName, args, callback);
            ClientOk(c') && Grows(c.results, c'.results) && (callback.Some? ==> callback.value in c'.results)
  {
    hide CallbacksOk, Told, Grows, Invoke, Numbered;
    InvokeOk(c, proxy, methodName, args, callback);
    InvokeTold(c, proxy, methodName, args, callback);
    InvokeGrows(c, proxy, methodName, args, callback);
    InvokeResults(c, proxy, methodName, args, callback);
    InvokeNumbered(c, proxy, methodName, args, callback);
  }

  lemma {:induction false} BindReplyKeeps(c: Client, proxy: nat, frame: Frame)
    requires ClientOk(c) && frame.BindServiceReply?
    ensures ClientOk(OnBindServiceReply(c, proxy, frame))
  {
    hide CallbacksOk, Told, OnBindServiceReply, Numbered;
    BindReplyOk(c, proxy, frame);
    BindReplyTold(c, proxy, frame);
    BindReplyNumbered(c, proxy, frame);
  }

  lemma {:induction false} InvokeReplyKeeps(c: Client, q: Queued, frame: Frame)
    requires ClientOk(c) && q.QueuedInvoke? && frame.InvokeMethodReply? && frame.id <= c.lastRequest
    ensures ClientOk(OnInvokeMethodReply(c, q, frame))
  {
    hide CallbacksOk, Told, OnInvokeMethodReply, Numbered;
    InvokeReplyOk(c, q, frame);
    InvokeReplyTold(c, q, frame);
    ReplyNumbered(c, q, frame);
  }

  lemma {:induction false} ReceivedKeeps(c: Client, frame: Frame)
    requires ClientOk(c)
    ensures Grows(c.results, OnFrameReceived(c, frame).results) && OnlyAnswered(c, OnFrameReceived(c, frame), frame)
    ensures frame.id in c.queued ==> frame.id <= c.lastRequest
  {
    hide CallbacksOk, Told, Grows, OnlyAnswered, OnFrameReceived;
    ReceivedGrows(c, frame);
    ReceivedAnswers(c, frame);
  }

  lemma {:induction false} ConnectedAsks(c: Client)
    ensures AllAsked(c.(connected := true), c.queuedBindings, Connected(c)) && Connected(c).connected
  {
    hide BindAll;
    AllAreAsked(c.(connected := true), c.queuedBindings);
  }

  lemma {:induction false} ReceivedTakes(c: Client, frame: Frame)
    requires ClientOk(c)
    ensures AwaitsBinding(c, frame) ==> BindTaken(c, frame, OnFrameReceived(c, frame))
    ensures AwaitsResult(c, frame) ==> ResultTaken(c, frame, OnFrameReceived(c, frame))
  {
    hide CallbacksOk, Told, BindTaken, ResultTaken, OnFrameReceived;
    if AwaitsBinding(c, frame) {
      BindIsTaken(c, frame);
    }
    if AwaitsResult(c, frame) {
      ResultIsTaken(c, frame);
    }
  }

  lemma {:induction false} EndInvokeKeeps(c: Client, proxy: nat, id: nat, result: Result)
    requires ClientOk(c) && proxy in c.proxies
    ensures ClientOk(EndInvoke(c, proxy, id, result))
    ensures id in c.proxies[proxy].pending ==> Ended(c, proxy, id, result)
  {
    hide CallbacksOk, Told, EndInvoke, Ended, Numbered;
    EndInvokeOk(c, proxy, id, result);
    EndInvokeTold(c, proxy, id, result);
    EndInvokeNumbered(c, proxy, id, result);
    if id in c.proxies[proxy].pending {
      EndInvokeEnds(c, proxy, id, result);
    }
  }

  /** Once a client has learnt that its connection is gone, callbacks wait only at proxies that will be told. */
  lemma {:induction false} DisconnectedKeeps(c: Client)
    requires ClientOk(c)
    ensures var c' := Disconnected(c);
            ClientOk(c') && forall p :: p in c'.proxies && c'.proxies[p].pending != map[] ==> p in c'.notices
  {
    hide CallbacksOk, Told, InOrder, Numbered;
    SameNumbered(c, Disconnected(c));
    SamePending(c, Disconnected(c));
    DisconnectedTold(c);
    EndedTold(Disconnected(c));
  }

  /** Every proxy that is bound is told, once for each service. */
  lemma {:induction false} AllNoticed(bindings: map<nat, nat>)
    ensures var posted := BoundProxies(bindings, InOrder(bindings.Keys));
            |posted| == |bindings| && forall s :: s in bindings ==> bindings[s] in posted
  {
    hide InOrder;
    var services := InOrder(bindings.Keys);
    var posted := BoundProxies(bindings, services);
    forall s | s in bindings
      ensures bindings[s] in posted
    {
      assert s in services;
      var i :| 0 <= i < |services| && services[i] == s;
      assert posted[i] == bindings[s];
    }
    assert |bindings.Keys| == |bindings|;
  }

  /** All that waited at a proxy has had its last result. */
  ghost predicate LetGo(c: Client, proxy: nat, results: map<nat, seq<Result>>) {
    Grows(c.results, results) && forall k, id :: Waits(c.proxies, k, proxy, id) ==> k in results && Complete(results[k])
  }

  lemma {:induction false} NoticedKeeps(c: Client)
    requires ClientOk(c) && c.notices != []
    ensures ClientOk(Noticed(c)) && LetGo(c, c.notices[0], Noticed(c).results)
  {
    hide CallbacksOk, Told, Grows, Complete, Noticed, Numbered;
    NoticedOk(c);
    NoticedTold(c);
    NoticedNumbered(c);
    NoticedGrows(c);
    forall k, id | Waits(c.proxies, k, c.notices[0], id)
      ensures k in Noticed(c).results && Complete(Noticed(c).results[k])
    {
      NoticedCompletes(c, k, id);
    }
  }

  lemma {:induction false} DestroyedKeeps(c: Client, proxy: nat)
    requires ClientOk(c) && proxy in c.proxies
    ensures ClientOk(Destroyed(c, proxy)) && LetGo(c, proxy, Destroyed(c, proxy).results)
  {
    hide CallbacksOk, Told, Grows, Complete, RejectedAll, Numbered;
    DestroyedOk(c, proxy);
    DestroyedTold(c, proxy);
    SameNumbered(c, Destroyed(c, proxy));
    LetGoGrows(c, proxy);
    forall k, id | Waits(c.proxies, k, proxy, id)
      ensures k in Destroyed(c, proxy).results && Complete(Destroyed(c, proxy).results[k])
    {
      DestroyedCompletes(c, proxy, k, id);
    }
  }

  lemma {:induction false} EndedTold(c: Client)
    requires Told(c) && c.ended
    ensures forall p :: p in c.proxies && c.proxies[p].pending != map[] ==> p in c.notices
  {
  }

  lemma {:induction false} EndInvokeTold(c: Client, proxy: nat, id: nat, result: Result)
    requires Told(c) && proxy in c.proxies
    ensures Told(EndInvoke(c, proxy, id, result))
  {
    hide ToldOf;
    PendingChanges(c.ended, c.bindings, c.proxies, c.notices, proxy, c.proxies[proxy].pending - {id});
  }

  /** The callback that waits for a request is given its result and goes on waiting exactly if more is to come. */
  ghost predicate Ended(c: Client, proxy: nat, id: nat, result: Result)
    requires proxy in c.proxies && id in c.proxies[proxy].pending
  {
    var k, c' := c.proxies[proxy].pending[id], EndInvoke(c, proxy, id, result);
    && k in c.results && id in c.got && c'.results == c.results[k := c.results[k] + [result]]
    && if result.hasMore then Waits(c'.proxies, k, proxy, id) else !Waiting(c'.proxies, k) && Complete(c'.results[k])
  }

  lemma {:induction false} EndInvokeEnds(c: Client, proxy: nat, id: nat, result: Result)
    requires CallbacksOk(c) && proxy in c.proxies && id in c.proxies[proxy].pending
    ensures Ended(c, proxy, id, result)
  {
    var k, c' := c.proxies[proxy].pending[id], EndInvoke(c, proxy, id, result);
    assert Waits(c.proxies, k, proxy, id);
    CompleteSnoc(c.results[k], result);
    forall p, i | Waits(c'.proxies, k, p, i)
      ensures result.hasMore
    {
      assert Waits(c.proxies, k, p, i);
    }
  }

  // ---- The client -----------------------------------------------------------------------------------------

  class ClientImpl {
    var connected: bool
    var ended: bool
    var lastRequestId: nat
    var queuedRequests: map<nat, Queued>
    var serviceBindings: map<nat, nat>
    var queuedBindings: seq<nat>
    var notices: seq<nat>
    var proxies: map<nat, Proxy>
    var madeProxies: nat
    var toHost: seq<Frame>
    /** What was asked, handed on and given so far. */
    var issued: map<nat, Request>
    var got: map<nat, seq<Result>>
    var results: map<nat, seq<Result>>

    ghost function View(): Client
      reads this
    {
      Client(connected, ended, lastRequestId, queuedRequests, serviceBindings, queuedBindings, notices, proxies,
             madeProxies, toHost, issued, got, results)
    }

    ghost predicate Valid()
      reads this
    {
      ClientOk(View())
    }

    constructor ()
      ensures View() == NEW_CLIENT && Valid()
    {
      NewKeeps();
      connected, ended, lastRequestId := false, false, 0;
      queuedRequests, serviceBindings, queuedBindings, notices := map[], map[], [], [];
      proxies, madeProxies := map[], 0;
      toHost, issued, got, results := [], map[], map[], map[];
    }

    method MakeProxy(service: string) returns (proxy: nat)
      requires Valid()
      modifies this
      ensures View() == NewProxy(old(View()), service) && proxy == old(madeProxies)
      ensures Valid() && ProxyMade(old(View()), service, proxy, View())
    {
      hide ClientOk;
      NewProxyKeeps(View(), service);
      proxy := madeProxies;
      proxies := proxies[proxy := Proxy(service, 0, map[], map[])];
      madeProxies := madeProxies + 1;
    }

    /** A frame can be sent exactly while the socket is connected. */
    method SendFrame(frame: Frame) returns (sent: bool)
      modifies this`toHost
      ensures sent == connected && toHost == if sent then old(toHost) + [frame] else old(toHost)
    {
      if connected {
        toHost := toHost + [frame];
      }
      sent := connected;
    }

    method BindService(proxy: nat)
      requires Valid()
      modifies this
      ensures View() == Bind(old(View()), proxy) && Valid() && BindAsked(old(View()), proxy, View())
    {
      hide ClientOk, BindAsked;
      BindKeeps(View(), proxy);
      BindIsAsked(View(), proxy);
      if proxy !in proxies {
        return;
      }
      if !connected {
        queuedBindings := queuedBindings + [proxy];
        return;
      }
      lastRequestId := lastRequestId + 1;
      var requestId, service := lastRequestId, proxies[proxy].service;
      var sent := SendFrame(Frame.BindService(requestId, service));
      issued := issued[requestId := BindRequest(proxy, service)];
      queuedRequests := queuedRequests[requestId := QueuedBind(proxy)];
    }

    /** The socket is connected: what was asked for before is asked now. */
    method OnConnect(success: bool)
      requires Valid() && !ended
      modifies this
      ensures View() == if success then Connected(old(View())) else ConnectFailed(old(View()))
      ensures Valid() && Grows(old(results), results) && queuedBindings == []
      ensures connected == (success || old(connected))
      ensures if success then AllAsked(old(View()).(connected := true), old(queuedBindings), View())
              else toHost == old(toHost)
    {
      hide ClientOk, Grows, AllAsked, BindAsked;
      SameResults(results);
      if !success {
        SameKeeps(View(), ConnectFailed(View()));
        queuedBindings := [];
        return;
      }
      SameKeeps(View(), View().(connected := true));
      ConnectedGrows(View());
      ConnectedAsks(View());
      connected := true;
      var waiting := queuedBindings;
      ghost var start := View();
      assert waiting[0..] == waiting;
      for i := 0 to |waiting|
        invariant Valid() && BindAll(start, waiting) == BindAll(View(), waiting[i..])
      {
        assert waiting[i..][1..] == waiting[i + 1..];
        BindService(waiting[i]);
      }
      SameKeeps(View(), View().(queuedBindings := []));
      queuedBindings := [];
    }

    /** The socket is shut. */
    method OnShut()
      requires Valid()
      modifies this
      ensures View() == Shut(old(View())) && Valid() && !connected
    {
      hide ClientOk;
      SameKeeps(View(), Shut(View()));
      connected := false;
    }

    /** The host reads the next frame from the socket. */
    method TakeFrame() returns (frame: Frame)
      requires Valid() && toHost != []
      modifies this
      ensures Valid() && [frame] + toHost == old(toHost) && View() == old(View()).(toHost := toHost)
    {
      hide ClientOk;
      SameKeeps(View(), View().(toHost := toHost[1..]));
      frame := toHost[0];
      toHost := toHost[1..];
    }

    /** Sends a call, under a number not used before, and returns it, or 0 if there will be no reply. */
    method BeginInvoke(proxy: nat, methodName: string, args: nat, callback: Option<nat>) returns (requestId: nat)
      requires Valid() && proxy in proxies && methodName in proxies[proxy].methods
      modifies this`lastRequestId, this`toHost, this`issued, this`got, this`queuedRequests
      ensures View() == Asked(old(View()), proxy, methodName, args, callback) && Valid()
      ensures lastRequestId !in old(issued) && lastRequestId !in old(got) && lastRequestId !in old(queuedRequests)
      ensures requestId == if connected && callback.Some? then old(lastRequestId) + 1 else 0
    {
      hide ClientOk;
      AskedKeeps(View(), proxy, methodName, args, callback);
      var p := proxies[proxy];
      lastRequestId := lastRequestId + 1;
      var sent := SendFrame(InvokeMethod(lastRequestId, p.serviceId, p.methods[methodName], args, callback.None?));
      if !sent {
        return 0;
      }
      issued := issued[lastRequestId := InvokeRequest(p.service, methodName, args, callback)];
      got := got[lastRequestId := []];
      if callback.None? {
        return 0;
      }
      queuedRequests := queuedRequests[lastRequestId := QueuedInvoke(proxy, methodName)];
      requestId := lastRequestId;
    }

    /** The call as the proxy makes it: the callback waits at the proxy, or is rejected. */
    method ProxyBeginInvoke(proxy: nat, methodName: string, args: nat, callback: Option<nat>)
      requires Valid() && proxy in proxies && (callback.Some? ==> callback.value !in results)
      modifies this
      ensures View() == Invoke(old(View()), proxy, methodName, args, callback) && Valid()
      ensures Grows(old(results), results) && (callback.Some? ==> callback.value in results)
      ensures CallMade(old(View()), proxy, methodName, args, callback, View())
    {
      hide ClientOk, Grows, Invoke, Asked, Awaited, CallMade;
      CallIsMade(View(), proxy, methodName, args, callback);
      InvokeKeeps(View(), proxy, methodName, args, callback);
      InvokeAsks(View(), proxy, methodName, args, callback);
      var p := proxies[proxy];
      var requestId := 0;
      if p.serviceId != 0 && methodName in p.methods {
        requestId := BeginInvoke(proxy, methodName, args, callback);
      }
      if requestId != 0 {
        Await(proxy, requestId, callback.value);
      } else if callback.Some? {
        RejectNow(callback.value);
      }
    }

    method RejectNow(callback: nat)
      modifies this`results
      ensures View() == Rejected(old(View()), Some(callback))
    {
      results := results[callback := [REJECTED]];
    }

    /** The callback waits at the proxy for the reply to a request. */
    method Await(proxy: nat, requestId: nat, callback: nat)
      requires proxy in proxies
      modifies this`results, this`proxies
      ensures View() == Awaited(old(View()), proxy, requestId, callback)
    {
      var p := proxies[proxy];
      results := results[callback := []];
      proxies := proxies[proxy := p.(pending := p.pending[requestId := callback])];
    }

    /** Whatever frame comes, each callback keeps what it was given, and only one that waits for this frame is
        given more: the frame's result. */
    method OnReceived(frame: Frame)
      requires Valid()
      modifies this
      ensures View() == OnFrameReceived(old(View()), frame) && Valid()
      ensures Grows(old(results), results) && OnlyAnswered(old(View()), View(), frame)
      ensures frame.id !in old(queuedRequests) ==> View() == old(View())
      ensures AwaitsBinding(old(View()), frame) ==> BindTaken(old(View()), frame, View())
      ensures AwaitsResult(old(View()), frame) ==> ResultTaken(old(View()), frame, View())
    {
      hide ClientOk, Grows, OnlyAnswered, OnBindServiceReply, OnInvokeMethodReply, BindTaken, ResultTaken;
      ReceivedKeeps(View(), frame);
      ReceivedTakes(View(), frame);
      if frame.id !in queuedRequests {
        return;
      }
      var q := queuedRequests[frame.id];
      SameKeeps(View(), View().(queued := queuedRequests - {frame.id}));
      queuedRequests := queuedRequests - {frame.id};
      if q.QueuedBind? && frame.BindServiceReply? {
        OnBindReply(q.proxy, frame);
      } else if q.QueuedInvoke? && frame.InvokeMethodReply? {
        OnInvokeReply(q, frame);
      }
    }

    method OnBindReply(proxy: nat, frame: Frame)
      requires Valid() && frame.BindServiceReply?
      modifies this
      ensures View() == OnBindServiceReply(old(View()), proxy, frame) && Valid()
    {
      hide ClientOk, MethodMap;
      BindReplyKeeps(View(), proxy, frame);
      if proxy !in proxies || !frame.success {
        return;
      }
      if frame.serviceId in serviceBindings && serviceBindings[frame.serviceId] in proxies {
        return;
      }
      var methods := ReadMethods(frame.methods);
      proxies := proxies[proxy := proxies[proxy].(serviceId := frame.serviceId, methods := methods)];
      serviceBindings := serviceBindings[frame.serviceId := proxy];
    }

    method OnInvokeReply(q: Queued, frame: Frame)
      requires Valid() && q.QueuedInvoke? && frame.InvokeMethodReply? && frame.id <= lastRequestId
      modifies this
      ensures View() == OnInvokeMethodReply(old(View()), q, frame) && Valid()
    {
      hide ClientOk, EndInvoke;
      InvokeReplyKeeps(View(), q, frame);
      if q.proxy !in proxies {
        return;
      }
      ProxyEndInvoke(q.proxy, frame.id, frame.result);
      if frame.result.hasMore {
        queuedRequests := queuedRequests[frame.id := q];
      }
    }

    /** The callback that waits for the request, if there is one, is given the result; it goes on waiting exactly
        if more is to come. No other callback is given anything. */
    method ProxyEndInvoke(proxy: nat, requestId: nat, result: Result)
      requires Valid() && proxy in proxies
      modifies this
      ensures View() == EndInvoke(old(View()), proxy, requestId, result) && Valid()
      ensures if requestId in old(proxies)[proxy].pending then Ended(old(View()), proxy, requestId, result)
              else results == old(results) && proxies == old(proxies)
    {
      hide ClientOk, Complete;
      EndInvokeKeeps(View(), proxy, requestId, result);
      var p := proxies[proxy];
      if requestId !in p.pending || p.pending[requestId] !in results || requestId !in got {
        return;
      }
      var callback := p.pending[requestId];
      results := results[callback := results[callback] + [result]];
      got := got[requestId := got[requestId] + [result]];
      if !result.hasMore {
        proxies := proxies[proxy := p.(pending := p.pending - {requestId})];
      }
    }

    /** The connection is gone: every bound proxy is going to be told. */
    method OnDisconnect()
      requires Valid()
      modifies this
      ensures View() == Disconnected(old(View())) && Valid() && ended && !connected && proxies == old(proxies)
      ensures forall p :: p in proxies && proxies[p].pending != map[] ==> p in notices
      ensures |notices| == |old(notices)| + |old(serviceBindings)| && serviceBindings == map[] && queuedBindings == []
      ensures forall s :: s in old(serviceBindings) ==> old(serviceBindings)[s] in notices
    {
      hide InOrder, ClientOk;
      DisconnectedKeeps(View());
      AllNoticed(serviceBindings);
      connected, ended := false, true;
      var services := InOrder(serviceBindings.Keys);
      var posted: seq<nat> := [];
      for i := 0 to |services|
        invariant posted == BoundProxies(serviceBindings, services)[..i]
        invariant View() == old(View()).(connected := false, ended := true)
      {
        assert services[i] in services;
        posted := posted + [serviceBindings[services[i]]];
      }
      notices := notices + posted;
      serviceBindings, queuedBindings := map[], [];
    }

    /** A proxy learns of it. */
    method RunNotice()
      requires Valid() && notices != []
      modifies this`notices, this`results, this`proxies
      ensures View() == Noticed(old(View())) && Valid() && LetGo(old(View()), old(notices)[0], results)
      ensures notices == old(notices)[1..] && proxies.Keys == old(proxies).Keys
    {
      hide ClientOk, LetGo, RejectedAll;
      NoticedKeeps(View());
      var proxy := notices[0];
      notices := notices[1..];
      if proxy in proxies {
        var p := proxies[proxy];
        var rejected := RejectPending(results, p.pending);
        results, proxies := rejected, proxies[proxy := p.(pending := map[])];
      }
    }

    method DestroyProxy(proxy: nat)
      requires Valid() && proxy in proxies
      modifies this
      ensures View() == Destroyed(old(View()), proxy) && Valid() && LetGo(old(View()), proxy, results)
      ensures proxies == old(proxies) - {proxy} && toHost == old(toHost)
    {
      hide ClientOk, LetGo, RejectedAll;
      DestroyedKeeps(View(), proxy);
      var p := proxies[proxy];
      var rejected := RejectPending(results, p.pending);
      if p.serviceId != 0 {
        serviceBindings := serviceBindings - {p.serviceId};
      }
      results, proxies := rejected, proxies - {proxy};
    }
  }

  /** The numbers of a service's methods, by name. */
  method ReadMethods(infos: seq<MethodInfo>) returns (methods: map<string, nat>)
    ensures methods == MethodMap(infos) && Reads(infos, methods)
  {
    hide Reads;
    MethodMapReads(infos);
    methods := map[];
    for i := 0 to |infos|
      invariant methods == MethodMap(infos[..i])
    {
      assert infos[..i + 1][..i] == infos[..i];
      if infos[i].name != [] && infos[i].id > 0 {
        methods := methods[infos[i].name := infos[i].id];
      }
    }
    assert infos[..|infos|] == infos;
  }

  /** Rejects the callbacks that wait, one after the other. */
  method RejectPending(results: map<nat, seq<Result>>, pending: map<nat, nat>) returns (r: map<nat, seq<Result>>)
    ensures r == RejectedAll(results, pending)
  {
    r := results;
    var left := pending.Values;
    while left != {}
      invariant left <= pending.Values && r.Keys == results.Keys
      invariant forall k :: k in results ==>
                  r[k] == if k in pending.Values && k !in left then results[k] + [REJECTED] else results[k]
      decreases |left|
    {
      var callback :| callback in left;
      if callback in r {
        r := r[callback := r[callback] + [REJECTED]];
      }
      left := left - {callback};
    }
  }

  // ---- The host -------------------------------------------------------------------------------------------

  predicate OwedHere(h: Host) {
    forall k :: k in h.held ==>
      && k < h.nextHeld && h.held[k].client <= h.lastClient
      && (h.held[k].client in h.clients ==> h.clients[h.held[k].client] == h.held[k].sock)
  }

  class HostImpl {
    var services: map<nat, Service>
    var lastServiceId: nat
    var clients: map<nat, nat>
    var clientsBySocket: map<nat, nat>
    var lastClientId: nat
    /** The replies that services owe. */
    var held: map<nat, Held>
    var nextHeld: nat

    ghost function View(): Host
      reads this
    {
      Host(services, lastServiceId, clients, clientsBySocket, lastClientId, held, nextHeld)
    }

    /** The tables of clients are each other's inverse, and a reply that is owed goes to where the call came
        from, or nowhere. */
    ghost predicate Valid()
      reads this
    {
      PairedOk(View()) && OwedHere(View())
    }

    constructor ()
      ensures View() == NEW_HOST && Valid()
    {
      services, lastServiceId := map[], 0;
      clients, clientsBySocket, lastClientId := map[], map[], 0;
      held, nextHeld := map[], 0;
    }

    method FindService(name: string) returns (serviceId: Option<nat>)
      ensures serviceId == GetServiceByName(services, name)
      ensures serviceId.Some? <==> exists id :: id in services && services[id].name == name
    {
      hide InOrder;
      GetServiceByNameOk(services, name);
      var ids := InOrder(services.Keys);
      assert ids[0..] == ids;
      for i := 0 to |ids|
        invariant FirstNamed(services, ids, name) == FirstNamed(services, ids[i..], name)
      {
        assert ids[i] in ids && ids[i..][1..] == ids[i + 1..];
        if services[ids[i]].name == name {
          return Some(ids[i]);
        }
      }
      serviceId := None;
    }

    method ExposeService(service: Service) returns (exposed: bool)
      requires Valid()
      modifies this
      ensures View() == Rpc.ExposeService(old(View()), service) && Valid()
      ensures exposed <==> !exists id :: id in old(services) && old(services)[id].name == service.name
      ensures Exposes(old(View()), service, View()) && Offered(services, service.name)
    {
      hide Exposes, GetServiceByName;
      ServiceExposed(View(), service);
      var found := FindService(service.name);
      if found.Some? {
        return false;
      }
      lastServiceId := lastServiceId + 1;
      services := services[lastServiceId := service];
      exposed := true;
    }

    /** A new client gets a number under which no reply is owed, whatever client had the socket before. */
    method OnNewIncomingConnection(sock: nat)
      requires Valid() && sock !in clientsBySocket
      modifies this
      ensures View() == Rpc.OnNewIncomingConnection(old(View()), sock) && Valid()
      ensures sock in clientsBySocket && clientsBySocket[sock] !in old(clients)
      ensures forall k :: k in held ==>
                held[k].client != clientsBySocket[sock] && ReplyTo(View(), k) == ReplyTo(old(View()), k)
    {
      lastClientId := lastClientId + 1;
      clientsBySocket := clientsBySocket[sock := lastClientId];
      clients := clients[lastClientId := sock];
    }

    /** The frame to send back, if there is one, and the method to run, if there is one. */
    method OnReceivedFrame(sock: nat, frame: Frame, parses: bool)
      returns (reply: Option<Frame>, dispatch: Option<Dispatch>)
      requires Valid() && sock in clientsBySocket
      modifies this`held, this`nextHeld
      ensures Valid() && (reply.Some? <==> dispatch.None?) && (reply.Some? ==> reply.value.id == frame.id)
      ensures Outcome(View(), reply, dispatch) == Rpc.OnReceivedFrame(old(View()), sock, frame, parses)
      ensures frame.BindService? ==> reply.Some? && BindsTo(services, frame.service, reply.value)
      ensures !frame.BindService? && !frame.InvokeMethod? ==> reply == Some(RequestError(frame.id))
      ensures frame.InvokeMethod? ==> (dispatch.Some? <==> parses && Target(services, frame).Some?)
      ensures frame.InvokeMethod? && dispatch.Some? && !frame.dropReply ==>
                && held.Keys == old(held).Keys + {old(nextHeld)}
                && held[old(nextHeld)].request == frame.id && ReplyTo(View(), old(nextHeld)) == Some(sock)
    {
      hide GetServiceByName, PairedOk, OwedHere, BindsTo;
      match frame {
        case BindService(id, service) =>
          BindReplyTells(services, id, service);
          var f := OnBindService(id, service);
          return Some(f), None;
        case InvokeMethod(_, _, _, _, _) =>
          reply, dispatch := OnInvokeMethod(sock, frame, parses);
        case _ => return Some(RequestError(frame.id)), None;
      }
    }

    method OnBindService(id: nat, name: string) returns (reply: Frame)
      ensures reply == Rpc.OnBindService(services, id, name)
      ensures reply.id == id && reply.BindServiceReply?
      ensures reply.success <==> exists serviceId :: serviceId in services && services[serviceId].name == name
      ensures reply.success ==>
                && reply.serviceId in services && services[reply.serviceId].name == name
                && var names := services[reply.serviceId].methods;
                   && |reply.methods| == |names|
                   && forall i :: 0 <= i < |names| ==> reply.methods[i] == MethodInfo(names[i], i + 1)
    {
      hide GetServiceByName;
      BindReplyTells(services, id, name);
      var service := FindService(name);
      GetServiceByNameOk(services, name);
      if service.None? {
        return BindServiceReply(id, false, 0, []);
      }
      var names := services[service.value].methods;
      var methodId, methods := 1, [];
      for i := 0 to |names|
        invariant methodId == i + 1 && methods == MethodTable(names)[..i]
      {
        methods := methods + [MethodInfo(names[i], methodId)];
        methodId := methodId + 1;
      }
      reply := BindServiceReply(id, true, service.value, methods);
    }

    /** A call fails at once or reaches its method; exactly then, if a reply is wanted, one is owed, and it would
        go to the socket that the call came from. */
    method OnInvokeMethod(sock: nat, frame: Frame, parses: bool)
      returns (reply: Option<Frame>, dispatch: Option<Dispatch>)
      requires Valid() && sock in clientsBySocket && frame.InvokeMethod?
      modifies this`held, this`nextHeld
      ensures Valid() && (reply.Some? <==> dispatch.None?) && (reply.Some? ==> reply.value.id == frame.id)
      ensures dispatch.Some? <==> parses && Target(services, frame).Some?
      ensures dispatch.Some? ==>
                && frame.serviceId in services && 0 < frame.methodId <= |services[frame.serviceId].methods|
                && dispatch.value == Dispatch(services[frame.serviceId].name,
                                              services[frame.serviceId].methods[frame.methodId - 1], frame.args)
      ensures dispatch.None? ==> reply == Some(InvokeMethodReply(frame.id, Result(None, false)))
      ensures if dispatch.Some? && !frame.dropReply
              then && held.Keys == old(held).Keys + {old(nextHeld)} && old(nextHeld) !in old(held)
                   && held[old(nextHeld)].request == frame.id && ReplyTo(View(), old(nextHeld)) == Some(sock)
              else held == old(held)
      ensures Outcome(View(), reply, dispatch) == Rpc.OnInvokeMethod(old(View()), sock, frame, parses)
    {
      var failed := Some(InvokeMethodReply(frame.id, REJECTED));
      if frame.serviceId !in services {
        return failed, None;
      }
      var service := services[frame.serviceId];
      if frame.methodId == 0 || frame.methodId > |service.methods| {
        return failed, None;
      }
      var methodName := service.methods[frame.methodId - 1];
      if !parses {
        return failed, None;
      }
      if !frame.dropReply {
        held := held[nextHeld := Held(clientsBySocket[sock], frame.id, sock)];
        nextHeld := nextHeld + 1;
      }
      return None, Some(Dispatch(service.name, methodName, frame.args));
    }

    /** A service gives a result: where it goes, if its client is still there. */
    method ReplyToMethodInvocation(k: nat, result: Result) returns (sock: Option<nat>, reply: Frame)
      requires Valid() && k in held
      modifies this`held
      ensures Valid() && (sock.Some? ==> sock.value == old(held)[k].sock)
      ensures View() == Resolved(old(View()), k, result) && sock == ReplyTo(old(View()), k)
      ensures reply == InvokeMethodReply(old(held[k].request), result) && (k in held <==> result.hasMore)
      ensures sock == if old(held)[k].client in clients then Some(clients[old(held)[k].client]) else None
      ensures held - {k} == old(held) - {k}
    {
      var owed := held[k];
      if !result.hasMore {
        held := held - {k};
      }
      reply := InvokeMethodReply(owed.request, result);
      if owed.client !in clients {
        return None, reply;
      }
      sock := Some(clients[owed.client]);
    }

    /** The client is gone: what is owed to it goes nowhere from now on, and what is owed to others goes where it
        did. */
    method OnDisconnect(sock: nat)
      requires Valid()
      modifies this
      ensures View() == HostDisconnected(old(View()), sock) && Valid() && sock !in clientsBySocket
      ensures forall k :: k in held ==>
                ReplyTo(View(), k) == if ReplyTo(old(View()), k) == Some(sock) then None else ReplyTo(old(View()), k)
    {
      if sock !in clientsBySocket {
        return;
      }
      var clientId := clientsBySocket[sock];
      clientsBySocket := clientsBySocket - {sock};
      clients := clients - {clientId};
    }
  }
}
