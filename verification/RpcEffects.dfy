/** What each end of the protocol does with each event, said by what is then sent, known and bound. */
module RpcEffects {
  import opened Options
  import opened Ordering
  import opened Rpc
  import opened RpcCallbacks
  import opened RpcSafety

  // ---- The host -------------------------------------------------------------------------------------------

  ghost predicate Offered(services: map<nat, Service>, name: string) {
    exists id :: id in services && services[id].name == name
  }

  /** The methods of a service with their numbers, which count from one. */
  predicate Lists(infos: seq<MethodInfo>, names: seq<string>) {
    |infos| == |names| && forall i :: 0 <= i < |infos| ==> infos[i] == MethodInfo(names[i], i + 1)
  }

  /** A binding succeeds exactly if there is a service of that name, and then tells its number and its methods. */
  ghost predicate BindsTo(services: map<nat, Service>, name: string, reply: Frame) {
    && reply.BindServiceReply? && (reply.success <==> Offered(services, name))
    && (reply.success ==> reply.serviceId in services && services[reply.serviceId].name == name
                          && Lists(reply.methods, services[reply.serviceId].methods))
  }

  lemma {:induction false} BindReplyTells(services: map<nat, Service>, id: nat, name: string)
    ensures BindsTo(services, name, OnBindService(services, id, name)) && OnBindService(services, id, name).id == id
  {
    hide GetServiceByName;
    GetServiceByNameOk(services, name);
  }

  predicate OneOfEach(services: map<nat, Service>) {
    forall i, j :: i in services && j in services && services[i].name == services[j].name ==> i == j
  }

  /** A service is added under a new number, unless there is one of its name. */
  ghost predicate Exposes(h: Host, service: Service, h': Host) {
    && h' == h.(services := h'.services, lastService := h'.lastService)
    && (Offered(h.services, service.name) ==> h'.services == h.services)
    && (!Offered(h.services, service.name) ==>
          && h'.lastService > h.lastService && h'.lastService in h'.services && h'.services[h'.lastService] == service
          && h'.services - {h'.lastService} == h.services - {h'.lastService})
  }

  lemma {:induction false} ServiceExposed(h: Host, service: Service)
    ensures Exposes(h, service, ExposeService(h, service)) && Offered(ExposeService(h, service).services, service.name)
    ensures (forall id :: id in h.services ==> id <= h.lastService) && OneOfEach(h.services) ==>
              OneOfEach(ExposeService(h, service).services)
  {
    hide GetServiceByName;
    GetServiceByNameOk(h.services, service.name);
  }

  // ---- Binding at the client ------------------------------------------------------------------------------

  predicate Names(infos: seq<MethodInfo>, i: nat, name: string) {
    i < |infos| && infos[i].name == name && name != [] && infos[i].id > 0
  }

  predicate LastNamed(infos: seq<MethodInfo>, i: nat, name: string) {
    Names(infos, i, name) && forall j: nat :: i < j < |infos| ==> !Names(infos, j, name)
  }

  /** A map of the methods told: each that has a name and a number, with the last number told for its name. */
  ghost predicate Reads(infos: seq<MethodInfo>, methods: map<string, nat>) {
    && (forall i: nat, name :: Names(infos, i, name) ==> name in methods)
    && forall name :: name in methods ==> exists i: nat ::
         i < |infos| && LastNamed(infos, i, name) && methods[name] == infos[i].id
  }

  lemma {:induction false} MethodMapReads(infos: seq<MethodInfo>)
    ensures Reads(infos, MethodMap(infos))
    decreases |infos|
  {
    hide LastNamed;
    if infos != [] {
      var front, last := infos[..|infos| - 1], |infos| - 1;
      MethodMapReads(front);
      forall i: nat, name | Names(infos, i, name)
        ensures name in MethodMap(infos)
      {
        if i < last {
          assert Names(front, i, name);
        }
      }
      forall name | name in MethodMap(infos)
        ensures exists i: nat :: i < |infos| && LastNamed(infos, i, name) && MethodMap(infos)[name] == infos[i].id
      {
        if Names(infos, last, name) {
          LastIsLast(infos, name);
        } else {
          var i: nat :| i < |front| && LastNamed(front, i, name) && MethodMap(front)[name] == front[i].id;
          StillLast(infos, i, name);
        }
      }
    }
  }

  lemma {:induction false} LastIsLast(infos: seq<MethodInfo>, name: string)
    requires infos != [] && Names(infos, |infos| - 1, name)
    ensures LastNamed(infos, |infos| - 1, name)
  {
  }

  lemma {:induction false} StillLast(infos: seq<MethodInfo>, i: nat, name: string)
    requires infos != [] && LastNamed(infos[..|infos| - 1], i, name) && !Names(infos, |infos| - 1, name)
    ensures LastNamed(infos, i, name) && infos[i] == infos[..|infos| - 1][i]
  {
    forall j: nat | i < j < |infos|
      ensures !Names(infos, j, name)
    {
      assert j < |infos| - 1 ==> !Names(infos[..|infos| - 1], j, name);
    }
  }

  /** No proxy that is alive is bound to the service. */
  predicate Free(c: Client, serviceId: nat) {
    serviceId in c.bindings ==> c.bindings[serviceId] !in c.proxies
  }

  /** The reply to a request to bind a proxy. */
  predicate AwaitsBinding(c: Client, f: Frame) {
    f.BindServiceReply? && f.id in c.queued && c.queued[f.id].QueuedBind?
  }

  /** The proxy that asked is bound exactly if it is alive, the host agreed and the service is free; then it has the
      number of the service and knows the methods told. Nothing else changes. */
  ghost predicate BindTaken(c: Client, f: Frame, c': Client)
    requires AwaitsBinding(c, f)
  {
    var p := c.queued[f.id].proxy;
    && c' == c.(queued := c.queued - {f.id}, proxies := c'.proxies, bindings := c'.bindings)
    && c'.proxies.Keys == c.proxies.Keys
    && (forall q :: q in c.proxies && q != p ==> c'.proxies[q] == c.proxies[q])
    && if p in c.proxies && f.success && Free(c, f.serviceId) then
         && c'.bindings == c.bindings[f.serviceId := p]
         && c'.proxies[p].serviceId == f.serviceId && Reads(f.methods, c'.proxies[p].methods)
         && c'.proxies[p].service == c.proxies[p].service && c'.proxies[p].pending == c.proxies[p].pending
       else c'.bindings == c.bindings && c'.proxies == c.proxies
  }

  lemma {:induction false} BindIsTaken(c: Client, f: Frame)
    requires AwaitsBinding(c, f)
    ensures BindTaken(c, f, OnFrameReceived(c, f))
  {
    hide MethodMap, Reads;
    MethodMapReads(f.methods);
    var p := c.queued[f.id].proxy;
    if p !in c.proxies || !f.success {
    } else if Free(c, f.serviceId) {
    } else {
    }
  }

  /** A new proxy for a service, not bound. */
  predicate ProxyMade(c: Client, service: string, proxy: nat, c': Client) {
    && c' == c.(proxies := c'.proxies, madeProxies := c'.madeProxies)
    && c'.madeProxies > proxy && proxy !in c.proxies && proxy in c'.proxies && c'.proxies - {proxy} == c.proxies
    && c'.proxies[proxy].service == service && c'.proxies[proxy].serviceId == 0
    && c'.proxies[proxy].methods == map[] && c'.proxies[proxy].pending == map[]
  }

  /** A request to bind goes out at once, under a new number, or waits for the connection. */
  predicate BindAsked(c: Client, proxy: nat, c': Client) {
    if proxy !in c.proxies then c' == c
    else if !c.connected then c' == c.(queuedBindings := c.queuedBindings + [proxy])
    else
      var id := c'.lastRequest;
      && id > c.lastRequest && c'.toHost == c.toHost + [BindService(id, c.proxies[proxy].service)]
      && id in c'.queued && c'.queued[id] == QueuedBind(proxy) && c'.queued - {id} == c.queued - {id}
      && c'.proxies == c.proxies && c'.bindings == c.bindings && c'.results == c.results
      && c'.queuedBindings == c.queuedBindings
  }

  lemma {:induction false} BindIsAsked(c: Client, proxy: nat)
    ensures BindAsked(c, proxy, Bind(c, proxy))
  {
  }

  /** The proxies in a list that are alive. */
  function Alive(proxies: map<nat, Proxy>, list: seq<nat>): (r: seq<nat>)
    ensures forall p :: p in r ==> p in proxies
  {
    if list == [] then [] else (if list[0] in proxies then [list[0]] else []) + Alive(proxies, list[1..])
  }

  function Request(proxies: map<nat, Proxy>, live: seq<nat>, last: nat, k: nat): Frame
    requires k < |live| && forall p :: p in live ==> p in proxies
  {
    BindService(last + 1 + k, proxies[live[k]].service)
  }

  /** Requests with consecutive numbers wait for a list of proxies. */
  predicate QueuedAs(queued: map<nat, Queued>, first: nat, live: seq<nat>) {
    forall k :: 0 <= k < |live| ==> IsQueued(queued, first + k, live[k])
  }

  predicate IsQueued(queued: map<nat, Queued>, id: nat, proxy: nat) {
    id in queued && queued[id] == QueuedBind(proxy)
  }

  /** One request goes out for each proxy in the list that is alive, in that order. */
  ghost predicate AllAsked(c: Client, list: seq<nat>, c': Client) {
    var live := Alive(c.proxies, list);
    && c'.connected == c.connected && c'.proxies == c.proxies && c'.bindings == c.bindings && c'.results == c.results
    && c'.lastRequest == c.lastRequest + |live|
    && c'.toHost == c.toHost + seq(|live|, k requires 0 <= k < |live| => Request(c.proxies, live, c.lastRequest, k))
    && QueuedAs(c'.queued, c.lastRequest + 1, live)
    && forall id :: id <= c.lastRequest && id in c.queued ==> id in c'.queued && c'.queued[id] == c.queued[id]
  }

  lemma {:induction false} AllAreAsked(c: Client, list: seq<nat>)
    requires c.connected
    ensures AllAsked(c, list, BindAll(c, list))
    decreases |list|
  {
    if list != [] {
      var c1, rest := Bind(c, list[0]), list[1..];
      AllAreAsked(c1, rest);
      if list[0] in c.proxies {
        NextAsked(c, list, c1, BindAll(c1, rest));
      } else {
        assert Alive(c.proxies, list) == Alive(c.proxies, rest);
      }
    }
  }

  lemma {:induction false} NextAsked(c: Client, list: seq<nat>, c1: Client, c': Client)
    requires c.connected && list != [] && list[0] in c.proxies && c1 == Bind(c, list[0]) && AllAsked(c1, list[1..], c')
    ensures AllAsked(c, list, c')
  {
    var live, rest := Alive(c.proxies, list), Alive(c.proxies, list[1..]);
    assert live == [list[0]] + rest;
    var frames := seq(|live|, k requires 0 <= k < |live| => Request(c.proxies, live, c.lastRequest, k));
    var others := seq(|rest|, k requires 0 <= k < |rest| => Request(c.proxies, rest, c1.lastRequest, k));
    assert frames == [frames[0]] + others;
    assert c'.toHost == c.toHost + frames;
    forall k | 0 <= k < |live|
      ensures IsQueued(c'.queued, c.lastRequest + 1 + k, live[k])
    {
      if k > 0 {
        assert IsQueued(c'.queued, c1.lastRequest + 1 + (k - 1), rest[k - 1]);
      }
    }
  }

  // ---- Calls ----------------------------------------------------------------------------------------------

  /** A call goes out, under a new number, exactly if the connection stands, the proxy is bound and the method is
      known; its callback then waits for the reply. Otherwise the callback is rejected. */
  ghost predicate CallMade(c: Client, proxy: nat, methodName: string, args: nat, callback: Option<nat>, c': Client)
    requires proxy in c.proxies
  {
    var p := c.proxies[proxy];
    if c.connected && p.serviceId != 0 && methodName in p.methods then
      var id := c'.lastRequest;
      && id > c.lastRequest
      && c'.toHost == c.toHost + [InvokeMethod(id, p.serviceId, p.methods[methodName], args, callback.None?)]
      && (callback.None? ==> c'.proxies == c.proxies && c'.results == c.results && c'.queued == c.queued)
      && (callback.Some? ==>
            && c'.results == c.results[callback.value := []] && proxy in c'.proxies
            && c'.proxies[proxy].pending == p.pending[id := callback.value]
            && id in c'.queued && c'.queued[id] == QueuedInvoke(proxy, methodName))
    else
      && c'.toHost == c.toHost && c'.proxies == c.proxies && c'.queued == c.queued
      && c'.results == if callback.Some? then c.results[callback.value := [Result(None, false)]] else c.results
  }

  lemma {:induction false} CallIsMade(c: Client, proxy: nat, methodName: string, args: nat, callback: Option<nat>)
    requires proxy in c.proxies
    ensures CallMade(c, proxy, methodName, args, callback, Invoke(c, proxy, methodName, args, callback))
  {
    var p := c.proxies[proxy];
    if p.serviceId == 0 || methodName !in p.methods || !c.connected {
      CallNotMade(c, proxy, methodName, args, callback);
    } else if callback.None? {
    } else {
    }
  }

  lemma {:induction false} CallNotMade(c: Client, proxy: nat, methodName: string, args: nat, callback: Option<nat>)
    requires proxy in c.proxies
    requires c.proxies[proxy].serviceId == 0 || methodName !in c.proxies[proxy].methods || !c.connected
    ensures CallMade(c, proxy, methodName, args, callback, Invoke(c, proxy, methodName, args, callback))
  {
  }

  /** A result for a callback that waits. */
  predicate AwaitsResult(c: Client, f: Frame) {
    && f.InvokeMethodReply? && f.id in c.queued && c.queued[f.id].QueuedInvoke?
    && c.queued[f.id].proxy in c.proxies && f.id in c.proxies[c.queued[f.id].proxy].pending
  }

  /** The callback is given the result, and goes on waiting exactly if more is to come. */
  ghost predicate ResultTaken(c: Client, f: Frame, c': Client)
    requires AwaitsResult(c, f)
  {
    var p := c.queued[f.id].proxy;
    var k := c.proxies[p].pending[f.id];
    && c' == c.(queued := c'.queued, proxies := c'.proxies, results := c'.results, got := c'.got)
    && k in c.results && c'.results == c.results[k := c.results[k] + [f.result]]
    && if f.result.hasMore then c'.queued == c.queued && c'.proxies == c.proxies
       else && c'.queued == c.queued - {f.id} && c'.proxies.Keys == c.proxies.Keys
            && (forall q :: q in c.proxies && q != p ==> c'.proxies[q] == c.proxies[q])
            && c'.proxies[p] == c.proxies[p].(pending := c.proxies[p].pending - {f.id})
  }

  lemma {:induction false} ResultIsTaken(c: Client, f: Frame)
    requires AwaitsResult(c, f) && CallbacksOk(c)
    ensures ResultTaken(c, f, OnFrameReceived(c, f))
  {
    var p := c.queued[f.id].proxy;
    assert Waits(c.proxies, c.proxies[p].pending[f.id], p, f.id);
  }
}
