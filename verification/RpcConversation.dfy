/** A whole conversation, from what the objects promise: a client binds to a service that a host exposes and calls one
    of its methods; the method runs with the arguments given, and the callback gets all results that the service
    gives, in order. */
module RpcConversation {
  import opened Options
  import opened Rpc
  import opened RpcCallbacks
  import opened RpcEffects
  import opened RpcEndpoints
  import opened RpcNotices
  import opened RpcSystem

  const SOCK: nat := 1
  const CALLBACK: nat := 7

  predicate LastOfItsName(methods: seq<string>, i: nat) {
    i < |methods| && methods[i] != [] && forall j :: i < j < |methods| ==> methods[j] != methods[i]
  }

  /** The number that a client learns for a method. */
  lemma {:induction false} LearntNumber(infos: seq<MethodInfo>, names: seq<string>, known: map<string, nat>, i: nat)
    requires Lists(infos, names) && Reads(infos, known) && LastOfItsName(names, i)
    ensures i < |names| && names[i] in known && known[names[i]] == i + 1
  {
    assert Names(infos, i, names[i]);
    var k: nat :| k < |infos| && LastNamed(infos, k, names[i]) && known[names[i]] == infos[k].id;
    assert k == i;
  }

  /** A host that exposes a service. */
  method Offering(service: Service) returns (host: HostImpl, ghost id: nat)
    ensures fresh(host) && host.Valid() && host.held == map[] && host.nextHeld == 0 && SOCK in host.clientsBySocket
    ensures id != 0 && host.services == map[id := service]
  {
    hide Rpc.ExposeService, GetServiceByName, PairedOk, OwedHere;
    host := new HostImpl();
    var exposed := host.ExposeService(service);
    id := host.lastServiceId;
    assert !Offered(map[], service.name);
    host.OnNewIncomingConnection(SOCK);
    NothingElse(host.services, id, service);
  }

  lemma {:induction false} NothingElse(services: map<nat, Service>, id: nat, service: Service)
    requires id in services && services[id] == service && services - {id} == map[]
    ensures services == map[id := service]
  {
    forall i | i in services
      ensures i == id
    {
      assert i != id ==> i in services - {id};
    }
  }

  /** A client that has asked for a service. */
  method Asking(name: string) returns (client: ClientImpl, proxy: nat, ghost id: nat)
    ensures fresh(client) && client.Valid() && client.connected && client.results == map[]
    ensures client.toHost == [BindService(id, name)] && AwaitsBinding(client.View(), BindServiceReply(id, true, 0, []))
    ensures client.queuedRequests[id].proxy == proxy && client.serviceBindings == map[]
    ensures proxy in client.proxies && client.proxies[proxy].pending == map[]
  {
    hide ClientOk, Bind, Connected, NewProxy, Grows;
    client := new ClientImpl();
    proxy := client.MakeProxy(name);
    client.BindService(proxy);
    assert client.queuedBindings == [proxy] && [proxy][1..] == [];
    ghost var c := client.View();
    assert Alive(c.proxies, []) == [] && Alive(c.proxies, [proxy]) == [proxy];
    id := c.lastRequest + 1;
    client.OnConnect(true);
    assert client.toHost == [BindService(id, name)];
    assert IsQueued(client.queuedRequests, id, [proxy][0]);
  }

  /** The client is bound to the service, and knows its methods. */
  method Bound(service: Service) returns (host: HostImpl, client: ClientImpl, proxy: nat, ghost id: nat)
    ensures fresh(host) && fresh(client) && host.Valid() && client.Valid() && client.connected && client.toHost == []
    ensures client.results == map[] && SOCK in host.clientsBySocket && host.held == map[] && host.nextHeld == 0
    ensures proxy in client.proxies && client.proxies[proxy].pending == map[] && id != 0
    ensures host.services == map[id := service] && client.proxies[proxy].serviceId == id
    ensures forall i: nat :: LastOfItsName(service.methods, i) ==>
              && service.methods[i] in client.proxies[proxy].methods
              && client.proxies[proxy].methods[service.methods[i]] == i + 1
  {
    hide ClientOk, OnFrameReceived, Rpc.OnBindService, Grows, OnlyAnswered, PairedOk, OwedHere, Reads, LastOfItsName;
    host, id := Offering(service);
    ghost var request;
    client, proxy, request := Asking(service.name);
    var frame := client.TakeFrame();
    assert ([frame] + client.toHost)[0] == frame == BindService(request, service.name) && client.toHost == [];
    assert Offered(host.services, service.name) by {
      assert id in host.services;
    }
    var reply, _ := host.OnReceivedFrame(SOCK, frame, true);
    client.OnReceived(reply.value);
    forall i: nat | LastOfItsName(service.methods, i)
      ensures i < |service.methods| && service.methods[i] in client.proxies[proxy].methods
              && client.proxies[proxy].methods[service.methods[i]] == i + 1
    {
      LearntNumber(reply.value.methods, service.methods, client.proxies[proxy].methods, i);
    }
  }

  function Results(answers: seq<nat>): seq<Result> {
    seq(|answers|, k requires 0 <= k < |answers| => Result(Some(answers[k]), k + 1 < |answers|))
  }

  /** The callback waits for the results of the request, and has had some. */
  ghost predicate Listening(c: Client, id: nat, got: seq<Result>) {
    && AwaitsResult(c, InvokeMethodReply(id, REJECTED)) && c.proxies[c.queued[id].proxy].pending[id] == CALLBACK
    && CALLBACK in c.results && c.results[CALLBACK] == got
  }

  /** The host owes a reply to the request, on this socket. */
  ghost predicate Owing(h: Host, id: nat) {
    0 in h.held && h.held[0].request == id && ReplyTo(h, 0) == Some(SOCK)
  }

  /** One more result. */
  method Answer(host: HostImpl, client: ClientImpl, ghost id: nat, ghost got: seq<Result>, result: Result)
    requires host.Valid() && client.Valid() && Owing(host.View(), id) && Listening(client.View(), id, got)
    modifies host, client
    ensures host.Valid() && client.Valid() && CALLBACK in client.results && client.results[CALLBACK] == got + [result]
    ensures result.hasMore ==> Owing(host.View(), id) && Listening(client.View(), id, got + [result])
  {
    hide ClientOk, OnFrameReceived, PairedOk, OwedHere, Grows, OnlyAnswered;
    var sock, reply := host.ReplyToMethodInvocation(0, result);
    client.OnReceived(reply);
  }

  /** The client calls a method, which runs. */
  method Calling(service: Service, i: nat, args: nat)
    returns (host: HostImpl, client: ClientImpl, ghost id: nat, ran: Option<Dispatch>)
    requires LastOfItsName(service.methods, i)
    ensures fresh(host) && fresh(client) && host.Valid() && client.Valid()
    ensures Owing(host.View(), id) && Listening(client.View(), id, [])
    ensures ran == Some(Dispatch(service.name, service.methods[i], args))
  {
    hide ClientOk, OnFrameReceived, Invoke, PairedOk, OwedHere, Grows, OnlyAnswered, Owing, Listening;
    var proxy, reply;
    ghost var serviceId;
    host, client, proxy, serviceId := Bound(service);
    client.ProxyBeginInvoke(proxy, service.methods[i], args, Some(CALLBACK));
    id := client.lastRequestId;
    var frame := client.TakeFrame();
    assert ([frame] + client.toHost)[0] == frame == InvokeMethod(id, serviceId, i + 1, args, false);
    ListensFor(client.View(), id, proxy, service.methods[i]);
    reply, ran := host.OnReceivedFrame(SOCK, frame, true);
    OwesReply(host.View(), id);
  }

  /** For every service, every method of it, all arguments and all answers. */
  method Converse(service: Service, i: nat, args: nat, answers: seq<nat>)
    returns (ran: Option<Dispatch>, got: seq<Result>)
    requires LastOfItsName(service.methods, i) && answers != []
    ensures ran == Some(Dispatch(service.name, service.methods[i], args))
    ensures got == Results(answers)
  {
    hide ClientOk, PairedOk, OwedHere, Owing, Listening;
    var host, client;
    ghost var id;
    host, client, id, ran := Calling(service, i, args);
    got := [];
    for k := 0 to |answers|
      invariant fresh(host) && fresh(client) && host.Valid() && client.Valid() && got == Results(answers)[..k]
      invariant k < |answers| ==> Owing(host.View(), id) && Listening(client.View(), id, got)
    {
      var result := Result(Some(answers[k]), k + 1 < |answers|);
      Answer(host, client, id, got, result);
      got := client.results[CALLBACK];
      assert Results(answers)[..k + 1] == Results(answers)[..k] + [result];
    }
  }

  lemma {:induction false} OwesReply(h: Host, id: nat)
    requires 0 in h.held && h.held[0].request == id && ReplyTo(h, 0) == Some(SOCK)
    ensures Owing(h, id)
  {
  }

  lemma {:induction false} ListensFor(c: Client, id: nat, proxy: nat, methodName: string)
    requires id in c.queued && c.queued[id] == QueuedInvoke(proxy, methodName) && proxy in c.proxies
    requires id in c.proxies[proxy].pending && c.proxies[proxy].pending[id] == CALLBACK
    requires CALLBACK in c.results && c.results[CALLBACK] == []
    ensures Listening(c, id, [])
  {
  }
}
