/** The request and reply protocol between clients and a host: what each end does with each event. */
module Rpc {
  import opened Options
  import opened Ordering

  // ---- Frames ---------------------------------------------------------------------------------------------

  datatype MethodInfo = MethodInfo(name: string, id: nat)

  /** What a callback is given: a message or a failure, and whether more is to come. */
  datatype Result = Result(msg: Option<nat>, hasMore: bool)

  const REJECTED: Result := Result(None, false)

  datatype Frame =
    | BindService(id: nat, service: string)
    | BindServiceReply(id: nat, success: bool, serviceId: nat, methods: seq<MethodInfo>)
    | InvokeMethod(id: nat, serviceId: nat, methodId: nat, args: nat, dropReply: bool)
    | InvokeMethodReply(id: nat, result: Result)
    | RequestError(id: nat)

  // ---- The client -----------------------------------------------------------------------------------------

  /** A request that waits for its reply. */
  datatype Queued = QueuedBind(proxy: nat) | QueuedInvoke(proxy: nat, methodName: string)

  /** A proxy stands for a service; it is bound once the service is known by a number. */
  datatype Proxy = Proxy(service: string, serviceId: nat, methods: map<string, nat>, pending: map<nat, nat>)

  /** What a request was made for. */
  datatype Request =
    | BindRequest(proxy: nat, service: string)
    | InvokeRequest(service: string, methodName: string, args: nat, callback: Option<nat>)

  datatype Client = Client(
    /** The socket stands; `ended` once the client has learnt that it does not. */
    connected: bool,
    ended: bool,
    lastRequest: nat,
    queued: map<nat, Queued>,
    bindings: map<nat, nat>,
    queuedBindings: seq<nat>,
    /** The proxies that are going to be told of the disconnection. */
    notices: seq<nat>,
    /** The proxies that are alive, and how many were made. */
    proxies: map<nat, Proxy>,
    madeProxies: nat,
    toHost: seq<Frame>,
    /** The requests sent, the replies handed on for each, and all that each callback was given. */
    issued: map<nat, Request>,
    got: map<nat, seq<Result>>,
    results: map<nat, seq<Result>>)

  const NEW_CLIENT: Client := Client(false, false, 0, map[], map[], [], [], map[], 0, [], map[], map[], map[])

  function NewProxy(c: Client, service: string): Client {
    c.(proxies := c.proxies[c.madeProxies := Proxy(service, 0, map[], map[])], madeProxies := c.madeProxies + 1)
  }

  /** Gives a callback its last result. */
  function Rejected(c: Client, callback: Option<nat>): Client {
    if callback.Some? then c.(results := c.results[callback.value := [REJECTED]]) else c
  }

  /** Gives all callbacks of a proxy that still wait their last result. */
  function RejectedAll(results: map<nat, seq<Result>>, pending: map<nat, nat>): map<nat, seq<Result>> {
    map k | k in results :: if k in pending.Values then results[k] + [REJECTED] else results[k]
  }

  function Bind(c: Client, proxy: nat): Client {
    if proxy !in c.proxies then c
    else if !c.connected then c.(queuedBindings := c.queuedBindings + [proxy])
    else
      var id := c.lastRequest + 1;
      var service := c.proxies[proxy].service;
      c.(lastRequest := id,
         toHost := c.toHost + [BindService(id, service)],
         queued := c.queued[id := QueuedBind(proxy)],
         issued := c.issued[id := BindRequest(proxy, service)])
  }

  /** Binds what was asked for before the connection stood. */
  function BindAll(c: Client, proxies: seq<nat>): Client
    decreases |proxies|
  {
    if proxies == [] then c else BindAll(Bind(c, proxies[0]), proxies[1..])
  }

  function Connected(c: Client): Client {
    BindAll(c.(connected := true), c.queuedBindings).(queuedBindings := [])
  }

  function ConnectFailed(c: Client): Client {
    c.(queuedBindings := [])
  }

  /** Calls a method. A callback whose call cannot be sent is rejected at once. */
  function Invoke(c: Client, proxy: nat, methodName: string, args: nat, callback: Option<nat>): Client
    requires proxy in c.proxies
  {
    var p := c.proxies[proxy];
    if p.serviceId == 0 || methodName !in p.methods then Rejected(c, callback)
    else
      var id := c.lastRequest + 1;
      if !c.connected then Rejected(c.(lastRequest := id), callback)
      else
        var sent := c.(lastRequest := id,
                       toHost := c.toHost + [InvokeMethod(id, p.serviceId, p.methods[methodName], args,
                           callback.None?)],
                       issued := c.issued[id := InvokeRequest(p.service, methodName, args, callback)],
                       got := c.got[id := []]);
        if callback.None? then sent
        else sent.(queued := c.queued[id := QueuedInvoke(proxy, methodName)],
                   proxies := c.proxies[proxy := p.(pending := p.pending[id := callback.value])],
                   results := c.results[callback.value := []])
  }

  function MethodMap(methods: seq<MethodInfo>): map<string, nat> {
    if methods == [] then map[]
    else
      var front, last := MethodMap(methods[..|methods| - 1]), methods[|methods| - 1];
      if last.name == [] || last.id <= 0 then front else front[last.name := last.id]
  }

  function OnFrameReceived(c: Client, frame: Frame): Client {
    if frame.id !in c.queued then c
    else
      var q := c.queued[frame.id];
      var c' := c.(queued := c.queued - {frame.id});
      if q.QueuedBind? && frame.BindServiceReply? then OnBindServiceReply(c', q.proxy, frame)
      else if q.QueuedInvoke? && frame.InvokeMethodReply? then OnInvokeMethodReply(c', q, frame)
      else c'
  }

  function OnBindServiceReply(c: Client, proxy: nat, frame: Frame): Client
    requires frame.BindServiceReply?
  {
    if proxy !in c.proxies || !frame.success then c
    else if frame.serviceId in c.bindings && c.bindings[frame.serviceId] in c.proxies then c
    else
      var p := c.proxies[proxy].(serviceId := frame.serviceId, methods := MethodMap(frame.methods));
      c.(proxies := c.proxies[proxy := p],
         bindings := c.bindings[frame.serviceId := proxy])
  }

  function OnInvokeMethodReply(c: Client, q: Queued, frame: Frame): Client
    requires q.QueuedInvoke? && frame.InvokeMethodReply?
  {
    if q.proxy !in c.proxies then c
    else
      var c' := EndInvoke(c, q.proxy, frame.id, frame.result);
      if frame.result.hasMore then c'.(queued := c'.queued[frame.id := q]) else c'
  }

  /** Hands a result to the callback that waits for it, which is let go with the last one. (A callback that
      waits always has its records, see RpcCallbacks.) */
  function EndInvoke(c: Client, proxy: nat, id: nat, result: Result): Client
    requires proxy in c.proxies
  {
    var p := c.proxies[proxy];
    if id !in p.pending || p.pending[id] !in c.results || id !in c.got then c
    else
      var callback := p.pending[id];
      c.(results := c.results[callback := c.results[callback] + [result]],
         got := c.got[id := c.got[id] + [result]],
         proxies := if result.hasMore then c.proxies else c.proxies[proxy := p.(pending := p.pending - {id})])
  }

  /** The proxies bound, in the order of their services' numbers. */
  function BoundProxies(bindings: map<nat, nat>, services: seq<nat>): seq<nat>
    requires forall s :: s in services ==> s in bindings
  {
    seq(|services|, i requires 0 <= i < |services| => bindings[services[i]])
  }

  /** The socket is shut at once; the client learns of it later, after the frames it has already read. */
  function Shut(c: Client): Client {
    c.(connected := false)
  }

  /** The proxies that are bound will be told; requests that wait are kept, and proxies that are not bound yet
      are not told. */
  function Disconnected(c: Client): Client {
    c.(connected := false, ended := true, notices := c.notices + BoundProxies(c.bindings, InOrder(c.bindings.Keys)),
       bindings := map[], queuedBindings := [])
  }

  /** A proxy learns of the disconnection: all that waits is rejected. */
  function Noticed(c: Client): (c': Client)
    requires c.notices != []
    ensures c'.toHost == c.toHost && c'.lastRequest == c.lastRequest && c'.notices == c.notices[1..]
    ensures c'.proxies.Keys == c.proxies.Keys
  {
    var proxy := c.notices[0];
    if proxy !in c.proxies then c.(notices := c.notices[1..])
    else
      var p := c.proxies[proxy];
      c.(notices := c.notices[1..], results := RejectedAll(c.results, p.pending),
         proxies := c.proxies[proxy := p.(pending := map[])])
  }

  function Destroyed(c: Client, proxy: nat): Client
    requires proxy in c.proxies
  {
    var p := c.proxies[proxy];
    c.(results := RejectedAll(c.results, p.pending), proxies := c.proxies - {proxy},
       bindings := if p.serviceId != 0 then c.bindings - {p.serviceId} else c.bindings)
  }

  // ---- The host -------------------------------------------------------------------------------------------

  datatype Service = Service(name: string, methods: seq<string>)

  /** A reply that a service owes: to which client, for which request. `sock` is where the request came from. */
  datatype Held = Held(client: nat, request: nat, sock: nat)

  datatype Host = Host(
    services: map<nat, Service>,
    lastService: nat,
    clients: map<nat, nat>,
    clientsBySocket: map<nat, nat>,
    lastClient: nat,
    held: map<nat, Held>,
    nextHeld: nat)

  const NEW_HOST: Host := Host(map[], 0, map[], map[], 0, map[], 0)

  /** The first service with the name, in the order of their numbers. */
  function FirstNamed(services: map<nat, Service>, ids: seq<nat>, name: string): Option<nat>
    requires forall id :: id in ids ==> id in services
  {
    if ids == [] then None
    else if services[ids[0]].name == name then Some(ids[0])
    else FirstNamed(services, ids[1..], name)
  }

  function GetServiceByName(services: map<nat, Service>, name: string): Option<nat> {
    FirstNamed(services, InOrder(services.Keys), name)
  }

  function ExposeService(h: Host, service: Service): Host {
    if GetServiceByName(h.services, service.name).Some? then h
    else h.(lastService := h.lastService + 1, services := h.services[h.lastService + 1 := service])
  }

  function OnNewIncomingConnection(h: Host, sock: nat): Host {
    var id := h.lastClient + 1;
    h.(lastClient := id, clientsBySocket := h.clientsBySocket[sock := id], clients := h.clients[id := sock])
  }

  function MethodTable(methods: seq<string>): seq<MethodInfo> {
    seq(|methods|, i requires 0 <= i < |methods| => MethodInfo(methods[i], i + 1))
  }

  function OnBindService(services: map<nat, Service>, id: nat, name: string): Frame {
    match GetServiceByName(services, name)
    case None => BindServiceReply(id, false, 0, [])
    case Some(serviceId) =>
      if serviceId in services
      then BindServiceReply(id, true, serviceId, MethodTable(services[serviceId].methods))
      else BindServiceReply(id, false, 0, [])
  }

  /** The method that a call reaches, if it reaches one. */
  datatype Dispatch = Dispatch(service: string, methodName: string, args: nat)

  function Target(services: map<nat, Service>, frame: Frame): Option<Dispatch>
    requires frame.InvokeMethod?
  {
    if frame.serviceId !in services then None
    else
      var service := services[frame.serviceId];
      if frame.methodId == 0 || frame.methodId > |service.methods| then None
      else Some(Dispatch(service.name, service.methods[frame.methodId - 1], frame.args))
  }

  /** What comes of a call: an immediate failure, or a method that runs and, unless the reply is dropped, owes
      one. Whether the arguments parse is not the protocol's business. */
  datatype Outcome = Outcome(host: Host, reply: Option<Frame>, dispatch: Option<Dispatch>)

  function OnInvokeMethod(h: Host, sock: nat, frame: Frame, parses: bool): Outcome
    requires frame.InvokeMethod? && sock in h.clientsBySocket
  {
    var target := Target(h.services, frame);
    if target.None? || !parses then Outcome(h, Some(InvokeMethodReply(frame.id, REJECTED)), None)
    else if frame.dropReply then Outcome(h, None, target)
    else
      var held := Held(h.clientsBySocket[sock], frame.id, sock);
      Outcome(h.(held := h.held[h.nextHeld := held], nextHeld := h.nextHeld + 1), None, target)
  }

  function OnReceivedFrame(h: Host, sock: nat, frame: Frame, parses: bool): Outcome
    requires sock in h.clientsBySocket
  {
    match frame
    case BindService(id, service) => Outcome(h, Some(OnBindService(h.services, id, service)), None)
    case InvokeMethod(_, _, _, _, _) => OnInvokeMethod(h, sock, frame, parses)
    case _ => Outcome(h, Some(RequestError(frame.id)), None)
  }

  /** A service gives a result, or drops the reply, which is to fail it. The reply is let go with the last one. */
  function Resolved(h: Host, k: nat, result: Result): Host
    requires k in h.held
  {
    if result.hasMore then h else h.(held := h.held - {k})
  }

  /** The socket that a result goes to, if its client is still there. */
  function ReplyTo(h: Host, k: nat): Option<nat>
    requires k in h.held
  {
    var client := h.held[k].client;
    if client in h.clients then Some(h.clients[client]) else None
  }

  function HostDisconnected(h: Host, sock: nat): Host {
    if sock !in h.clientsBySocket then h
    else h.(clients := h.clients - {h.clientsBySocket[sock]}, clientsBySocket := h.clientsBySocket - {sock})
  }

  // ---- All together ---------------------------------------------------------------------------------------

  /** A client with its channel from the host, whether its socket has tried to connect, and whether the host
      has accepted it. `sent` has all results sent for each request, `dispatched` the methods run for each. */
  datatype Link = Link(
    client: Client,
    toClient: seq<Frame>,
    tried: bool,
    accepted: bool,
    sent: map<nat, seq<Result>>,
    dispatched: map<nat, Dispatch>)

  datatype System = System(host: Host, links: map<nat, Link>)

  datatype Step =
    | Expose(exposed: Service)
    | StartClient(sock: nat)
    | MakeProxy(sock: nat, service: string)
    | BindProxy(sock: nat, proxy: nat)
    | ClientConnects(sock: nat)
    | ConnectFails(sock: nat)
    | HostAccepts(sock: nat)
    | Call(sock: nat, proxy: nat, methodName: string, args: nat, callback: Option<nat>)
    | HostReceives(sock: nat, parses: bool)
    | Resolve(held: nat, result: Result)
    | ClientReceives(sock: nat)
    | SocketShuts(sock: nat)
    | ClientDisconnects(sock: nat)
    | HostDisconnects(sock: nat)
    | ProxyNoticed(sock: nat)
    | DestroyProxy(sock: nat, proxy: nat)

  predicate Enabled(s: System, step: Step) {
    match step
    case Expose(service) => true
    case StartClient(sock) => sock !in s.links
    case Resolve(k, _) => k in s.host.held
    case _ => step.sock in s.links && LinkEnabled(s.host, step.sock, s.links[step.sock], step)
  }

  predicate LinkEnabled(h: Host, sock: nat, l: Link, step: Step) {
    var c := l.client;
    match step
    case ClientConnects(_) => !l.tried
    case ConnectFails(_) => !l.tried
    case HostAccepts(_) => l.tried && !l.accepted
    case Call(_, proxy, _, _, callback) => proxy in c.proxies && (callback.Some? ==> callback.value !in c.results)
    case HostReceives(_, _) => sock in h.clientsBySocket && c.toHost != []
    case ClientReceives(_) => l.tried && !c.ended && l.toClient != []
    case SocketShuts(_) => c.connected
    case ClientDisconnects(_) => l.tried && !c.ended
    case ProxyNoticed(_) => c.notices != []
    case DestroyProxy(_, proxy) => proxy in c.proxies
    case _ => true
  }

  predicate IsClientStep(step: Step) {
    || step.MakeProxy? || step.BindProxy? || step.ClientConnects? || step.ConnectFails? || step.Call?
    || step.ClientReceives? || step.SocketShuts? || step.ClientDisconnects? || step.ProxyNoticed? || step.DestroyProxy?
  }

  /** What a client does of its own, or with the next frame from the host. */
  function ClientAfter(l: Link, step: Step): Client
    requires IsClientStep(step)
    requires step.Call? || step.DestroyProxy? ==> step.proxy in l.client.proxies
    requires step.ClientReceives? ==> l.toClient != []
    requires step.ProxyNoticed? ==> l.client.notices != []
  {
    var c := l.client;
    match step
    case MakeProxy(_, service) => NewProxy(c, service)
    case BindProxy(_, proxy) => Bind(c, proxy)
    case ClientConnects(_) => Connected(c)
    case ConnectFails(_) => ConnectFailed(c)
    case Call(_, proxy, methodName, args, callback) => Invoke(c, proxy, methodName, args, callback)
    case ClientReceives(_) => OnFrameReceived(c, l.toClient[0])
    case SocketShuts(_) => Shut(c)
    case ClientDisconnects(_) => Disconnected(c)
    case ProxyNoticed(_) => Noticed(c)
    case DestroyProxy(_, proxy) => Destroyed(c, proxy)
  }

  function SentAfter(l: Link, frame: Frame): Link {
    var l' := l.(toClient := l.toClient + [frame]);
    if frame.InvokeMethodReply? then l'.(sent := l.sent[frame.id := SentFor(l, frame.id) + [frame.result]]) else l'
  }

  function SentFor(l: Link, id: nat): seq<Result> {
    if id in l.sent then l.sent[id] else []
  }

  /** The link once the host has dealt with the client's next frame. */
  function Handled(l: Link, out: Outcome): Link
    requires l.client.toHost != []
  {
    var frame := l.client.toHost[0];
    var taken := l.(client := l.client.(toHost := l.client.toHost[1..]),
                    dispatched := if out.dispatch.Some? then l.dispatched[frame.id := out.dispatch.value]
                      else l.dispatched);
    if out.reply.Some? then SentAfter(taken, out.reply.value) else taken
  }

  function Apply(s: System, step: Step): System
    requires Enabled(s, step)
  {
    match step
    case Expose(service) => s.(host := ExposeService(s.host, service))
    case StartClient(sock) => s.(links := s.links[sock := Link(NEW_CLIENT, [], false, false, map[], map[])])
    case HostAccepts(sock) =>
      System(OnNewIncomingConnection(s.host, sock), s.links[sock := s.links[sock].(accepted := true)])
    case HostDisconnects(sock) => s.(host := HostDisconnected(s.host, sock))
    case HostReceives(sock, parses) =>
      var l := s.links[sock];
      var out := OnReceivedFrame(s.host, sock, l.client.toHost[0], parses);
      System(out.host, s.links[sock := Handled(l, out)])
    case Resolve(k, result) =>
      var sock, host := ReplyTo(s.host, k), Resolved(s.host, k, result);
      if sock.Some? && sock.value in s.links
      then
        var reply := InvokeMethodReply(s.host.held[k].request, result);
        System(host, s.links[sock.value := SentAfter(s.links[sock.value], reply)])
      else s.(host := host)
    case ClientReceives(sock) =>
      var l := s.links[sock];
      s.(links := s.links[sock := l.(client := ClientAfter(l, step), toClient := l.toClient[1..])])
    case _ =>
      var l := s.links[step.sock];
      var tries := step.ClientConnects? || step.ConnectFails?;
      s.(links := s.links[step.sock := l.(client := ClientAfter(l, step), tried := l.tried || tries)])
  }

  predicate IsRun(states: seq<System>, steps: seq<Step>) {
    && |states| == |steps| + 1 && states[0] == System(NEW_HOST, map[])
    && forall k :: 0 <= k < |steps| ==> Enabled(states[k], steps[k]) && states[k + 1] == Apply(states[k], steps[k])
  }
}
