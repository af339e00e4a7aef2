/** Objects for a host and its clients, connected by their sockets, go through every run of the protocol: what is
    proved of the runs holds of the objects. */
module RpcObjects {
  import opened Options
  import opened Rpc
  import opened RpcCallbacks
  import opened RpcEffects
  import opened RpcEndpoints
  import opened RpcNotices
  import opened RpcSystem

  /** A client object and what is on its way to it are as a state of the protocol says. */
  ghost predicate Mirrored(end: ClientImpl, channel: seq<Frame>, l: Link)
    reads end
  {
    end.Valid() && end.View() == l.client && channel == l.toClient
  }

  ghost predicate Mirrors(host: HostImpl, ends: map<nat, ClientImpl>, channels: map<nat, seq<Frame>>, s: System)
    reads host, ends.Values
  {
    && host.Valid() && host.View() == s.host
    && ends.Keys == channels.Keys == s.links.Keys
    && (forall a, b :: a in ends && b in ends && a != b ==> ends[a] != ends[b])
    && forall sock :: sock in ends ==> Mirrored(ends[sock], channels[sock], s.links[sock])
  }

  /** What a client does of its own, or with the next frame from the host. */
  method ClientStep(end: ClientImpl, channel: seq<Frame>, step: Step, ghost h: Host, ghost l: Link)
    requires Mirrored(end, channel, l) && IsClientStep(step) && LinkEnabled(h, step.sock, l, step)
    requires !l.tried ==> !l.client.ended
    modifies end
    ensures end.Valid() && end.View() == ClientAfter(l, step)
  {
    hide ClientOk, Bind, Connected, Invoke, OnFrameReceived, Disconnected, Noticed, Destroyed;
    match step {
      case MakeProxy(_, service) => var _ := end.MakeProxy(service);
      case BindProxy(_, proxy) => end.BindService(proxy);
      case ClientConnects(_) => end.OnConnect(true);
      case ConnectFails(_) => end.OnConnect(false);
      case Call(_, proxy, methodName, args, callback) => end.ProxyBeginInvoke(proxy, methodName, args, callback);
      case ClientReceives(_) => end.OnReceived(channel[0]);
      case SocketShuts(_) => end.OnShut();
      case ClientDisconnects(_) => end.OnDisconnect();
      case ProxyNoticed(_) => end.RunNotice();
      case DestroyProxy(_, proxy) => end.DestroyProxy(proxy);
    }
  }

  function Sending(channel: seq<Frame>, reply: Option<Frame>): seq<Frame> {
    if reply.Some? then channel + [reply.value] else channel
  }

  /** The host deals with the next frame of a client. */
  method HostReceive(host: HostImpl, end: ClientImpl, channel: seq<Frame>, sock: nat, parses: bool, ghost l: Link)
    returns (channel': seq<Frame>)
    requires host.Valid() && Mirrored(end, channel, l) && sock in host.clientsBySocket && l.client.toHost != []
    modifies host, end
    ensures var out := OnReceivedFrame(old(host.View()), sock, l.client.toHost[0], parses);
            host.Valid() && host.View() == out.host && Mirrored(end, channel', Handled(l, out))
  {
    hide ClientOk, PairedOk, OwedHere, OnReceivedFrame, BindsTo, Target, ReplyTo;
    var frame := end.TakeFrame();
    var reply, dispatch := host.OnReceivedFrame(sock, frame, parses);
    channel' := Sending(channel, reply);
  }

  /** The host is as the state says, and so is every client but perhaps one. */
  ghost predicate MirrorsBut(host: HostImpl, ends: map<nat, ClientImpl>, channels: map<nat, seq<Frame>>, s: System,
                             h': Host, sock: nat)
    reads host, ends.Values
  {
    && host.Valid() && host.View() == h' && ends.Keys == channels.Keys == s.links.Keys && sock in ends
    && (forall a, b :: a in ends && b in ends && a != b ==> ends[a] != ends[b])
    && forall a :: a in ends && a != sock ==> Mirrored(ends[a], channels[a], s.links[a])
  }

  lemma {:induction false} OneMirrored(host: HostImpl, ends: map<nat, ClientImpl>, channels: map<nat, seq<Frame>>,
                                       s: System, sock: nat, channel: seq<Frame>, s': System, l': Link)
    requires MirrorsBut(host, ends, channels, s, s'.host, sock) && s'.links == s.links[sock := l']
    requires Mirrored(ends[sock], channel, l')
    ensures Mirrors(host, ends, channels[sock := channel], s')
  {
    hide HostImpl.Valid, HostImpl.View, Mirrored;
  }

  method PerformClient(host: HostImpl, ends: map<nat, ClientImpl>, channels: map<nat, seq<Frame>>, step: Step,
                       ghost s: System)
    returns (channels': map<nat, seq<Frame>>)
    requires Mirrors(host, ends, channels, s) && Enabled(s, step) && Inv(s) && IsClientStep(step)
    modifies ends.Values
    ensures Mirrors(host, ends, channels', Apply(s, step))
  {
    hide Inv, ClientAfter, HostImpl.Valid, ClientImpl.Valid, HostImpl.View, ClientImpl.View, Apply, Mirrored;
    var sock := step.sock;
    ghost var l, l' := s.links[sock], ClientLinkAfter(s, step);
    EndsLater(s, sock);
    ChannelOf(ends[sock], channels[sock], l);
    ClientStep(ends[sock], channels[sock], step, s.host, l);
    var channel := if step.ClientReceives? then channels[sock][1..] else channels[sock];
    AreMirrored(ends[sock], channel, l');
    OneMirrored(host, ends, channels, s, sock, channel, Apply(s, step), l');
    channels' := channels[sock := channel];
  }

  ghost function ClientLinkAfter(s: System, step: Step): (l': Link)
    requires Enabled(s, step) && IsClientStep(step)
    ensures Apply(s, step) == s.(links := s.links[step.sock := l'])
    ensures l'.client == ClientAfter(s.links[step.sock], step)
    ensures l'.toClient == if step.ClientReceives? then s.links[step.sock].toClient[1..]
            else s.links[step.sock].toClient
  {
    Apply(s, step).links[step.sock]
  }

  lemma {:induction false} ChannelOf(end: ClientImpl, channel: seq<Frame>, l: Link)
    requires Mirrored(end, channel, l)
    ensures channel == l.toClient
  {
  }

  lemma {:induction false} AreMirrored(end: ClientImpl, channel: seq<Frame>, l: Link)
    requires end.Valid() && end.View() == l.client && channel == l.toClient
    ensures Mirrored(end, channel, l)
  {
  }

  method PerformReceive(host: HostImpl, ends: map<nat, ClientImpl>, channels: map<nat, seq<Frame>>, sock: nat,
                        parses: bool, ghost s: System)
    returns (channels': map<nat, seq<Frame>>)
    requires Mirrors(host, ends, channels, s) && Enabled(s, HostReceives(sock, parses))
    modifies host, ends.Values
    ensures Mirrors(host, ends, channels', Apply(s, HostReceives(sock, parses)))
  {
    hide HostImpl.Valid, OnReceivedFrame, Handled, Mirrored;
    ghost var l := s.links[sock];
    var channel := HostReceive(host, ends[sock], channels[sock], sock, parses, l);
    ghost var s' := Apply(s, HostReceives(sock, parses));
    OneMirrored(host, ends, channels, s, sock, channel, s', s'.links[sock]);
    channels' := channels[sock := channel];
  }

  method PerformResolve(host: HostImpl, ends: map<nat, ClientImpl>, channels: map<nat, seq<Frame>>, k: nat,
                        result: Result, ghost s: System)
    returns (channels': map<nat, seq<Frame>>)
    requires Mirrors(host, ends, channels, s) && Enabled(s, Resolve(k, result))
    modifies host
    ensures Mirrors(host, ends, channels', Apply(s, Resolve(k, result)))
  {
    hide HostImpl.Valid, Mirrored;
    var sock, reply := host.ReplyToMethodInvocation(k, result);
    channels' := channels;
    if sock.Some? && sock.value in ends {
      ghost var s' := Apply(s, Resolve(k, result));
      SentMirrored(ends[sock.value], channels[sock.value], s.links[sock.value], reply);
      OneMirrored(host, ends, channels, s, sock.value, channels[sock.value] + [reply], s', s'.links[sock.value]);
      channels' := channels[sock.value := channels[sock.value] + [reply]];
    }
  }

  lemma {:induction false} SentMirrored(end: ClientImpl, channel: seq<Frame>, l: Link, frame: Frame)
    requires Mirrored(end, channel, l)
    ensures Mirrored(end, channel + [frame], SentAfter(l, frame))
  {
  }

  method PerformStart(host: HostImpl, ends: map<nat, ClientImpl>, channels: map<nat, seq<Frame>>, sock: nat,
                      ghost s: System)
    returns (ends': map<nat, ClientImpl>, channels': map<nat, seq<Frame>>)
    requires Mirrors(host, ends, channels, s) && Enabled(s, StartClient(sock))
    ensures Mirrors(host, ends', channels', Apply(s, StartClient(sock)))
    ensures forall a :: a in ends' ==> ends'[a] in ends.Values || fresh(ends'[a])
  {
    hide ClientImpl.Valid, HostImpl.Valid, HostImpl.View, Mirrored;
    var end := new ClientImpl();
    AreMirrored(end, [], Link(NEW_CLIENT, [], false, false, map[], map[]));
    ends', channels' := ends[sock := end], channels[sock := []];
  }

  method Perform(host: HostImpl, ends: map<nat, ClientImpl>, channels: map<nat, seq<Frame>>, step: Step,
                 ghost s: System)
    returns (ends': map<nat, ClientImpl>, channels': map<nat, seq<Frame>>)
    requires Mirrors(host, ends, channels, s) && Enabled(s, step) && Inv(s)
    modifies host, ends.Values
    ensures Mirrors(host, ends', channels', Apply(s, step))
    ensures forall a :: a in ends' ==> ends'[a] in ends.Values || fresh(ends'[a])
  {
    hide Inv, ClientOk, HostImpl.Valid, Mirrors, Apply;
    ends', channels' := ends, channels;
    match step {
      case Expose(service) => PerformHost(host, ends, channels, step, s);
      case HostAccepts(sock) => PerformAccept(host, ends, channels, sock, s);
      case HostDisconnects(sock) => PerformHost(host, ends, channels, step, s);
      case StartClient(sock) => ends', channels' := PerformStart(host, ends, channels, sock, s);
      case HostReceives(sock, parses) => channels' := PerformReceive(host, ends, channels, sock, parses, s);
      case Resolve(k, result) => channels' := PerformResolve(host, ends, channels, k, result, s);
      case _ => channels' := PerformClient(host, ends, channels, step, s);
    }
  }

  method PerformHost(host: HostImpl, ends: map<nat, ClientImpl>, channels: map<nat, seq<Frame>>, step: Step,
                     ghost s: System)
    requires Mirrors(host, ends, channels, s) && Enabled(s, step) && Inv(s)
    requires step.Expose? || step.HostDisconnects?
    modifies host
    ensures Mirrors(host, ends, channels, Apply(s, step))
  {
    hide HostImpl.Valid, Mirrored, LinksOk, HeldOk, PairedOk, ExposeService, HostDisconnected;
    match step {
      case Expose(service) => var _ := host.ExposeService(service);
      case HostDisconnects(sock) => host.OnDisconnect(sock);
    }
  }

  method PerformAccept(host: HostImpl, ends: map<nat, ClientImpl>, channels: map<nat, seq<Frame>>, sock: nat,
                       ghost s: System)
    requires Mirrors(host, ends, channels, s) && Enabled(s, HostAccepts(sock)) && Inv(s)
    modifies host
    ensures Mirrors(host, ends, channels, Apply(s, HostAccepts(sock)))
  {
    hide HostImpl.Valid, Mirrored, LinksOk, HeldOk, PairedOk;
    host.OnNewIncomingConnection(sock);
    ghost var s' := Apply(s, HostAccepts(sock));
    AcceptedMirrored(ends[sock], channels[sock], s.links[sock]);
    OneMirrored(host, ends, channels, s, sock, channels[sock], s', s'.links[sock]);
    assert channels[sock := channels[sock]] == channels;
  }

  lemma {:induction false} AcceptedMirrored(end: ClientImpl, channel: seq<Frame>, l: Link)
    requires Mirrored(end, channel, l)
    ensures Mirrored(end, channel, l.(accepted := true))
  {
  }

  /** The objects, driven by any run, are where the run says. */
  method Simulate(steps: seq<Step>, ghost states: seq<System>)
    returns (host: HostImpl, ends: map<nat, ClientImpl>, channels: map<nat, seq<Frame>>)
    requires IsRun(states, steps)
    ensures Mirrors(host, ends, channels, states[|steps|])
  {
    hide Apply, Enabled, Inv, Mirrors;
    host := new HostImpl();
    ends, channels := map[], map[];
    NothingYet(host);
    for k := 0 to |steps|
      invariant fresh(host) && (forall a :: a in ends ==> fresh(ends[a]))
      invariant Mirrors(host, ends, channels, states[k])
    {
      RunInv(states, steps, k);
      ends, channels := Perform(host, ends, channels, steps[k], states[k]);
    }
  }

  lemma {:induction false} NothingYet(host: HostImpl)
    requires host.Valid() && host.View() == NEW_HOST
    ensures Mirrors(host, map[], map[], System(NEW_HOST, map[]))
  {
  }
}
