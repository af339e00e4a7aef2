/** The frames between a host and a client, as their sockets carry them. */
module RpcChannels {
  import opened Options
  import opened Pipes
  import opened Rpc
  import opened RpcSystem

  /** Frames are added, under numbers not used before. */
  predicate Appends(c: Client, c': Client) {
    && c.toHost <= c'.toHost && c.lastRequest <= c'.lastRequest
    && forall i :: |c.toHost| <= i < |c'.toHost| ==> c.lastRequest < c'.toHost[i].id
  }

  lemma {:induction false} AppendsOn(a: Client, b: Client, c: Client)
    requires Appends(a, b) && Appends(b, c)
    ensures Appends(a, c)
  {
    forall i | |a.toHost| <= i < |c.toHost|
      ensures a.lastRequest < c.toHost[i].id
    {
      if i < |b.toHost| {
        assert c.toHost[i] == b.toHost[i];
      }
    }
  }

  lemma {:induction false} BindAppends(c: Client, proxy: nat)
    ensures Appends(c, Bind(c, proxy))
  {
  }

  lemma {:induction false} BindAllAppends(c: Client, proxies: seq<nat>)
    ensures Appends(c, BindAll(c, proxies))
    decreases |proxies|
  {
    hide Bind, Appends;
    if proxies == [] {
      SameAppends(c, c);
    } else {
      BindAppends(c, proxies[0]);
      BindAllAppends(Bind(c, proxies[0]), proxies[1..]);
      AppendsOn(c, Bind(c, proxies[0]), BindAll(c, proxies));
    }
  }

  lemma {:induction false} SameAppends(c: Client, c': Client)
    requires c'.toHost == c.toHost && c'.lastRequest == c.lastRequest
    ensures Appends(c, c')
  {
  }

  lemma {:induction false} ConnectedAppends(c: Client)
    ensures Appends(c, Connected(c))
  {
    hide BindAll;
    BindAllAppends(c.(connected := true), c.queuedBindings);
  }

  /** A client only ever adds to what it has sent, under new numbers. */
  lemma {:induction false} ClientAppends(l: Link, step: Step)
    requires IsClientStep(step)
    requires step.Call? || step.DestroyProxy? ==> step.proxy in l.client.proxies
    requires step.ClientReceives? ==> l.toClient != []
    requires step.ProxyNoticed? ==> l.client.notices != []
    ensures Appends(l.client, ClientAfter(l, step))
  {
    hide Appends, Bind, Connected, Invoke, OnFrameReceived, Noticed, Destroyed, Disconnected;
    var c := l.client;
    match step
    case MakeProxy(_, service) => SameAppends(c, NewProxy(c, service));
    case BindProxy(_, proxy) => BindAppends(c, proxy);
    case ClientConnects(_) => ConnectedAppends(c);
    case ConnectFails(_) => SameAppends(c, ConnectFailed(c));
    case Call(_, proxy, methodName, args, callback) => InvokeAppends(c, proxy, methodName, args, callback);
    case ClientReceives(_) => ReceivedSendsNothing(c, l.toClient[0]);
    case ClientDisconnects(_) => DisconnectedSendsNothing(c);
    case ProxyNoticed(_) => NoticedSendsNothing(c);
    case SocketShuts(_) => SameAppends(c, Shut(c));
    case DestroyProxy(_, proxy) => DestroyedSendsNothing(c, proxy);
  }

  lemma {:induction false} InvokeAppends(c: Client, proxy: nat, methodName: string, args: nat, callback: Option<nat>)
    requires proxy in c.proxies
    ensures Appends(c, Invoke(c, proxy, methodName, args, callback))
  {
  }

  lemma {:induction false} ReceivedSendsNothing(c: Client, frame: Frame)
    ensures Appends(c, OnFrameReceived(c, frame))
  {
    hide MethodMap;
  }

  lemma {:induction false} DisconnectedSendsNothing(c: Client)
    ensures Appends(c, Disconnected(c))
  {
  }

  lemma {:induction false} NoticedSendsNothing(c: Client)
    requires c.notices != []
    ensures Appends(c, Noticed(c))
  {
    hide Noticed;
  }

  lemma {:induction false} DestroyedSendsNothing(c: Client, proxy: nat)
    requires proxy in c.proxies
    ensures Appends(c, Destroyed(c, proxy))
  {
    hide RejectedAll;
  }

  /** In every step, each channel between a host and a client is a queue: frames are added at its end, or its
      oldest frame is taken by the other side. */
  lemma {:induction false} ChannelsQueue(s: System, step: Step, sock: nat)
    requires Enabled(s, step) && sock in s.links
    ensures var s' := Apply(s, step);
            && sock in s'.links
            && Queues(s.links[sock].client.toHost, s'.links[sock].client.toHost)
            && Queues(s.links[sock].toClient, s'.links[sock].toClient)
  {
    hide ClientAfter, OnReceivedFrame, ExposeService, OnNewIncomingConnection, HostDisconnected, Resolved, ReplyTo;
    if IsClientStep(step) {
      ClientAppends(s.links[step.sock], step);
    }
  }

  function Channel(s: System, sock: nat, down: bool): seq<Frame> {
    if sock !in s.links then []
    else if down then s.links[sock].toClient
    else s.links[sock].client.toHost
  }

  /** One of the two channels of a client, from a state of the run on. */
  function Traffic(states: seq<System>, sock: nat, from: nat, down: bool): (r: seq<seq<Frame>>)
    requires from < |states|
    ensures |r| == |states| - from
  {
    seq(|states| - from, i requires 0 <= i < |states| - from => Channel(states[from + i], sock, down))
  }

  /** A client that was made stays. */
  lemma {:induction false} Stays(states: seq<System>, steps: seq<Step>, sock: nat, from: nat, k: nat)
    requires IsRun(states, steps) && from <= k < |states| && sock in states[from].links
    ensures sock in states[k].links
    decreases k
  {
    hide Apply, Enabled, Queues;
    if from < k {
      Stays(states, steps, sock, from, k - 1);
      assert states[k - 1 + 1] == Apply(states[k - 1], steps[k - 1]);
      ChannelsQueue(states[k - 1], steps[k - 1], sock);
    }
  }

  /** In every run, whatever pieces the bytes arrive in, a pipe that is given each frame as it is sent and hands
      one out whenever one is received carries exactly the frames of the channel: what is received is what the
      protocol says. */
  lemma {:induction false} LinkCarried(codec: Codec<Frame>, states: seq<System>, steps: seq<Step>, sock: nat,
                                       from: nat, down: bool, pipes: seq<Pipe<Frame>>, k: nat)
    requires IsRun(states, steps) && from < |steps| && steps[from] == StartClient(sock) && k < |pipes|
    requires var queues := Traffic(states, sock, from + 1, down);
             && |pipes| == |queues| && pipes[0] == Pipe([], [], [])
             && (forall i :: 0 <= i < |queues| ==> AllCarriable(codec, queues[i]))
             && forall i :: 0 <= i < |queues| - 1 ==> Follows(codec, pipes[i], queues[i], queues[i + 1], pipes[i + 1])
    ensures Carries(codec, pipes[k], Traffic(states, sock, from + 1, down)[k])
  {
    hide Apply, Enabled, Follows, AllCarriable, Queues;
    var queues := Traffic(states, sock, from + 1, down);
    assert states[from + 1] == Apply(states[from], steps[from]);
    StartsEmpty(states[from], sock);
    forall i | 0 <= i < |queues| - 1
      ensures Queues(queues[i], queues[i + 1])
    {
      var at := from + 1 + i;
      Stays(states, steps, sock, from + 1, at);
      Stays(states, steps, sock, from + 1, at + 1);
      assert states[at + 1] == Apply(states[at], steps[at]);
      ChannelsQueue(states[at], steps[at], sock);
      assert queues[i] == Channel(states[at], sock, down) && queues[i + 1] == Channel(states[at + 1], sock, down);
    }
    PipeCarries(codec, queues, pipes, k);
  }

  lemma {:induction false} StartsEmpty(s: System, sock: nat)
    requires Enabled(s, StartClient(sock))
    ensures var s' := Apply(s, StartClient(sock));
            sock in s'.links && forall down :: Channel(s', sock, down) == []
  {
  }
}
