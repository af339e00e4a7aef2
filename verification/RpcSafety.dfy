/** In every run of a host and its clients, calls reach the methods they name, results reach the callbacks that
    wait for them, and each callback gets exactly one last result. */
module RpcSafety {
  import opened Options
  import opened Ordering
  import opened Rpc
  import opened RpcCallbacks
  import opened RpcLinks
  import opened RpcReplies

  // ---- What a client does of its own ----------------------------------------------------------------------

  lemma {:induction false} LetGoGiven(c: Client, c': Client, proxy: nat)
    requires GivenOk(c) && CallbacksOk(c) && proxy in c.proxies && c'.got == c.got && c'.issued == c.issued
    requires c'.results == RejectedAll(c.results, c.proxies[proxy].pending)
    requires forall k: nat, q: nat, i: nat :: Waits(c'.proxies, k, q, i) <==> Waits(c.proxies, k, q, i) && q != proxy
    ensures GivenOk(c')
  {
    var pending := c.proxies[proxy].pending;
    forall id: nat, k: nat | For(c', id, k)
      ensures For(c, id, k) && Given(c', id, k)
    {
      assert For(c, id, k) && Given(c, id, k);
      if k in pending.Values {
        var i :| i in pending && pending[i] == k;
        assert Waits(c.proxies, k, proxy, i);
        assert For(c, i, k);
      }
    }
    forall k: nat, p: nat, id: nat | Waits(c'.proxies, k, p, id)
      ensures For(c', id, k) && Given(c', id, k) && c'.results[k] == c'.got[id]
    {
      assert Waits(c.proxies, k, p, id);
      assert For(c, id, k) && For(c', id, k);
      WaitsElsewhere(c, k, p, id, proxy);
    }
  }

  lemma {:induction false} WaitsElsewhere(c: Client, k: nat, p: nat, id: nat, q: nat)
    requires CallbacksOk(c) && Waits(c.proxies, k, p, id) && q in c.proxies && p != q
    ensures k !in c.proxies[q].pending.Values
  {
    var pending := c.proxies[q].pending;
    if k in pending.Values {
      var i :| i in pending && pending[i] == k;
      assert Waits(c.proxies, k, q, i);
      assert false;
    }
  }

  lemma {:induction false} NoticedClient(c: Client)
    requires CallbacksOk(c) && GivenOk(c) && c.notices != [] && c.notices[0] in c.proxies
    ensures var c' := Noticed(c);
            && CallbacksOk(c') && GivenOk(c') && c'.connected == c.connected && c'.ended == c.ended
                 && c'.lastRequest == c.lastRequest
            && c'.issued == c.issued && c'.toHost == c.toHost && c'.got == c.got && c'.queued == c.queued
            && c'.notices == c.notices[1..]
            && c'.proxies == c.proxies[c.notices[0] := c.proxies[c.notices[0]].(pending := map[])]
  {
    hide CallbacksOk, GivenOk, RejectedAll;
    NoticedOk(c);
    LetGoGiven(c, Noticed(c), c.notices[0]);
  }

  lemma {:induction false} NoticedLink(services: map<nat, Service>, l: Link)
    requires LinkOk(services, l) && l.client.notices != []
    ensures LinkOk(services, l.(client := Noticed(l.client)))
  {
    hide CallbacksOk, FramesOk, GivenOk, AllGotOk, TablesOk;
    if l.client.notices[0] in l.client.proxies {
      NoticedAlive(services, l);
    } else {
      SameLink(services, l, l.(client := Noticed(l.client)));
    }
  }

  lemma {:induction false} NoticedAlive(services: map<nat, Service>, l: Link)
    requires LinkOk(services, l) && l.client.notices != [] && l.client.notices[0] in l.client.proxies
    ensures LinkOk(services, l.(client := Noticed(l.client)))
  {
    hide CallbacksOk, FramesOk, GivenOk, AllGotOk, TablesOk, Noticed;
    var c, c' := l.client, Noticed(l.client);
    var l' := l.(client := c');
    NoticedClient(c);
    SameFrames(services, l, l');
    GotKept(l, l');
    NoticedTables(services, c);
  }

  lemma {:induction false} NoticedTables(services: map<nat, Service>, c: Client)
    requires TablesOk(services, c) && c.notices != [] && c.notices[0] in c.proxies
    ensures TablesOk(services, Noticed(c))
  {
  }

  lemma {:induction false} DestroyedLink(services: map<nat, Service>, l: Link, proxy: nat)
    requires LinkOk(services, l) && proxy in l.client.proxies
    ensures LinkOk(services, l.(client := Destroyed(l.client, proxy)))
  {
    hide CallbacksOk, FramesOk, GivenOk, AllGotOk, RejectedAll, TablesOk, KeysOk;
    var c, c' := l.client, Destroyed(l.client, proxy);
    var l' := l.(client := c');
    DestroyedOk(c, proxy);
    LetGoGiven(c, c', proxy);
    SameFrames(services, l, l');
    GotKept(l, l');
    DestroyedTables(services, c, proxy);
  }

  lemma {:induction false} DestroyedTables(services: map<nat, Service>, c: Client, proxy: nat)
    requires TablesOk(services, c) && KeysOk(c.ended, c.queued, c.proxies) && proxy in c.proxies
    ensures var c' := Destroyed(c, proxy);
            TablesOk(services, c') && KeysOk(c'.ended, c'.queued, c'.proxies)
  {
  }

  lemma {:induction false} NewProxyLink(services: map<nat, Service>, l: Link, service: string)
    requires LinkOk(services, l)
    ensures LinkOk(services, l.(client := NewProxy(l.client, service)))
  {
    hide CallbacksOk, FramesOk, GivenOk, AllGotOk;
    var c, c' := l.client, NewProxy(l.client, service);
    var l' := l.(client := c');
    NewProxyOk(c, service);
    SameFrames(services, l, l');
    GotKept(l, l');
    NewProxyTables(services, c, service);
    NewProxyGiven(c, service);
  }

  lemma {:induction false} NewProxyGiven(c: Client, service: string)
    requires GivenOk(c) && c.madeProxies !in c.proxies
    ensures GivenOk(NewProxy(c, service))
  {
    var c' := NewProxy(c, service);
    assert forall id, k :: For(c', id, k) == For(c, id, k);
    assert forall id, k :: id in c.got ==> Given(c', id, k) == Given(c, id, k);
    forall k: nat, p: nat, id: nat | Waits(c'.proxies, k, p, id)
      ensures Waits(c.proxies, k, p, id)
    {
    }
  }

  lemma {:induction false} NewProxyTables(services: map<nat, Service>, c: Client, service: string)
    requires TablesOk(services, c) && KeysOk(c.ended, c.queued, c.proxies)
    ensures var c' := NewProxy(c, service);
            TablesOk(services, c') && KeysOk(c'.ended, c'.queued, c'.proxies)
  {
  }

  /** Whatever a client does, or receives, what holds between it and the host goes on to hold. */
  lemma {:induction false} ClientLink(h: Host, sock: nat, l: Link, step: Step)
    requires LinkOk(h.services, l) && LinkEnabled(h, sock, l, step) && IsClientStep(step)
    ensures var tries := step.ClientConnects? || step.ConnectFails?;
            var l' := l.(client := ClientAfter(l, step), tried := l.tried || tries);
            LinkOk(h.services, if step.ClientReceives? then l'.(toClient := l.toClient[1..]) else l')
  {
    hide LinkOk;
    var services := h.services;
    match step
    case MakeProxy(_, service) => NewProxyLink(services, l, service);
    case BindProxy(_, proxy) => BindLink(services, l, proxy);
    case ClientConnects(_) => ConnectedLink(services, l);
    case ConnectFails(_) => FailedLink(services, l);
    case Call(_, proxy, methodName, args, callback) => InvokeLink(services, l, proxy, methodName, args, callback);
    case ClientReceives(_) => ReceivedLink(services, l);
    case SocketShuts(_) => ShutLink(services, l);
    case ClientDisconnects(_) => DisconnectedLink(services, l);
    case ProxyNoticed(_) => NoticedLink(services, l);
    case DestroyProxy(_, proxy) => DestroyedLink(services, l, proxy);
  }

  lemma {:induction false} FailedLink(services: map<nat, Service>, l: Link)
    requires LinkOk(services, l)
    ensures LinkOk(services, l.(client := ConnectFailed(l.client), tried := true))
  {
    hide CallbacksOk, FramesOk, GivenOk, AllGotOk, KeysOk, TablesOk;
    SameLink(services, l, l.(client := ConnectFailed(l.client), tried := true));
  }

  lemma {:induction false} ShutLink(services: map<nat, Service>, l: Link)
    requires LinkOk(services, l)
    ensures LinkOk(services, l.(client := Shut(l.client)))
  {
    hide CallbacksOk, FramesOk, GivenOk, AllGotOk, KeysOk, TablesOk;
    SameLink(services, l, l.(client := Shut(l.client)));
  }

  lemma {:induction false} DisconnectedLink(services: map<nat, Service>, l: Link)
    requires LinkOk(services, l) && l.tried
    ensures LinkOk(services, l.(client := Disconnected(l.client)))
  {
    hide CallbacksOk, FramesOk, GivenOk, AllGotOk, KeysOk, TablesOk;
    SameLink(services, l, l.(client := Disconnected(l.client)));
  }

  // ---- What the host does ---------------------------------------------------------------------------------

  lemma {:induction false} InFlightSnoc(toClient: seq<Frame>, f: Frame, id: nat)
    ensures InFlight(toClient + [f], id) == InFlight(toClient, id)
            + (if f.InvokeMethodReply? && f.id == id then [f.result] else [])
    decreases |toClient|
  {
    if toClient != [] {
      InFlightSnoc(toClient[1..], f, id);
      assert (toClient + [f])[1..] == toClient[1..] + [f];
    } else {
      assert [f][1..] == [];
    }
  }

  lemma {:induction false} SentFrames(services: map<nat, Service>, l: Link, f: Frame)
    requires FramesOk(services, l) && Answers(services, l.client.issued, f)
    ensures FramesOk(services, SentAfter(l, f))
  {
  }

  lemma {:induction false} SentGot(l: Link, f: Frame, id: nat)
    requires id in l.client.got && GotOk(l, id)
    ensures GotOk(SentAfter(l, f), id)
  {
    hide InFlight, Pending;
    var more := if f.InvokeMethodReply? && f.id == id then [f.result] else [];
    InFlightSnoc(l.toClient, f, id);
    var got, flying := l.client.got[id], InFlight(l.toClient, id);
    assert SentFor(SentAfter(l, f), id) == SentFor(l, id) + more;
    assert got + (flying + more) == got + flying + more;
  }

  lemma {:induction false} SentLink(services: map<nat, Service>, l: Link, f: Frame)
    requires LinkOk(services, l) && Answers(services, l.client.issued, f)
    ensures LinkOk(services, SentAfter(l, f))
  {
    hide CallbacksOk, FramesOk, GivenOk, TablesOk, KeysOk, GotOk;
    SentFrames(services, l, f);
    forall id | id in l.client.got
      ensures GotOk(SentAfter(l, f), id)
    {
      SentGot(l, f, id);
    }
  }

  lemma {:induction false} FirstNamedOk(services: map<nat, Service>, ids: seq<nat>, name: string)
    requires forall id :: id in ids ==> id in services
    ensures var r := FirstNamed(services, ids, name);
            if r.Some? then r.value in ids && services[r.value].name == name
            else forall id :: id in ids ==> services[id].name != name
    decreases |ids|
  {
    if ids != [] {
      assert ids == [ids[0]] + ids[1..];
      if services[ids[0]].name != name {
        FirstNamedOk(services, ids[1..], name);
      }
    }
  }

  /** A service is found by its name exactly if there is one. */
  lemma {:induction false} GetServiceByNameOk(services: map<nat, Service>, name: string)
    ensures var r := GetServiceByName(services, name);
            if r.Some? then r.value in services && services[r.value].name == name
            else forall id :: id in services ==> services[id].name != name
  {
    FirstNamedOk(services, InOrder(services.Keys), name);
  }

  /** The frame is taken from the channel, and what it asked for is noted as run. */
  lemma {:induction false} TakenLink(services: map<nat, Service>, l: Link, dispatch: Option<Dispatch>)
    requires LinkOk(services, l) && l.client.toHost != []
    requires dispatch.Some? ==> l.client.toHost[0].InvokeMethod? && Target(services, l.client.toHost[0]) == dispatch
    ensures var f := l.client.toHost[0];
            && AskedFor(services, l.client.issued, f)
            && LinkOk(services, l.(client := l.client.(toHost := l.client.toHost[1..]),
                                   dispatched := if dispatch.Some? then l.dispatched[f.id := dispatch.value]
                                     else l.dispatched))
  {
    hide CallbacksOk, TablesOk, KeysOk;
    var c, f := l.client, l.client.toHost[0];
    var c' := c.(toHost := c.toHost[1..]);
    var l' := l.(client := c', dispatched := if dispatch.Some? then l.dispatched[f.id := dispatch.value]
        else l.dispatched);
    assert AskedFor(services, c.issued, f);
    SamePending(c, c');
    SameTables(services, c, c');
    assert forall id, k :: For(c', id, k) == For(c, id, k);
    assert forall id, k :: id in c.got ==> Given(c', id, k) == Given(c, id, k);
    TakenFrames(services, l, l');
    GotKept(l, l');
  }

  lemma {:induction false} TakenFrames(services: map<nat, Service>, l: Link, l': Link)
    requires FramesOk(services, l) && l.client.toHost != []
    requires l'.client == l.client.(toHost := l.client.toHost[1..]) && l'.toClient == l.toClient && l'.sent == l.sent
    requires var f := l.client.toHost[0];
             l'.dispatched == l.dispatched || (f.InvokeMethod? && Target(services, f).Some?
               && l'.dispatched == l.dispatched[f.id := Target(services, f).value])
    ensures FramesOk(services, l')
  {
  }

  lemma {:induction false} HandledLink(h: Host, sock: nat, l: Link, parses: bool)
    requires LinkOk(h.services, l) && l.client.toHost != [] && sock in h.clientsBySocket
    ensures var out := OnReceivedFrame(h, sock, l.client.toHost[0], parses);
            LinkOk(h.services, Handled(l, out)) && AskedFor(h.services, l.client.issued, l.client.toHost[0])
  {
    hide LinkOk, GetServiceByName;
    var f := l.client.toHost[0];
    var out := OnReceivedFrame(h, sock, f, parses);
    TakenLink(h.services, l, out.dispatch);
    var taken := l.(client := l.client.(toHost := l.client.toHost[1..]),
                    dispatched := if out.dispatch.Some? then l.dispatched[f.id := out.dispatch.value]
                      else l.dispatched);
    if out.reply.Some? {
      if f.BindService? {
        GetServiceByNameOk(h.services, f.service);
      }
      SentLink(h.services, taken, out.reply.value);
    }
  }

  /** More services change nothing for what holds. */
  lemma {:induction false} GrownLink(services: map<nat, Service>, more: map<nat, Service>, l: Link)
    requires LinkOk(services, l) && forall id :: id in services ==> id in more && more[id] == services[id]
    ensures LinkOk(more, l)
  {
  }
}
