/** Each request is answered once: what a host sends for it ends with the first last result, and its method is run
    once at most. */
module RpcOnce {
  import opened Options
  import opened Rpc
  import opened RpcCallbacks
  import opened RpcChannels
  import opened RpcLinks
  import opened RpcSafety
  import opened RpcSystem

  // ---- The invariant --------------------------------------------------------------------------------------

  predicate OneLast(results: seq<Result>) {
    AllMore(results) || Complete(results)
  }

  /** At most one last result was sent for each request, at the end; and nothing for a request that the host has
      not read. */
  predicate SentOk(sent: map<nat, seq<Result>>, toHost: seq<Frame>) {
    && (forall id :: id in sent ==> OneLast(sent[id]))
    && (forall id, i :: id in sent && 0 <= i < |toHost| ==> id < toHost[i].id)
  }

  /** A request for which a reply is owed has had no last result. */
  predicate OwedMore(links: map<nat, Link>, o: Held) {
    o.sock in links ==> AllMore(SentFor(links[o.sock], o.request))
  }

  predicate AllSentOk(s: System) {
    && (forall sock :: sock in s.links ==> SentOk(s.links[sock].sent, s.links[sock].client.toHost))
    && (forall k :: k in s.host.held ==> OwedMore(s.links, s.host.held[k]))
  }

  // ---- Parts ----------------------------------------------------------------------------------------------

  lemma {:induction false} AppendedSent(sent: map<nat, seq<Result>>, c: Client, c': Client)
    requires SentOk(sent, c.toHost) && Appends(c, c') && forall id :: id in sent ==> id <= c.lastRequest
    ensures SentOk(sent, c'.toHost)
  {
    forall id, i | id in sent && 0 <= i < |c'.toHost|
      ensures id < c'.toHost[i].id
    {
      if i < |c.toHost| {
        assert c'.toHost[i] == c.toHost[i];
      }
    }
  }

  lemma {:induction false} SentNumbers(s: System, sock: nat)
    requires Inv(s) && sock in s.links
    ensures forall id :: id in s.links[sock].sent ==> id <= s.links[sock].client.lastRequest
  {
    hide LinkOk;
    TheLink(s, sock);
    LinkNumbers(s.host.services, s.links[sock]);
  }

  lemma {:induction false} LinkNumbers(services: map<nat, Service>, l: Link)
    requires LinkOk(services, l)
    ensures forall id :: id in l.sent ==> id <= l.client.lastRequest
    ensures forall i, j :: 0 <= i < j < |l.client.toHost| ==> l.client.toHost[i].id < l.client.toHost[j].id
    ensures forall id, i :: id in l.dispatched && 0 <= i < |l.client.toHost| ==> id < l.client.toHost[i].id
  {
  }

  /** A step of a client sends nothing. */
  lemma {:induction false} ClientSent(s: System, step: Step)
    requires Enabled(s, step) && Inv(s) && AllSentOk(s) && IsClientStep(step)
    ensures AllSentOk(Apply(s, step))
  {
    hide Inv, Apply, Enabled, ClientAfter, SentOk, Appends;
    ClientLinkStep(s, step);
    var l, l' := s.links[step.sock], Apply(s, step).links[step.sock];
    ClientEnabled(s, step);
    ClientAppends(l, step);
    SentNumbers(s, step.sock);
    AppendedSent(l.sent, l.client, l'.client);
    OneSent(s, step.sock, l', Apply(s, step));
  }

  lemma {:induction false} ClientEnabled(s: System, step: Step)
    requires Enabled(s, step) && IsClientStep(step)
    ensures var l := s.links[step.sock];
            && (step.Call? || step.DestroyProxy? ==> step.proxy in l.client.proxies)
            && (step.ClientReceives? ==> l.toClient != []) && (step.ProxyNoticed? ==> l.client.notices != [])
  {
  }

  lemma {:induction false} ClientLinkStep(s: System, step: Step)
    requires Enabled(s, step) && IsClientStep(step)
    ensures var s' := Apply(s, step);
            && step.sock in s.links && step.sock in s'.links
            && s' == s.(links := s.links[step.sock := s'.links[step.sock]])
            && s'.links[step.sock].sent == s.links[step.sock].sent
            && s'.links[step.sock].client == ClientAfter(s.links[step.sock], step)
  {
    hide ClientAfter;
  }

  /** One link changes, with what was sent on it as it was. */
  lemma {:induction false} OneSent(s: System, sock: nat, l': Link, s': System)
    requires AllSentOk(s) && sock in s.links && l'.sent == s.links[sock].sent && SentOk(l'.sent, l'.client.toHost)
    requires s'.links == s.links[sock := l'] && s'.host.held == s.host.held
    ensures AllSentOk(s')
  {
    hide SentOk, AllMore;
    forall k | k in s'.host.held
      ensures OwedMore(s'.links, s'.host.held[k])
    {
      assert OwedMore(s.links, s.host.held[k]);
    }
  }

  /** The head of the channel has been read, and perhaps answered with a last result. */
  lemma {:induction false} HandledSent(l: Link, out: Outcome)
    requires SentOk(l.sent, l.client.toHost) && l.client.toHost != []
    requires forall i, j :: 0 <= i < j < |l.client.toHost| ==> l.client.toHost[i].id < l.client.toHost[j].id
    requires out.reply.Some? && out.reply.value.InvokeMethodReply? ==>
               out.reply.value.id == l.client.toHost[0].id && !out.reply.value.result.hasMore
    ensures var l', id := Handled(l, out), l.client.toHost[0].id;
            && SentOk(l'.sent, l'.client.toHost) && SentFor(l, id) == []
            && (forall i :: i != id ==> SentFor(l', i) == SentFor(l, i))
            && (out.reply.None? ==> SentFor(l', id) == [])
  {
    var id := l.client.toHost[0].id;
    assert id !in l.sent;
    assert [] + [REJECTED] == [REJECTED];
  }

  /** A reply owed is a new one or was owed before; a failure is a last result. */
  lemma {:induction false} ReceivedOutcome(h: Host, sock: nat, frame: Frame, parses: bool)
    requires sock in h.clientsBySocket
    ensures var out := OnReceivedFrame(h, sock, frame, parses);
            && (out.reply.Some? && out.reply.value.InvokeMethodReply? ==>
                  out.reply.value.id == frame.id && !out.reply.value.result.hasMore)
            && (out.host.held == h.held
                || (out.reply.None? && out.host.held == h.held[h.nextHeld := out.host.held[h.nextHeld]]
                    && out.host.held[h.nextHeld].sock == sock && out.host.held[h.nextHeld].request == frame.id))
  {
    hide GetServiceByName, Target;
  }

  lemma {:induction false} ReceiveSent(s: System, sock: nat, parses: bool)
    requires Enabled(s, HostReceives(sock, parses)) && Inv(s) && AllSentOk(s)
    ensures AllSentOk(Apply(s, HostReceives(sock, parses)))
  {
    hide LinkOk, LinksOk, PairedOk, AcceptedOk, SentOk, AllMore, OnReceivedFrame, Handled, SentFor;
    var l, h := s.links[sock], s.host;
    var frame := l.client.toHost[0];
    var out := OnReceivedFrame(h, sock, frame, parses);
    var l' := Handled(l, out);
    TheLink(s, sock);
    LinkNumbers(h.services, l);
    NotRunYet(h.services, l);
    ReceivedOutcome(h, sock, frame, parses);
    HandledSent(l, out);
    NoneIsMore();
    forall k | k in out.host.held
      ensures OwedMore(s.links[sock := l'], out.host.held[k])
    {
      if k in h.held && out.host.held[k] == h.held[k] {
        assert OwedMore(s.links, h.held[k]) && OwedOk(h.clients, h.lastClient, s.links, h.held[k]);
      }
    }
  }

  lemma {:induction false} NoneIsMore()
    ensures AllMore([])
  {
  }

  lemma {:induction false} SentOne(l: Link, id: nat, r: Result)
    requires SentOk(l.sent, l.client.toHost) && AllMore(SentFor(l, id)) && id in l.dispatched
    requires forall i :: 0 <= i < |l.client.toHost| ==> id < l.client.toHost[i].id
    ensures var l' := SentAfter(l, InvokeMethodReply(id, r));
            && SentOk(l'.sent, l'.client.toHost) && (r.hasMore ==> AllMore(SentFor(l', id)))
            && (forall i :: i != id ==> SentFor(l', i) == SentFor(l, i))
  {
    CompleteSnoc(SentFor(l, id), r);
  }

  lemma {:induction false} ResolveSent(s: System, k: nat, result: Result)
    requires Enabled(s, Resolve(k, result)) && Inv(s) && AllSentOk(s)
    ensures AllSentOk(Apply(s, Resolve(k, result)))
  {
    hide LinkOk, LinksOk, PairedOk, AcceptedOk, SentOk, AllMore, SentAfter, SentFor;
    var h, o := s.host, s.host.held[k];
    var s' := Apply(s, Resolve(k, result));
    assert OwedOk(h.clients, h.lastClient, s.links, o) && OwedMore(s.links, o);
    if ReplyTo(h, k).Some? {
      TheLink(s, o.sock);
      LinkNumbers(h.services, s.links[o.sock]);
      SentOne(s.links[o.sock], o.request, result);
    }
    forall j | j in s'.host.held
      ensures OwedMore(s'.links, s'.host.held[j])
    {
      assert OwedMore(s.links, h.held[j]);
    }
  }

  lemma {:induction false} StepSent(s: System, step: Step)
    requires Enabled(s, step) && Inv(s) && AllSentOk(s)
    ensures AllSentOk(Apply(s, step))
  {
    hide Inv, AllSentOk, Apply;
    if IsClientStep(step) {
      ClientSent(s, step);
    } else if step.HostReceives? {
      ReceiveSent(s, step.sock, step.parses);
    } else if step.Resolve? {
      ResolveSent(s, step.held, step.result);
    } else {
      QuietSent(s, step);
    }
  }

  lemma {:induction false} QuietSent(s: System, step: Step)
    requires Enabled(s, step) && Inv(s) && AllSentOk(s)
    requires step.Expose? || step.StartClient? || step.HostAccepts? || step.HostDisconnects?
    ensures AllSentOk(Apply(s, step))
  {
    hide LinkOk, LinksOk, PairedOk, AcceptedOk, AllMore, SentOk, ExposeService, OnNewIncomingConnection,
         HostDisconnected;
    match step {
      case Expose(service) => SameHeld(s.host, service, 0);
      case HostDisconnects(sock) => SameHeld(s.host, Service("", []), sock);
      case HostAccepts(sock) =>
        SameHeld(s.host, Service("", []), sock);
        OneSent(s, sock, s.links[sock].(accepted := true), Apply(s, step));
      case StartClient(sock) => StartSent(s, sock);
    }
  }

  lemma {:induction false} SameHeld(h: Host, service: Service, sock: nat)
    ensures ExposeService(h, service).held == h.held
    ensures OnNewIncomingConnection(h, sock).held == HostDisconnected(h, sock).held == h.held
  {
    hide GetServiceByName;
  }

  lemma {:induction false} StartSent(s: System, sock: nat)
    requires AllSentOk(s) && HeldOk(s.host, s.links) && sock !in s.links
    ensures AllSentOk(Apply(s, StartClient(sock)))
  {
    hide AllMore;
    var s' := Apply(s, StartClient(sock));
    forall k | k in s.host.held
      ensures OwedMore(s'.links, s.host.held[k])
    {
      assert OwedMore(s.links, s.host.held[k]) && OwedOk(s.host.clients, s.host.lastClient, s.links, s.host.held[k]);
    }
  }

  // ---- Whole runs -----------------------------------------------------------------------------------------

  /** In every run, at most one last result is sent for each request, and nothing after it. */
  lemma {:induction false} RunSent(states: seq<System>, steps: seq<Step>, k: nat)
    requires IsRun(states, steps) && k < |states|
    ensures AllSentOk(states[k])
    decreases k
  {
    hide Apply, Enabled, Inv, SentOk, OwedMore;
    if k > 0 {
      RunSent(states, steps, k - 1);
      RunInv(states, steps, k - 1);
      StepSent(states[k - 1], steps[k - 1]);
    }
  }

  lemma {:induction false} CompleteIsAll(got: seq<Result>, sent: seq<Result>)
    requires got <= sent && Complete(got) && OneLast(sent)
    ensures got == sent
  {
    MoreBeforeLast(sent);
  }

  lemma {:induction false} MoreBeforeLast(sent: seq<Result>)
    requires OneLast(sent)
    ensures forall i :: 0 <= i < |sent| - 1 ==> sent[i].hasMore
  {
    assert forall i :: 0 <= i < |sent| - 1 ==> sent[..|sent| - 1][i] == sent[i];
  }

  /** In every run, a callback whose last result was not a rejection of its own client got everything that was sent
      for its request. */
  lemma {:induction false} CallbacksGetAll(states: seq<System>, steps: seq<Step>, k: nat, sock: nat, id: nat,
                                           callback: nat)
    requires IsRun(states, steps) && k < |states| && sock in states[k].links
    requires For(states[k].links[sock].client, id, callback)
    ensures var l := states[k].links[sock];
            && OneLast(SentFor(l, id)) && callback in l.client.results
            && (Complete(l.client.got[id]) ==> l.client.got[id] == SentFor(l, id))
            && var results := l.client.results[callback];
               (Complete(results) && results[|results| - 1] != REJECTED ==> results == SentFor(l, id))
  {
    hide Inv, Complete, AllMore, Apply, Enabled;
    RunSent(states, steps, k);
    CallbacksGetTheirResults(states, steps, k, sock, id, callback);
    var l := states[k].links[sock];
    assert SentOk(l.sent, l.client.toHost);
    NoneIsMore();
    if Complete(l.client.got[id]) {
      CompleteIsAll(l.client.got[id], SentFor(l, id));
    }
  }

  /** The host runs a method for a request. */
  predicate Runs(s: System, step: Step, sock: nat, id: nat)
    requires Enabled(s, step)
  {
    && step.HostReceives? && step.sock == sock && s.links[sock].client.toHost[0].id == id
    && OnReceivedFrame(s.host, sock, s.links[sock].client.toHost[0], step.parses).dispatch.Some?
  }

  lemma {:induction false} RunsNotes(s: System, step: Step, sock: nat, id: nat)
    requires Enabled(s, step) && Runs(s, step, sock, id)
    ensures sock in Apply(s, step).links && id in Apply(s, step).links[sock].dispatched
  {
    hide OnReceivedFrame;
  }

  lemma {:induction false} NotedStays(s: System, step: Step, sock: nat, id: nat)
    requires Enabled(s, step) && sock in s.links && id in s.links[sock].dispatched
    ensures sock in Apply(s, step).links && id in Apply(s, step).links[sock].dispatched
  {
    hide OnReceivedFrame, ClientAfter, ExposeService, OnNewIncomingConnection, HostDisconnected, Resolved, ReplyTo;
  }

  lemma {:induction false} StillNoted(states: seq<System>, steps: seq<Step>, i: nat, j: nat, sock: nat, id: nat)
    requires IsRun(states, steps) && i <= j < |states|
    requires sock in states[i].links && id in states[i].links[sock].dispatched
    ensures sock in states[j].links && id in states[j].links[sock].dispatched
    decreases j
  {
    hide Apply, Enabled;
    if i < j {
      StillNoted(states, steps, i, j - 1, sock, id);
      NotedStays(states[j - 1], steps[j - 1], sock, id);
    }
  }

  /** In every run, a method is run at most once for a request. */
  lemma {:induction false} RunsOnce(states: seq<System>, steps: seq<Step>, i: nat, j: nat, sock: nat, id: nat)
    requires IsRun(states, steps) && i < j < |steps| && Runs(states[i], steps[i], sock, id)
    ensures !Runs(states[j], steps[j], sock, id)
  {
    hide Apply, Enabled, Inv, LinkOk, OnReceivedFrame;
    RunsNotes(states[i], steps[i], sock, id);
    assert states[i + 1] == Apply(states[i], steps[i]);
    StillNoted(states, steps, i + 1, j, sock, id);
    RunInv(states, steps, j);
    RunsFirst(states[j], steps[j], sock, id);
  }

  /** A request that is being handled has not been run. */
  lemma {:induction false} RunsFirst(s: System, step: Step, sock: nat, id: nat)
    requires Enabled(s, step) && Inv(s)
    ensures Runs(s, step, sock, id) ==> id !in s.links[sock].dispatched
  {
    hide LinkOk, OnReceivedFrame;
    if Runs(s, step, sock, id) {
      TheLink(s, sock);
      NotRunYet(s.host.services, s.links[sock]);
    }
  }
}
