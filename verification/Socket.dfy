/** Sending a message that is scattered over memory through a socket that may take any part of it at a time. */
module Socket {
  import opened Wire

  /** A piece of memory. */
  datatype IoVec = IoVec(base: nat, len: nat)

  /** The bytes of the pieces one after another. */
  function Gather(memory: seq<byte>, vecs: seq<IoVec>): seq<byte>
    requires InMemory(memory, vecs)
  {
    if vecs == [] then []
    else memory[vecs[0].base..vecs[0].base + vecs[0].len] + Gather(memory, vecs[1..])
  }

  predicate InMemory(memory: seq<byte>, vecs: seq<IoVec>) {
    forall i :: 0 <= i < |vecs| ==> vecs[i].base + vecs[i].len <= |memory|
  }

  lemma {:induction false} GatherConcat(memory: seq<byte>, a: seq<IoVec>, b: seq<IoVec>)
    requires InMemory(memory, a) && InMemory(memory, b)
    ensures Gather(memory, a + b) == Gather(memory, a) + Gather(memory, b)
  {
    if a == [] {
      assert a + b == b;
    } else {
      GatherConcat(memory, a[1..], b);
      assert (a + b)[1..] == a[1..] + b;
    }
  }

  lemma {:induction false} GatherOne(memory: seq<byte>, v: IoVec)
    requires v.base + v.len <= |memory|
    ensures Gather(memory, [v]) == memory[v.base..v.base + v.len]
  {
  }

  /** A message header. It points into an array of pieces that it does not own, and its pointer moves along
      the array as the pieces are sent. */
  class MsgHdr {
    const memory: seq<byte>
    var iov: array?<IoVec>
    var first: nat
    var iovLen: nat
    var control: bool

    constructor (memory: seq<byte>, iov: array?<IoVec>, control: bool)
      requires iov != null ==> InMemory(memory, iov[..])
      ensures Valid() && this.memory == memory && this.iov == iov && this.control == control
      ensures Remaining() == if iov == null then [] else Gather(memory, iov[..])
    {
      this.memory := memory;
      this.iov := iov;
      first := 0;
      iovLen := if iov == null then 0 else iov.Length;
      this.control := control;
      new;
      assert iov != null ==> iov[0..0 + iovLen] == iov[..];
    }

    ghost predicate Valid()
      reads this, iov
    {
      if iov == null then iovLen == 0
      else first + iovLen <= iov.Length && InMemory(memory, iov[first..first + iovLen])
    }

    /** What the header still describes. */
    ghost function Remaining(): seq<byte>
      requires Valid()
      reads this, iov
    {
      if iov == null then [] else Gather(memory, iov[first..first + iovLen])
    }
  }

  /** The pieces without their first bytes. */
  function Shifted(vecs: seq<IoVec>, n: nat): seq<IoVec> {
    if vecs == [] then []
    else if n < vecs[0].len then [IoVec(vecs[0].base + n, vecs[0].len - n)] + vecs[1..]
    else Shifted(vecs[1..], n - vecs[0].len)
  }

  lemma {:induction false} ShiftedGather(memory: seq<byte>, vecs: seq<IoVec>, n: nat)
    requires InMemory(memory, vecs) && n <= |Gather(memory, vecs)|
    ensures InMemory(memory, Shifted(vecs, n)) && Gather(memory, Shifted(vecs, n)) == Gather(memory, vecs)[n..]
    ensures Shifted(vecs, n) == [] <==> n == |Gather(memory, vecs)|
  {
    if vecs != [] {
      var v := vecs[0];
      if n < v.len {
        assert Shifted(vecs, n)[1..] == vecs[1..];
      } else {
        ShiftedGather(memory, vecs[1..], n - v.len);
      }
    }
  }

  lemma {:induction false} ShiftedNext(vecs: seq<IoVec>, i: nat, n: nat)
    requires i < |vecs|
    ensures Shifted(vecs[i..], n) == if n < vecs[i].len then vecs[i := IoVec(vecs[i].base + n, vecs[i].len - n)][i..]
                                     else Shifted(vecs[i + 1..], n - vecs[i].len)
  {
  }

  /** Advances a header by the bytes sent: those are dropped from the front, whatever the lengths of the
      pieces, and the header becomes empty exactly when nothing is left. */
  method ShiftMsgHdr(sent: nat, msg: MsgHdr)
    requires msg.Valid() && msg.iov != null && sent <= |msg.Remaining()|
    modifies msg`iov, msg`first, msg`iovLen, msg.iov
    ensures msg.Valid() && msg.Remaining() == old(msg.Remaining())[sent..]
    ensures msg.iov == null <==> sent == old(|msg.Remaining()|)
    ensures msg.iov != null ==> msg.iov == old(msg.iov)
  {
    hide Gather, InMemory, Shifted;
    ghost var vecs := msg.iov[msg.first..msg.first + msg.iovLen];
    ShiftedGather(msg.memory, vecs, sent);
    var i, n := SkipSent(msg.iov, msg.first, msg.iovLen, sent);
    if i < msg.iovLen {
      var vec := msg.iov[msg.first + i];
      msg.iov[msg.first + i] := IoVec(vec.base + n, vec.len - n);
      msg.first := msg.first + i;
      msg.iovLen := msg.iovLen - i;
      assert msg.iov[msg.first..msg.first + msg.iovLen] == vecs[i := IoVec(vec.base + n, vec.len - n)][i..];
      return;
    }
    msg.iovLen := 0;
    msg.iov := null;
  }

  /** The loop over the pieces: the first that was not sent whole, and how much of it was. */
  method SkipSent(iov: array<IoVec>, first: nat, length: nat, sent: nat) returns (i: nat, n: nat)
    requires first + length <= iov.Length
    ensures i <= length
    ensures var vecs := iov[first..first + length];
            if i == length then Shifted(vecs, sent) == []
            else n < vecs[i].len && Shifted(vecs, sent) == vecs[i := IoVec(vecs[i].base + n, vecs[i].len - n)][i..]
  {
    hide Shifted;
    ghost var vecs := iov[first..first + length];
    assert vecs[0..] == vecs;
    i, n := 0, sent;
    while i < length
      invariant i <= length && Shifted(vecs[i..], n) == Shifted(vecs, sent)
    {
      var vec := iov[first + i];
      assert vec == vecs[i];
      ShiftedNext(vecs, i, n);
      if n < vec.len {
        return;
      }
      n := n - vec.len;
      i := i + 1;
    }
    ShiftedNone(vecs, n);
  }

  lemma {:induction false} ShiftedNone(vecs: seq<IoVec>, n: nat)
    ensures Shifted(vecs[|vecs|..], n) == []
  {
  }

  /** What the socket does with a call: it takes some bytes, it would block, or it fails. */
  datatype Outcome = Takes(bytes: nat) | WouldBlock | Fails

  predicate AllTake(outcomes: seq<Outcome>) {
    forall i :: 0 <= i < |outcomes| ==> outcomes[i].Takes?
  }

  predicate NoneFails(outcomes: seq<Outcome>) {
    forall i :: 0 <= i < |outcomes| ==> !outcomes[i].Fails?
  }

  /** How a call of the socket ended a send: after it had taken something each time before, it failed or would have
      blocked. */
  ghost predicate StoppedBy(before: seq<Outcome>, after: seq<Outcome>, failed: bool) {
    exists n :: && 0 <= n < |before| && AllTake(before[..n]) && after == before[n + 1..]
                && (if failed then before[n].Fails? else before[n].WouldBlock?)
  }

  /** What is left once some calls have each taken something. */
  ghost predicate TakenTo(before: seq<Outcome>, after: seq<Outcome>) {
    after == [] || exists n :: 0 <= n <= |before| && AllTake(before[..n]) && after == before[n..]
  }

  lemma {:induction false} TakesOn(before: seq<Outcome>, now: seq<Outcome>)
    requires TakenTo(before, now)
    ensures now == [] ==> TakenTo(before, [])
    ensures now != [] && now[0].Takes? ==> TakenTo(before, now[1..])
    ensures now != [] && !now[0].Takes? ==>
              StoppedBy(before, now[1..], now[0].Fails?) && !AllTake(before) && (now[0].Fails? ==> !NoneFails(before))
  {
    if now != [] {
      var n :| 0 <= n <= |before| && AllTake(before[..n]) && now == before[n..];
      assert now[0] == before[n] && now[1..] == before[n + 1..];
      assert before[..n + 1] == before[..n] + [before[n]];
    }
  }

  lemma {:induction false} NoneTaken(before: seq<Outcome>)
    ensures TakenTo(before, before)
  {
    assert before[0..] == before && AllTake(before[..0]);
  }

  lemma {:induction false} Advanced(before: seq<byte>, all: seq<byte>, total: nat, sent: nat)
    requires total + sent <= |all|
    ensures before + all[..total] + all[total..][..sent] == before + all[..total + sent]
    ensures all[total..][sent..] == all[total + sent..]
  {
  }

  class UnixSocket {
    /** How the socket will answer the next calls; after that it takes everything. */
    var outcomes: seq<Outcome>
    /** The bytes taken so far, and where in them ancillary data was attached. */
    var accepted: seq<byte>
    var ancillary: seq<nat>

    constructor (outcomes: seq<Outcome>)
      ensures this.outcomes == outcomes && accepted == [] && ancillary == []
    {
      this.outcomes := outcomes;
      accepted, ancillary := [], [];
    }

    /** The system call. A socket never takes nothing of something. */
    method SendMsg(msg: MsgHdr) returns (sent: int, wouldBlock: bool)
      requires msg.Valid()
      modifies this
      ensures outcomes == if old(outcomes) == [] then [] else old(outcomes)[1..]
      ensures -1 <= sent <= |msg.Remaining()| && (sent == 0 ==> msg.Remaining() == []) && (wouldBlock ==> sent == -1)
      ensures sent == -1 <==> old(outcomes) != [] && !old(outcomes)[0].Takes?
      ensures sent == -1 ==> wouldBlock == old(outcomes)[0].WouldBlock?
      ensures if sent == -1 then accepted == old(accepted) && ancillary == old(ancillary)
              else accepted == old(accepted) + msg.Remaining()[..sent]
                   && ancillary == old(ancillary) + (if msg.control then [old(|accepted|)] else [])
    {
      var outcome := Takes(0);
      var data := Collect(msg);
      if outcomes == [] {
        outcome := Takes(|data|);
      } else {
        outcome := outcomes[0];
        outcomes := outcomes[1..];
      }
      match outcome {
        case WouldBlock => return -1, true;
        case Fails => return -1, false;
        case Takes(n) =>
          var taken := if n == 0 && data != [] then 1 else if n > |data| then |data| else n;
          ancillary := ancillary + (if msg.control then [|accepted|] else []);
          accepted := accepted + data[..taken];
          return taken, false;
      }
    }

    /** Sends a whole message. Whatever the socket takes each time, nothing is lost, repeated or reordered;
        ancillary data goes with the first bytes only. */
    method SendMsgAll(msg: MsgHdr) returns (result: int)
      requires msg.Valid()
      modifies this, msg`iov, msg`first, msg`iovLen, msg`control, msg.iov
      ensures msg.Valid()
      ensures old(accepted) <= accepted && accepted + msg.Remaining() == old(accepted) + old(msg.Remaining())
      ensures if result >= 0 then result == |accepted| - |old(accepted)| else result == -1
      ensures AllTake(old(outcomes)) ==> result == |old(msg.Remaining())| && msg.Remaining() == []
      ensures NoneFails(old(outcomes)) ==> result >= 0
      ensures result == -1 ==> StoppedBy(old(outcomes), outcomes, true)
      ensures result >= 0 && msg.Remaining() != [] ==> StoppedBy(old(outcomes), outcomes, false)
      ensures accepted != old(accepted) ==>
                ancillary == old(ancillary) + (if old(msg.control) then [|old(accepted)|] else [])
    {
      hide Gather, InMemory, TakenTo, StoppedBy, AllTake, NoneFails;
      NoneTaken(outcomes);
      ghost var all, before := msg.Remaining(), accepted;
      var totalSent := 0;
      assert accepted == before + all[..0] && all[0..] == all;
      while msg.iov != null
        invariant 0 <= totalSent <= |all| && msg.Valid()
        invariant msg.iov != null ==> msg.iov == old(msg.iov)
        invariant msg.iov == null ==> totalSent == |all|
        invariant msg.iov != null && totalSent > 0 ==> totalSent < |all|
        invariant accepted == before + all[..totalSent] && msg.Remaining() == all[totalSent..]
        invariant TakenTo(old(outcomes), outcomes)
        invariant if totalSent > 0 then !msg.control else msg.control == old(msg.control)
        invariant ancillary == old(ancillary) + (if totalSent > 0 && old(msg.control) then [|before|] else [])
        decreases |all| - totalSent
      {
        TakesOn(old(outcomes), outcomes);
        var sent, wouldBlock := SendMsg(msg);
        if sent <= 0 {
          assert before + all[..totalSent] + all[totalSent..] == before + all;
          if wouldBlock {
            return totalSent;
          }
          return sent;
        }
        Advanced(before, all, totalSent, sent);
        totalSent := totalSent + sent;
        ShiftMsgHdr(sent, msg);
        msg.control := false;
      }
      result := totalSent;
    }

    /** Reads what a header describes. */
    static method Collect(msg: MsgHdr) returns (data: seq<byte>)
      requires msg.Valid()
      ensures data == msg.Remaining()
    {
      data := [];
      if msg.iov == null {
        return;
      }
      ghost var vecs := msg.iov[msg.first..msg.first + msg.iovLen];
      assert vecs[..0] == [];
      for i := 0 to msg.iovLen
        invariant InMemory(msg.memory, vecs[..i])
        invariant data == Gather(msg.memory, vecs[..i])
      {
        var vec := msg.iov[msg.first + i];
        assert vec == vecs[i];
        GatherOne(msg.memory, vec);
        GatherConcat(msg.memory, vecs[..i], [vec]);
        assert vecs[..i + 1] == vecs[..i] + [vec];
        data := data + msg.memory[vec.base..vec.base + vec.len];
      }
      assert vecs[..msg.iovLen] == vecs;
    }
  }
}
