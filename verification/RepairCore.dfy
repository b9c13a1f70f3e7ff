/** The repair tables as the overlay core keeps them. `reports` and `endings` are ghosts:
    the events handed to the driver and the fate of streams that peers opened. */
module RepairCore {
  import opened Options
  import opened Collections
  import opened RepairStreams

  class Core {
    const wire: Wire
    var outbound: map<Stream, Outbound>
    var inbound: map<Stream, Inbound>
    ghost var reports: map<Stream, seq<Report>>
    ghost var endings: map<Stream, seq<Ending>>
    ghost var ours: set<Stream>
    ghost var theirs: set<Stream>

    ghost function Now(): (next: Tables)
      reads this
    {
      Tables(outbound, inbound, reports, endings)
    }

    /** The books are in order: every stream is tracked, or has been concluded exactly once. */
    ghost predicate Valid()
      reads this
    {
      Inv(Ledger(Now(), ours, theirs))
    }

    constructor (wire: Wire)
      ensures Valid() && Now() == Fresh() && ours == theirs == {} && this.wire == wire
    {
      this.wire := wire;
      outbound, inbound, reports, endings := map[], map[], map[], map[];
      ours, theirs := {}, {};
    }

    /** `connection` is the stream the transport opens, if the peer is connected. */
    method AskRepair(peer: Peer, connection: Option<Stream>, now: nat) returns (stream: Option<Stream>)
      requires Valid() && (connection.Some? ==> connection.value !in ours + theirs)
      modifies this
      ensures Valid() && Now() == RequestRepair(old(Now()), peer, connection, now) && theirs == old(theirs)
      // a stream handed to the caller is the transport's, tracked for that peer with nothing
      // read or reported, and due in three seconds
      ensures stream.Some? ==>
                && stream == connection && ours == old(ours) + {stream.value}
                && Now() == old(Now()).(outbound := old(outbound)[stream.value := Outbound(peer, [], now + 3000)])
                && At(reports, stream.value) == []
      // otherwise nothing has happened
      ensures stream.None? ==> Now() == old(Now()) && ours == old(ours)
      ensures stream.None? <==> connection.None? || |old(outbound)| >= 1024
    {
      if |outbound| >= MAX_OUTBOUND_REPAIRS || connection.None? {
        return None;
      }
      AskKeeps(wire, Ledger(Now(), ours, theirs), Asks(peer, connection, now));
      outbound := outbound[connection.value := Outbound(peer, [], now + REPAIR_STREAM_TIMEOUT)];
      ours := ours + {connection.value};
      return connection;
    }

    method DropInbound(s: Stream, ghost e: Ending)
      modifies this`inbound, this`endings
      ensures Now() == End(old(Now()), s, e)
    {
      inbound := inbound - {s};
      endings := Add(endings, s, e);
    }

    method DropOutbound(s: Stream, r: Report)
      modifies this`outbound, this`reports
      ensures Now() == Conclude(old(Now()), s, r)
    {
      outbound := outbound - {s};
      reports := Add(reports, s, r);
    }

    /** The books stay in order exactly if the stream was waiting for the answer or is gone. */
    method AnswerLookup(s: Stream, encodable: bool)
      requires Valid()
      modifies this`inbound, this`endings
      ensures Now() == RepairResponse(old(Now()), s, encodable)
      ensures Valid() <==> !old(s in inbound && !inbound[s].awaiting)
      ensures old(At(reports, s)) != [] ==> Valid()
      ensures s !in inbound && (Valid() && s in theirs ==> |At(endings, s)| == 1)
      ensures old(s !in inbound) ==> Now() == old(Now())
      ensures AnswerTaken(old(Now()), Now(), s, encodable)
    {
      AnswerInBooks(Ledger(Now(), ours, theirs), s, encodable);
      AnswerMeans(Now(), s, encodable);
      StepKeepsInvIff(wire, Ledger(Now(), ours, theirs), Answers(s, encodable));
      TakeAnswer(s, encodable);
      if Inv(Ledger(Now(), ours, theirs)) {
        AnswerInBooks(Ledger(Now(), ours, theirs), s, encodable);
      }
    }

    method TakeAnswer(s: Stream, encodable: bool)
      modifies this`inbound, this`endings
      ensures Now() == RepairResponse(old(Now()), s, encodable)
    {
      if s !in inbound {
        return;
      }
      if !inbound[s].awaiting {
        inbound := inbound - {s};
        return;
      }
      DropInbound(s, if encodable then Answered else Reset);
    }

    method HandleOpened(s: Stream, peer: Peer, now: nat)
      requires Valid() && s !in ours + theirs
      modifies this`inbound, this`endings, this`theirs
      ensures Valid() && Now() == Opened(old(Now()), s, peer, now) && theirs == old(theirs) + {s}
      // the stream is tracked for that peer, due in three seconds, or reset if the table is full
      ensures s in inbound <==> |old(inbound)| < 1024
      ensures if s in inbound then
                && Now() == old(Now()).(inbound := old(inbound)[s := Inbound(peer, [], false, now + 3000)])
                && At(endings, s) == []
              else inbound == old(inbound) && At(endings, s) == [Reset]
    {
      OpenKeeps(wire, Ledger(Now(), ours, theirs), PeerOpens(s, peer, now));
      theirs := theirs + {s};
      if |inbound| >= MAX_INBOUND_REPAIRS {
        endings := Add(endings, s, Reset);
        return;
      }
      inbound := inbound[s := Inbound(peer, [], false, now + REPAIR_STREAM_TIMEOUT)];
    }

    method HandleData(s: Stream, bytes: Bytes)
      requires Valid()
      modifies this`outbound, this`inbound, this`reports, this`endings
      ensures Valid() && Now() == Data(old(Now()), s, bytes)
      ensures Spares(old(Now()), Now(), s) && Gained(old(Now()), Now(), s, bytes)
    {
      DataKeeps(Ledger(Now(), ours, theirs), s, bytes);
      BooksOf(Ledger(Now(), ours, theirs), s);
      DataMeans(Now(), s, bytes);
      TakeData(s, bytes);
    }

    method TakeData(s: Stream, bytes: Bytes)
      modifies this`outbound, this`inbound, this`reports, this`endings
      ensures Now() == Data(old(Now()), s, bytes)
    {
      if s in inbound {
        var r := inbound[s];
        if r.awaiting || |r.buf + bytes| > MAX_REPAIR_REQ_WIRE {
          DropInbound(s, Reset);
        } else {
          inbound := inbound[s := r.(buf := r.buf + bytes)];
        }
      } else if s in outbound {
        var r := outbound[s];
        if |r.buf + bytes| > MAX_REPAIR_RESP_WIRE {
          DropOutbound(s, Failed(r.peer));
        } else {
          outbound := outbound[s := r.(buf := r.buf + bytes)];
        }
      }
    }

    method HandleFinished(s: Stream, admitted: bool)
      requires Valid()
      modifies this`outbound, this`inbound, this`reports, this`endings
      ensures Valid() && Now() == Finished(wire, old(Now()), s, admitted)
      ensures Spares(old(Now()), Now(), s) && Settled(wire, old(Now()), Now(), s, admitted)
    {
      FinishKeeps(wire, Ledger(Now(), ours, theirs), s, admitted);
      BooksOf(Ledger(Now(), ours, theirs), s);
      FinishMeans(wire, Now(), s, admitted);
      TakeFinished(s, admitted);
    }

    method TakeFinished(s: Stream, admitted: bool)
      modifies this`outbound, this`inbound, this`reports, this`endings
      ensures Now() == Finished(wire, old(Now()), s, admitted)
    {
      if s in inbound {
        var r := inbound[s];
        if r.awaiting {
          return;
        }
        var request := wire.request(r.buf);
        if request.Some? && admitted {
          inbound := inbound[s := r.(awaiting := true, buf := [])];
          reports := Add(reports, s, Lookup(r.peer, request.value));
        } else {
          DropInbound(s, Reset);
        }
      } else if s in outbound {
        var r := outbound[s];
        var response := wire.response(r.buf);
        if response.Some? {
          DropOutbound(s, Response(r.peer, response.value));
        } else {
          DropOutbound(s, Failed(r.peer));
        }
      }
    }

    method HandleFailed(s: Stream)
      requires Valid()
      modifies this`outbound, this`inbound, this`reports, this`endings
      ensures Valid() && Now() == StreamFailed(old(Now()), s)
      ensures Spares(old(Now()), Now(), s) && Dead(old(Now()), Now(), s)
    {
      FailKeeps(Ledger(Now(), ours, theirs), s);
      BooksOf(Ledger(Now(), ours, theirs), s);
      FailMeans(Now(), s);
      TakeFailed(s);
    }

    method TakeFailed(s: Stream)
      modifies this`outbound, this`inbound, this`reports, this`endings
      ensures Now() == StreamFailed(old(Now()), s)
    {
      if s in inbound {
        DropInbound(s, PeerFailed);
      }
      if s in outbound {
        DropOutbound(s, Failed(outbound[s].peer));
      }
    }

    method ExpireRepairs(now: nat)
      requires Valid()
      modifies this`outbound, this`inbound, this`reports, this`endings
      ensures Valid() && Now() == Expire(old(Now()), now)
      ensures DueGone(old(Now()), Now(), now) && DueTold(old(Now()), Now(), now)
    {
      ExpireKeeps(Ledger(Now(), ours, theirs), now);
      ExpireDrops(Now(), now);
      ExpireTells(Now(), now);
      DropDue(now);
    }

    method DropDue(now: nat)
      modifies this`outbound, this`inbound, this`reports, this`endings
      ensures Now() == Expire(old(Now()), now)
    {
      var late := List(set s | s in outbound && now >= outbound[s].deadline);
      var idle := List(set s | s in inbound && now >= inbound[s].deadline);
      FailSeqIsSet(Now(), late);
      FailOutbound(late);
      ResetSeqIsSet(Now(), idle);
      ResetInbound(idle);
      assert Members(late) == DueOut(old(Now()), now) && Members(idle) == DueIn(old(Now()), now);
    }

    method FailOutbound(late: seq<Stream>)
      requires Members(late) <= outbound.Keys && Distinct(late)
      modifies this`outbound, this`reports
      ensures Now() == FailSeq(old(Now()), late)
    {
      assert late[..0] == [];
      for i := 0 to |late|
        invariant Now() == FailSeq(old(Now()), late[..i])
        invariant forall j | i <= j < |late| :: late[j] in outbound
      {
        assert late[..i + 1][..i] == late[..i];
        DropOutbound(late[i], Failed(outbound[late[i]].peer));
      }
      assert late[..|late|] == late;
    }

    method ResetInbound(idle: seq<Stream>)
      modifies this`inbound, this`endings
      ensures Now() == ResetSeq(old(Now()), idle)
    {
      assert idle[..0] == [];
      for i := 0 to |idle|
        invariant Now() == ResetSeq(old(Now()), idle[..i])
      {
        assert idle[..i + 1][..i] == idle[..i];
        DropInbound(idle[i], Reset);
      }
      assert idle[..|idle|] == idle;
    }
  }

  method List(ids: set<Stream>) returns (list: seq<Stream>)
    ensures Members(list) == ids && Distinct(list)
  {
    list := [];
    var rest := ids;
    while rest != {}
      invariant Distinct(list) && rest <= ids
      invariant forall s :: s in list <==> s in ids && s !in rest
      decreases |rest|
    {
      var s: Stream :| s in rest;
      list, rest := list + [s], rest - {s};
    }
  }

  /** Conclude one stream after another as failed. */
  function FailSeq(t: Tables, ids: seq<Stream>): (next: Tables)
    decreases |ids|
  {
    if ids == [] then t
    else
      var u, s := FailSeq(t, ids[..|ids| - 1]), ids[|ids| - 1];
      Conclude(u, s, Failed(if s in u.outbound then u.outbound[s].peer else 0))
  }

  function ResetSeq(t: Tables, ids: seq<Stream>): (next: Tables)
    decreases |ids|
  {
    if ids == [] then t else End(ResetSeq(t, ids[..|ids| - 1]), ids[|ids| - 1], Reset)
  }

  lemma {:induction false} FailSeqIsSet(t: Tables, ids: seq<Stream>)
    requires Distinct(ids) && Members(ids) <= t.outbound.Keys
    ensures FailSeq(t, ids) == FailStreams(t, Members(ids))
    decreases |ids|
  {
    if ids == [] {
      FailNone(t);
    } else {
      var before, s := ids[..|ids| - 1], ids[|ids| - 1];
      assert Members(ids) == Members(before) + {s};
      FailSeqIsSet(t, before);
      FailMore(t, Members(before), s);
    }
  }

  lemma {:induction false} ResetSeqIsSet(t: Tables, ids: seq<Stream>)
    requires Distinct(ids)
    ensures ResetSeq(t, ids) == ResetStreams(t, Members(ids))
    decreases |ids|
  {
    if ids == [] {
      ResetNone(t);
    } else {
      var before, s := ids[..|ids| - 1], ids[|ids| - 1];
      assert Members(ids) == Members(before) + {s};
      ResetSeqIsSet(t, before);
      ResetMore(t, Members(before), s);
    }
  }

  lemma FailNone(t: Tables)
    ensures FailStreams(t, {}) == t
  {
    forall s | s in t.reports
      ensures FailAll(t.reports, {}, t.outbound)[s] == t.reports[s]
    {
      assert t.reports[s] + [] == t.reports[s];
    }
    assert FailAll(t.reports, {}, t.outbound) == t.reports;
  }

  lemma FailMore(t: Tables, ids: set<Stream>, s: Stream)
    requires ids <= t.outbound.Keys && s in t.outbound && s !in ids
    ensures FailStreams(t, ids + {s}) == Conclude(FailStreams(t, ids), s, Failed(t.outbound[s].peer))
  {
    assert At(t.reports, s) + [] == At(t.reports, s);
    assert FailAll(t.reports, ids + {s}, t.outbound) ==
           Add(FailAll(t.reports, ids, t.outbound), s, Failed(t.outbound[s].peer));
    assert t.outbound - (ids + {s}) == t.outbound - ids - {s};
  }

  lemma ResetNone(t: Tables)
    ensures ResetStreams(t, {}) == t
  {
    forall s | s in t.endings
      ensures ResetAll(t.endings, {})[s] == t.endings[s]
    {
      assert t.endings[s] + [] == t.endings[s];
    }
    assert ResetAll(t.endings, {}) == t.endings;
  }

  lemma ResetMore(t: Tables, ids: set<Stream>, s: Stream)
    requires s !in ids
    ensures ResetStreams(t, ids + {s}) == End(ResetStreams(t, ids), s, Reset)
  {
    assert At(t.endings, s) + [] == At(t.endings, s);
    assert ResetAll(t.endings, ids + {s}) == Add(ResetAll(t.endings, ids), s, Reset);
    assert t.inbound - (ids + {s}) == t.inbound - ids - {s};
  }
}
