/** Repair streams over whole runs: what is reported about a stream is what was sent on it. */
module RepairRuns {
  import opened Options
  import opened RepairStreams

  function Sent(e: Event, s: Stream): (bytes: Bytes) { if e.PeerSends? && e.stream == s then e.bytes else [] }

  /** All that was sent on a stream, in order. */
  function Carried(events: seq<Event>, s: Stream): (bytes: Bytes)
    decreases |events|
  {
    if events == [] then []
    else Sent(events[0], s) + Carried(events[1..], s)
  }

  // ---- streams we opened ---------------------------------------------------------------

  /** One event, seen from a stream we opened that is still tracked. */
  ghost predicate Turns(w: Wire, t: Tables, e: Event, u: Tables, s: Stream)
    requires s in t.outbound
  {
    var r := t.outbound[s];
    if e.PeerSends? && e.stream == s && |r.buf| + |e.bytes| <= 2048 then
      s in u.outbound && u.outbound[s] == r.(buf := r.buf + e.bytes)
    else if e.PeerFinishes? && e.stream == s && w.response(r.buf).Some? then
      s !in u.outbound && At(u.reports, s) == [Response(r.peer, w.response(r.buf).value)]
    else if (e.PeerSends? || e.PeerFinishes? || e.PeerFails?) && e.stream == s then
      s !in u.outbound && At(u.reports, s) == [Failed(r.peer)]
    else if e.Expires? && e.now >= r.deadline then
      s !in u.outbound && At(u.reports, s) == [Failed(r.peer)]
    else s in u.outbound && u.outbound[s] == r
  }

  lemma SparedOut(t: Tables, u: Tables, r: Stream, s: Stream)
    requires Spares(t, u, r) && s in t.outbound && s != r
    ensures s in u.outbound && u.outbound[s] == t.outbound[s]
  {
    assert s in t.outbound - {r};
  }

  lemma DataTurns(w: Wire, l: Ledger, e: Event, s: Stream)
    requires Inv(l) && s in l.tables.outbound && e.PeerSends?
    ensures Turns(w, l.tables, e, Data(l.tables, e.stream, e.bytes), s)
  {
    BooksOf(l, e.stream);
    DataMeans(l.tables, e.stream, e.bytes);
    if e.stream != s {
      SparedOut(l.tables, Data(l.tables, e.stream, e.bytes), e.stream, s);
    }
  }

  lemma FinishTurns(w: Wire, l: Ledger, e: Event, s: Stream)
    requires Inv(l) && s in l.tables.outbound && e.PeerFinishes?
    ensures Turns(w, l.tables, e, Finished(w, l.tables, e.stream, e.admitted), s)
  {
    BooksOf(l, e.stream);
    FinishMeans(w, l.tables, e.stream, e.admitted);
    if e.stream != s {
      SparedOut(l.tables, Finished(w, l.tables, e.stream, e.admitted), e.stream, s);
    }
  }

  lemma FailTurns(w: Wire, l: Ledger, e: Event, s: Stream)
    requires Inv(l) && s in l.tables.outbound && e.PeerFails?
    ensures Turns(w, l.tables, e, StreamFailed(l.tables, e.stream), s)
  {
    BooksOf(l, e.stream);
    FailMeans(l.tables, e.stream);
    if e.stream != s {
      SparedOut(l.tables, StreamFailed(l.tables, e.stream), e.stream, s);
    }
  }

  lemma ExpireTurns(w: Wire, l: Ledger, e: Event, s: Stream)
    requires Inv(l) && s in l.tables.outbound && e.Expires?
    ensures Turns(w, l.tables, e, Expire(l.tables, e.now), s)
  {
    BooksOf(l, s);
    ExpireDrops(l.tables, e.now);
    ExpireReports(l.tables, e.now, s);
  }

  lemma StepTurns(w: Wire, l: Ledger, e: Event, s: Stream)
    requires Inv(l) && NewIds(l, e) && s in l.tables.outbound
    ensures Turns(w, l.tables, e, Next(w, l, e).tables, s)
  {
    match e
    case Asks(_, _, _) =>
    case Answers(r, encodable) => AnswerMeans(l.tables, r, encodable);
    case PeerOpens(_, _, _) =>
    case PeerSends(_, _) => DataTurns(w, l, e, s);
    case PeerFinishes(_, _) => FinishTurns(w, l, e, s);
    case PeerFails(_) => FailTurns(w, l, e, s);
    case Expires(_) => ExpireTurns(w, l, e, s);
  }

  lemma ConcludeGrows(t: Tables, r: Stream, x: Report, s: Stream)
    ensures At(t.reports, s) <= At(Conclude(t, r, x).reports, s)
    ensures At(t.reports, s) <= At(Add(t.reports, r, x), s)
  {
    AddedAt(t.reports, r, x, s);
  }

  lemma FinishGrows(w: Wire, t: Tables, e: Event, s: Stream)
    requires e.PeerFinishes?
    ensures At(t.reports, s) <= At(Finished(w, t, e.stream, e.admitted).reports, s)
  {
    if e.stream in t.inbound {
      var r := t.inbound[e.stream];
      if w.request(r.buf).Some? {
        ConcludeGrows(t, e.stream, Lookup(r.peer, w.request(r.buf).value), s);
      }
    } else if e.stream in t.outbound {
      var r := t.outbound[e.stream];
      var x := if w.response(r.buf).Some? then Response(r.peer, w.response(r.buf).value) else Failed(r.peer);
      ConcludeGrows(t, e.stream, x, s);
    }
  }

  lemma DataGrows(t: Tables, r: Stream, bytes: Bytes, s: Stream)
    ensures At(t.reports, s) <= At(Data(t, r, bytes).reports, s)
  {
    if r in t.outbound {
      ConcludeGrows(t, r, Failed(t.outbound[r].peer), s);
    }
  }

  lemma FailGrows(t: Tables, r: Stream, s: Stream)
    ensures At(t.reports, s) <= At(StreamFailed(t, r).reports, s)
  {
    if r in t.outbound {
      ConcludeGrows(t, r, Failed(t.outbound[r].peer), s);
    }
  }

  /** Nothing is ever taken back from the reports. */
  lemma ReportsGrow(w: Wire, t: Tables, e: Event, s: Stream)
    ensures At(t.reports, s) <= At(Step(w, t, e).reports, s)
  {
    match e
    case Expires(now) => ExpireReports(t, now, s);
    case PeerFinishes(_, _) => FinishGrows(w, t, e, s);
    case PeerSends(r, bytes) => DataGrows(t, r, bytes, s);
    case PeerFails(r) => FailGrows(t, r, s);
    case _ =>
  }

  /** What was reported about a stream of ours that is gone stays the one report. */
  lemma {:induction false} GoneStays(w: Wire, l: Ledger, events: seq<Event>, s: Stream)
    requires Inv(l) && Proper(w, l, events) && s in l.ours && s !in l.tables.outbound
    ensures s !in Run(w, l, events).tables.outbound
    ensures At(Run(w, l, events).tables.reports, s) == At(l.tables.reports, s)
    decreases |events|
  {
    if events != [] {
      var next := Next(w, l, events[0]);
      ProperStep(w, l, events);
      ReportsGrow(w, l.tables, events[0], s);
      OneReport(l, s);
      NeverBack(w, l, events[0], s);
      OneReport(next, s);
      GoneStays(w, next, events[1..], s);
    }
  }

  lemma ProperStep(w: Wire, l: Ledger, events: seq<Event>)
    requires Inv(l) && Proper(w, l, events) && events != []
    ensures Inv(Next(w, l, events[0]))
  {
    if events[0].Answers? {
      ToldIsNotStray(l, events[0].stream, events[0].encodable);
    }
    StepKeepsInvIff(w, l, events[0]);
  }

  lemma OneReport(l: Ledger, s: Stream)
    requires OursOnce(l) && s in l.ours && s !in l.tables.outbound
    ensures |At(l.tables.reports, s)| == 1
  {
  }

  lemma NeverBack(w: Wire, l: Ledger, e: Event, s: Stream)
    requires NewIds(l, e) && s in l.ours && s !in l.tables.outbound
    ensures s in Next(w, l, e).ours && s !in Next(w, l, e).tables.outbound
  {
  }

  /** The report on a stream that had read `buf` and was asked of `peer`: a response that is
      what the stream carried until it was finished, or a failure of that peer. */
  ghost predicate Told(w: Wire, events: seq<Event>, s: Stream, peer: Peer, buf: Bytes, r: Report)
  {
    match r
    case Response(p, shred) =>
      p == peer && exists j :: 0 <= j < |events| && Finishes(events[j], s) &&
                               w.response(buf + Carried(events[..j], s)) == Some(shred)
    case Failed(p) => p == peer
    case Lookup(_, _) => false
  }

  predicate Finishes(e: Event, s: Stream) { e.PeerFinishes? && e.stream == s }

  /** After a run the stream, which had state `r` before it, has read exactly what was sent on
      it, or is gone with one report that says what it carried. */
  ghost predicate Faithful(w: Wire, events: seq<Event>, s: Stream, r: Outbound, u: Tables)
  {
    if s in u.outbound then u.outbound[s] == r.(buf := r.buf + Carried(events, s))
    else |At(u.reports, s)| == 1 && Told(w, events, s, r.peer, r.buf, At(u.reports, s)[0])
  }

  lemma ToldLater(w: Wire, events: seq<Event>, s: Stream, peer: Peer, buf: Bytes, more: Bytes, r: Report)
    requires events != [] && Told(w, events[1..], s, peer, buf + more, r) && more == Sent(events[0], s)
    ensures Told(w, events, s, peer, buf, r)
  {
    if r.Response? {
      var rest := events[1..];
      var j :| 0 <= j < |rest| && Finishes(rest[j], s) &&
               w.response(buf + more + Carried(rest[..j], s)) == Some(r.shred);
      assert events[..j + 1][1..] == rest[..j];
      assert buf + more + Carried(rest[..j], s) == buf + Carried(events[..j + 1], s);
      assert Finishes(events[j + 1], s);
    }
  }

  lemma FaithfulLater(w: Wire, events: seq<Event>, s: Stream, r: Outbound, u: Tables)
    requires events != [] && Faithful(w, events[1..], s, r.(buf := r.buf + Sent(events[0], s)), u)
    ensures Faithful(w, events, s, r, u)
  {
    if s in u.outbound {
      assert r.buf + Sent(events[0], s) + Carried(events[1..], s) == r.buf + Carried(events, s);
    } else {
      ToldLater(w, events, s, r.peer, r.buf, Sent(events[0], s), At(u.reports, s)[0]);
    }
  }

  lemma GoneFaithful(w: Wire, events: seq<Event>, t: Tables, next: Tables, s: Stream, u: Tables)
    requires events != [] && s in t.outbound && Turns(w, t, events[0], next, s) && s !in next.outbound
    requires s !in u.outbound && At(u.reports, s) == At(next.reports, s)
    ensures Faithful(w, events, s, t.outbound[s], u)
  {
    assert t.outbound[s].buf + Carried(events[..0], s) == t.outbound[s].buf;
    if At(u.reports, s)[0].Response? {
      assert Finishes(events[0], s);
    }
  }

  /** A stream of ours in a proper run: as long as it is tracked it has read exactly what was
      sent on it, and once it is gone its one report says what it carried. */
  lemma {:induction false} ReportIsCarried(w: Wire, l: Ledger, events: seq<Event>, s: Stream)
    requires Inv(l) && Proper(w, l, events) && s in l.tables.outbound
    ensures Faithful(w, events, s, l.tables.outbound[s], Run(w, l, events).tables)
    decreases |events|
  {
    var r := l.tables.outbound[s];
    if events == [] {
      assert r.buf + [] == r.buf;
    } else {
      var next, u := Next(w, l, events[0]), Run(w, l, events).tables;
      ProperStep(w, l, events);
      StepTurns(w, l, events[0], s);
      if s in next.tables.outbound {
        TrackedReads(w, l.tables, events[0], next.tables, s);
        ReportIsCarried(w, next, events[1..], s);
        FaithfulLater(w, events, s, r, u);
      } else {
        GoneStays(w, next, events[1..], s);
        GoneFaithful(w, events, l.tables, next.tables, s, u);
      }
    }
  }

  lemma TrackedReads(w: Wire, t: Tables, e: Event, next: Tables, s: Stream)
    requires s in t.outbound && s in next.outbound && Turns(w, t, e, next, s)
    ensures next.outbound[s] == t.outbound[s].(buf := t.outbound[s].buf + Sent(e, s))
  {
    assert t.outbound[s].buf + [] == t.outbound[s].buf;
  }

  // ---- streams that peers opened -------------------------------------------------------

  /** The stream has asked for nothing yet. */
  predicate Reading(t: Tables, s: Stream) { s in t.inbound && !t.inbound[s].awaiting && At(t.reports, s) == [] }

  /** The stream has asked already, or is gone. */
  predicate Through(t: Tables, s: Stream) { s !in t.outbound && (s in t.inbound ==> t.inbound[s].awaiting) }

  /** One event, seen from such a stream. */
  ghost predicate Reads(w: Wire, t: Tables, e: Event, u: Tables, s: Stream)
    requires s in t.inbound
  {
    var r := t.inbound[s];
    if e.PeerSends? && e.stream == s && |r.buf| + |e.bytes| <= 64 then
      Reading(u, s) && u.inbound[s] == r.(buf := r.buf + e.bytes)
    else if e.PeerFinishes? && e.stream == s && e.admitted && w.request(r.buf).Some? then
      Through(u, s) && s in u.inbound && At(u.reports, s) == [Lookup(r.peer, w.request(r.buf).value)]
    else if (e.PeerSends? || e.PeerFinishes? || e.PeerFails? || e.Answers?) && e.stream == s then
      Through(u, s) && s !in u.inbound && At(u.reports, s) == []
    else if e.Expires? && e.now >= r.deadline then Through(u, s) && s !in u.inbound && At(u.reports, s) == []
    else Reading(u, s) && u.inbound[s] == r
  }

  lemma SparedIn(t: Tables, u: Tables, r: Stream, s: Stream)
    requires Spares(t, u, r) && s != r
    ensures s in u.inbound <==> s in t.inbound
    ensures s in u.inbound ==> u.inbound[s] == t.inbound[s]
    ensures s in u.outbound <==> s in t.outbound
    ensures At(u.reports, s) == At(t.reports, s)
  {
    assert s in u.inbound <==> s in u.inbound - {r};
    assert s in u.outbound <==> s in u.outbound - {r};
    assert s in t.inbound <==> s in t.inbound - {r};
    assert s in t.outbound <==> s in t.outbound - {r};
    assert s in u.inbound ==> (u.inbound - {r})[s] == u.inbound[s] && (t.inbound - {r})[s] == t.inbound[s];
  }

  /** The event is about one stream, and spares all others. */
  lemma OneStream(w: Wire, l: Ledger, e: Event)
    requires Inv(l) && (e.PeerSends? || e.PeerFinishes? || e.PeerFails?)
    ensures Spares(l.tables, Next(w, l, e).tables, e.stream)
  {
    BooksOf(l, e.stream);
    match e
    case PeerSends(r, bytes) => DataMeans(l.tables, r, bytes);
    case PeerFinishes(r, admitted) => FinishMeans(w, l.tables, r, admitted);
    case PeerFails(r) => FailMeans(l.tables, r);
    case _ =>
  }

  lemma OwnReads(w: Wire, t: Tables, e: Event, s: Stream)
    requires Reading(t, s) && s !in t.outbound && (e.PeerSends? || e.PeerFinishes? || e.PeerFails?) && e.stream == s
    ensures Reads(w, t, e, Step(w, t, e), s)
  {
  }

  lemma ExpireReads(w: Wire, t: Tables, e: Event, s: Stream)
    requires Reading(t, s) && s !in t.outbound && e.Expires?
    ensures Reads(w, t, e, Expire(t, e.now), s)
  {
    ExpireReports(t, e.now, s);
  }

  lemma StepReads(w: Wire, l: Ledger, e: Event, s: Stream)
    requires Inv(l) && NewIds(l, e) && Reading(l.tables, s)
    ensures Reads(w, l.tables, e, Next(w, l, e).tables, s)
  {
    BooksOf(l, s);
    assert s !in l.tables.outbound;
    if e.Expires? {
      ExpireReads(w, l.tables, e, s);
    } else if e.PeerSends? || e.PeerFinishes? || e.PeerFails? {
      OneStream(w, l, e);
      if e.stream == s {
        OwnReads(w, l.tables, e, s);
      } else {
        SparedIn(l.tables, Next(w, l, e).tables, e.stream, s);
      }
    }
  }

  lemma StepThrough(w: Wire, l: Ledger, e: Event, s: Stream)
    requires Inv(l) && NewIds(l, e) && s in l.theirs && Through(l.tables, s)
    ensures s in Next(w, l, e).theirs && Through(Next(w, l, e).tables, s)
    ensures At(Next(w, l, e).tables.reports, s) == At(l.tables.reports, s)
  {
    if e.Expires? {
      ExpireReports(l.tables, e.now, s);
    } else if (e.PeerSends? || e.PeerFinishes? || e.PeerFails?) && e.stream != s {
      OneStream(w, l, e);
      SparedIn(l.tables, Next(w, l, e).tables, e.stream, s);
    }
  }

  lemma {:induction false} StaysThrough(w: Wire, l: Ledger, events: seq<Event>, s: Stream)
    requires Inv(l) && Proper(w, l, events) && s in l.theirs && Through(l.tables, s)
    ensures At(Run(w, l, events).tables.reports, s) == At(l.tables.reports, s)
    ensures Through(Run(w, l, events).tables, s)
    decreases |events|
  {
    if events != [] {
      ProperStep(w, l, events);
      StepThrough(w, l, events[0], s);
      StaysThrough(w, Next(w, l, events[0]), events[1..], s);
    }
  }

  /** After a run the stream, which had state `r` before it, has asked for nothing, or for the
      one request that it carried until it was finished. */
  ghost predicate AsksOnce(w: Wire, events: seq<Event>, s: Stream, r: Inbound, u: Tables)
  {
    if At(u.reports, s) == [] then
      Reading(u, s) ==> u.inbound[s] == r.(buf := r.buf + Carried(events, s))
    else
      exists j :: 0 <= j < |events| && Finishes(events[j], s) &&
                  Looked(w, u, s, r.peer, r.buf + Carried(events[..j], s))
  }

  /** The one report on the stream is a lookup of what `bytes` encode. */
  predicate Looked(w: Wire, u: Tables, s: Stream, peer: Peer, bytes: Bytes)
  {
    w.request(bytes).Some? && At(u.reports, s) == [Lookup(peer, w.request(bytes).value)]
  }

  lemma AsksLater(w: Wire, events: seq<Event>, s: Stream, r: Inbound, u: Tables)
    requires events != [] && AsksOnce(w, events[1..], s, r.(buf := r.buf + Sent(events[0], s)), u)
    ensures AsksOnce(w, events, s, r, u)
  {
    var rest, more := events[1..], Sent(events[0], s);
    if At(u.reports, s) == [] {
      assert r.buf + more + Carried(rest, s) == r.buf + Carried(events, s);
    } else {
      var j :| 0 <= j < |rest| && Finishes(rest[j], s) &&
               Looked(w, u, s, r.peer, r.buf + more + Carried(rest[..j], s));
      assert events[..j + 1][1..] == rest[..j];
      assert r.buf + more + Carried(rest[..j], s) == r.buf + Carried(events[..j + 1], s);
      assert Finishes(events[j + 1], s);
    }
  }

  lemma ThroughAsks(w: Wire, events: seq<Event>, t: Tables, next: Tables, s: Stream, u: Tables)
    requires events != [] && Reading(t, s) && Reads(w, t, events[0], next, s) && Through(next, s)
    requires Through(u, s) && At(u.reports, s) == At(next.reports, s)
    ensures AsksOnce(w, events, s, t.inbound[s], u)
  {
    assert t.inbound[s].buf + Carried(events[..0], s) == t.inbound[s].buf;
    if At(u.reports, s) != [] {
      assert Finishes(events[0], s) && Looked(w, u, s, t.inbound[s].peer, t.inbound[s].buf + Carried(events[..0], s));
    }
  }

  lemma StillReads(w: Wire, t: Tables, e: Event, next: Tables, s: Stream)
    requires Reading(t, s) && Reading(next, s) && Reads(w, t, e, next, s)
    ensures next.inbound[s] == t.inbound[s].(buf := t.inbound[s].buf + Sent(e, s))
  {
    assert t.inbound[s].buf + [] == t.inbound[s].buf;
  }

  /** A peer's stream in a proper run is asked to be looked up at most once, for the request
      that it carried until the peer finished it, and before that it has read what was sent. */
  lemma {:induction false} LookupIsCarried(w: Wire, l: Ledger, events: seq<Event>, s: Stream)
    requires Inv(l) && Proper(w, l, events) && Reading(l.tables, s)
    ensures AsksOnce(w, events, s, l.tables.inbound[s], Run(w, l, events).tables)
    decreases |events|
  {
    var r := l.tables.inbound[s];
    if events == [] {
      assert r.buf + [] == r.buf;
    } else {
      var next, u := Next(w, l, events[0]), Run(w, l, events).tables;
      ProperStep(w, l, events);
      StepReads(w, l, events[0], s);
      if Reading(next.tables, s) {
        StillReads(w, l.tables, events[0], next.tables, s);
        LookupIsCarried(w, next, events[1..], s);
        AsksLater(w, events, s, r, u);
      } else {
        StaysThrough(w, next, events[1..], s);
        ThroughAsks(w, events, l.tables, next.tables, s, u);
      }
    }
  }
}
