/** Accounting for repair streams in the overlay core: what each handler does to the two
    stream tables, to the events it produces and to the streams themselves. */
module RepairStreams {
  import opened Options

  const MAX_OUTBOUND_REPAIRS: nat := 1024
  const MAX_INBOUND_REPAIRS: nat := 1024
  const MAX_REPAIR_REQ_WIRE: nat := 64
  const MAX_REPAIR_RESP_WIRE: nat := 2048
  const REPAIR_STREAM_TIMEOUT: nat := 3000

  type Stream = nat
  type Peer = nat
  type Bytes = seq<bv8>

  datatype Outbound = Outbound(peer: Peer, buf: Bytes, deadline: nat)

  datatype Inbound = Inbound(peer: Peer, buf: Bytes, awaiting: bool, deadline: nat)

  /** What is reported about a stream: to the driver about one we opened (`Response` with
      the shred, if the peer has it, or `Failed`) or about a request to look up. */
  datatype Report = Response(peer: Peer, shred: Option<Bytes>) | Failed(peer: Peer) | Lookup(peer: Peer, request: nat)

  /** How a stream that a peer opened ends. */
  datatype Ending = Answered | Reset | PeerFailed

  /** Decoders of the wire formats; decoding may fail. */
  datatype Wire = Wire(request: Bytes -> Option<nat>, response: Bytes -> Option<Option<Bytes>>)

  /** The tables, with all that was ever reported and ended, stream by stream. */
  datatype Tables = Tables(
    outbound: map<Stream, Outbound>, inbound: map<Stream, Inbound>,
    reports: map<Stream, seq<Report>>, endings: map<Stream, seq<Ending>>)

  function At<T>(log: map<Stream, seq<T>>, s: Stream): (r: seq<T>) { if s in log then log[s] else [] }

  function Add<T>(log: map<Stream, seq<T>>, s: Stream, x: T): (r: map<Stream, seq<T>>) { log[s := At(log, s) + [x]] }

  /** Report a failure for each outbound stream of a set. */
  function FailAll(reports: map<Stream, seq<Report>>, ids: set<Stream>, table: map<Stream, Outbound>)
    : (r: map<Stream, seq<Report>>)
    requires ids <= table.Keys
  {
    map s | s in reports.Keys + ids :: At(reports, s) + if s in ids then [Failed(table[s].peer)] else []
  }

  function ResetAll(endings: map<Stream, seq<Ending>>, ids: set<Stream>): (r: map<Stream, seq<Ending>>)
  {
    map s | s in endings.Keys + ids :: At(endings, s) + if s in ids then [Reset] else []
  }

  function Fresh(): (next: Tables) { Tables(map[], map[], map[], map[]) }

  // ---- steps -----------------------------------------------------------------------

  /** Drop an inbound stream and end it. */
  function End(t: Tables, s: Stream, e: Ending): (next: Tables)
  {
    t.(inbound := t.inbound - {s}, endings := Add(t.endings, s, e))
  }

  /** Drop an outbound stream and report on it. */
  function Conclude(t: Tables, s: Stream, r: Report): (next: Tables)
  {
    t.(outbound := t.outbound - {s}, reports := Add(t.reports, s, r))
  }

  /** `stream` is what the transport opens toward the peer, if it is connected. */
  function RequestRepair(t: Tables, peer: Peer, stream: Option<Stream>, now: nat): (next: Tables)
  {
    if |t.outbound| >= MAX_OUTBOUND_REPAIRS || stream.None? then t
    else t.(outbound := t.outbound[stream.value := Outbound(peer, [], now + REPAIR_STREAM_TIMEOUT)])
  }

  /** The driver answers a lookup; the answer may not be encodable. */
  function RepairResponse(t: Tables, s: Stream, encodable: bool): (next: Tables)
  {
    if s !in t.inbound then t
    else if !t.inbound[s].awaiting then t.(inbound := t.inbound - {s})
    else End(t, s, if encodable then Answered else Reset)
  }

  function Opened(t: Tables, s: Stream, peer: Peer, now: nat): (next: Tables)
  {
    if |t.inbound| >= MAX_INBOUND_REPAIRS then t.(endings := Add(t.endings, s, Reset))
    else t.(inbound := t.inbound[s := Inbound(peer, [], false, now + REPAIR_STREAM_TIMEOUT)])
  }

  function Data(t: Tables, s: Stream, bytes: Bytes): (next: Tables)
  {
    if s in t.inbound then
      var r := t.inbound[s];
      if r.awaiting || |r.buf + bytes| > MAX_REPAIR_REQ_WIRE then End(t, s, Reset)
      else t.(inbound := t.inbound[s := r.(buf := r.buf + bytes)])
    else if s in t.outbound then
      var r := t.outbound[s];
      if |r.buf + bytes| > MAX_REPAIR_RESP_WIRE then Conclude(t, s, Failed(r.peer))
      else t.(outbound := t.outbound[s := r.(buf := r.buf + bytes)])
    else t
  }

  /** `admitted` is the verdict of the rate limiter. */
  function Finished(w: Wire, t: Tables, s: Stream, admitted: bool): (next: Tables)
  {
    if s in t.inbound then
      var r := t.inbound[s];
      if r.awaiting then t
      else if w.request(r.buf).Some? && admitted then
        t.(inbound := t.inbound[s := r.(awaiting := true, buf := [])],
           reports := Add(t.reports, s, Lookup(r.peer, w.request(r.buf).value)))
      else End(t, s, Reset)
    else if s in t.outbound then
      var r := t.outbound[s];
      Conclude(t, s, if w.response(r.buf).Some? then Response(r.peer, w.response(r.buf).value) else Failed(r.peer))
    else t
  }

  function StreamFailed(t: Tables, s: Stream): (next: Tables)
  {
    var u := if s in t.inbound then End(t, s, PeerFailed) else t;
    if s in u.outbound then Conclude(u, s, Failed(u.outbound[s].peer)) else u
  }

  function DueOut(t: Tables, now: nat): (r: set<Stream>) { set s | s in t.outbound && now >= t.outbound[s].deadline }

  function DueIn(t: Tables, now: nat): (r: set<Stream>) { set s | s in t.inbound && now >= t.inbound[s].deadline }

  /** Conclude a set of outbound streams as failed. */
  function FailStreams(t: Tables, ids: set<Stream>): (next: Tables)
    requires ids <= t.outbound.Keys
  {
    t.(outbound := t.outbound - ids, reports := FailAll(t.reports, ids, t.outbound))
  }

  function ResetStreams(t: Tables, ids: set<Stream>): (next: Tables)
  {
    t.(inbound := t.inbound - ids, endings := ResetAll(t.endings, ids))
  }

  function Expire(t: Tables, now: nat): (next: Tables)
  {
    ResetStreams(FailStreams(t, DueOut(t, now)), DueIn(t, now))
  }

  // ---- runs ------------------------------------------------------------------------

  datatype Event =
    | Asks(peer: Peer, got: Option<Stream>, now: nat)
    | Answers(stream: Stream, encodable: bool)
    | PeerOpens(stream: Stream, peer: Peer, now: nat)
    | PeerSends(stream: Stream, bytes: Bytes)
    | PeerFinishes(stream: Stream, admitted: bool)
    | PeerFails(stream: Stream)
    | Expires(now: nat)

  function Step(w: Wire, t: Tables, e: Event): (next: Tables)
  {
    match e
    case Asks(peer, got, now) => RequestRepair(t, peer, got, now)
    case Answers(s, encodable) => RepairResponse(t, s, encodable)
    case PeerOpens(s, peer, now) => Opened(t, s, peer, now)
    case PeerSends(s, bytes) => Data(t, s, bytes)
    case PeerFinishes(s, admitted) => Finished(w, t, s, admitted)
    case PeerFails(s) => StreamFailed(t, s)
    case Expires(now) => Expire(t, now)
  }

  /** The streams we have opened and those that peers have opened, in a whole run. */
  datatype Ledger = Ledger(tables: Tables, ours: set<Stream>, theirs: set<Stream>)

  predicate Opens(t: Tables, e: Event) { e.Asks? && e.got.Some? && |t.outbound| < MAX_OUTBOUND_REPAIRS }

  function Next(w: Wire, l: Ledger, e: Event): (next: Ledger)
  {
    Ledger(Step(w, l.tables, e),
           if Opens(l.tables, e) then l.ours + {e.got.value} else l.ours,
           if e.PeerOpens? then l.theirs + {e.stream} else l.theirs)
  }

  /** The transport never reuses a stream id. */
  predicate NewIds(l: Ledger, e: Event)
  {
    && (e.Asks? && e.got.Some? ==> e.got.value !in l.ours + l.theirs)
    && (e.PeerOpens? ==> e.stream !in l.ours + l.theirs)
  }

  /** Every stream we opened is in the table with nothing reported, or is gone with exactly
      one report, which is a response or a failure. */
  ghost predicate OursOnce(l: Ledger)
  {
    && l.ours !! l.theirs && l.tables.outbound.Keys <= l.ours
    && (forall s | s in l.ours ::
          if s in l.tables.outbound then At(l.tables.reports, s) == []
          else |At(l.tables.reports, s)| == 1 && !At(l.tables.reports, s)[0].Lookup?)
  }

  /** Every stream a peer opened has asked for at most one lookup, and is in the table with
      no ending or is gone with exactly one. */
  ghost predicate TheirsOnce(l: Ledger)
  {
    && l.tables.inbound.Keys <= l.theirs
    && (forall s | s in l.theirs ::
          |At(l.tables.endings, s)| == if s in l.tables.inbound then 0 else 1)
    && (forall s | s in l.theirs ::
          |At(l.tables.reports, s)| <= 1 &&
          (s in l.tables.inbound ==> |At(l.tables.reports, s)| == if l.tables.inbound[s].awaiting then 1 else 0))
  }

  ghost predicate Strangers(l: Ledger)
  {
    forall s | s !in l.ours + l.theirs :: At(l.tables.reports, s) == [] && At(l.tables.endings, s) == []
  }

  ghost predicate Bounded(t: Tables)
  {
    && |t.outbound| <= MAX_OUTBOUND_REPAIRS && |t.inbound| <= MAX_INBOUND_REPAIRS
    && (forall s | s in t.outbound :: |t.outbound[s].buf| <= MAX_REPAIR_RESP_WIRE)
    && (forall s | s in t.inbound :: |t.inbound[s].buf| <= MAX_REPAIR_REQ_WIRE)
  }

  ghost predicate Inv(l: Ledger) { OursOnce(l) && TheirsOnce(l) && Strangers(l) && Bounded(l.tables) }

  /** The driver answers a stream that has not asked: the stream is forgotten, not ended. */
  predicate Stray(t: Tables, e: Event) { e.Answers? && e.stream in t.inbound && !t.inbound[e.stream].awaiting }

  // ---- what every step keeps -----------------------------------------------------------

  lemma AddedAt<T>(log: map<Stream, seq<T>>, s: Stream, x: T, r: Stream)
    ensures At(Add(log, s, x), r) == At(log, r) + if r == s then [x] else []
  {
  }

  lemma MapShrinks<T>(m: map<Stream, T>, ids: set<Stream>)
    ensures |m - ids| <= |m|
  {
  }

  /** Ending an inbound stream. */
  lemma EndKeeps(l: Ledger, s: Stream, e: Ending)
    requires Inv(l) && s in l.tables.inbound
    ensures Inv(l.(tables := End(l.tables, s, e)))
  {
    forall r
      ensures At(End(l.tables, s, e).endings, r) == At(l.tables.endings, r) + if r == s then [e] else []
    {
      AddedAt(l.tables.endings, s, e, r);
    }
    MapShrinks(l.tables.inbound, {s});
  }

  /** Concluding an outbound stream. */
  lemma ConcludeKeeps(l: Ledger, s: Stream, x: Report)
    requires Inv(l) && s in l.tables.outbound && !x.Lookup?
    ensures Inv(l.(tables := Conclude(l.tables, s, x)))
  {
    forall r
      ensures At(Conclude(l.tables, s, x).reports, r) == At(l.tables.reports, r) + if r == s then [x] else []
    {
      AddedAt(l.tables.reports, s, x, r);
    }
    MapShrinks(l.tables.outbound, {s});
  }

  lemma AskKeeps(w: Wire, l: Ledger, e: Event)
    requires Inv(l) && NewIds(l, e) && e.Asks?
    ensures Inv(Next(w, l, e))
  {
  }

  lemma RefuseKeeps(l: Ledger, s: Stream)
    requires Inv(l) && s !in l.ours + l.theirs
    ensures Inv(Ledger(l.tables.(endings := Add(l.tables.endings, s, Reset)), l.ours, l.theirs + {s}))
  {
  }

  lemma AcceptKeeps(l: Ledger, s: Stream, r: Inbound)
    requires Inv(l) && s !in l.ours + l.theirs
    requires |l.tables.inbound| < MAX_INBOUND_REPAIRS && !r.awaiting && r.buf == []
    ensures Inv(Ledger(l.tables.(inbound := l.tables.inbound[s := r]), l.ours, l.theirs + {s}))
  {
  }

  lemma OpenKeeps(w: Wire, l: Ledger, e: Event)
    requires Inv(l) && NewIds(l, e) && e.PeerOpens?
    ensures Inv(Next(w, l, e))
  {
    if |l.tables.inbound| >= MAX_INBOUND_REPAIRS {
      RefuseKeeps(l, e.stream);
    } else {
      AcceptKeeps(l, e.stream, Inbound(e.peer, [], false, e.now + REPAIR_STREAM_TIMEOUT));
    }
  }

  lemma GrowBounded(t: Tables, s: Stream, r: Inbound)
    requires Bounded(t) && s in t.inbound && |r.buf| <= MAX_REPAIR_REQ_WIRE
    ensures Bounded(t.(inbound := t.inbound[s := r]))
  {
  }

  lemma GrowTheirs(l: Ledger, s: Stream, r: Inbound)
    requires TheirsOnce(l) && s in l.tables.inbound && r.awaiting == l.tables.inbound[s].awaiting
    ensures TheirsOnce(l.(tables := l.tables.(inbound := l.tables.inbound[s := r])))
  {
  }

  lemma GrowIn(l: Ledger, s: Stream, r: Inbound)
    requires Inv(l) && s in l.tables.inbound && r.awaiting == l.tables.inbound[s].awaiting
    requires |r.buf| <= MAX_REPAIR_REQ_WIRE
    ensures Inv(l.(tables := l.tables.(inbound := l.tables.inbound[s := r])))
  {
    GrowTheirs(l, s, r);
    GrowBounded(l.tables, s, r);
  }

  lemma GrowOut(l: Ledger, s: Stream, r: Outbound)
    requires Inv(l) && s in l.tables.outbound && |r.buf| <= MAX_REPAIR_RESP_WIRE
    ensures Inv(l.(tables := l.tables.(outbound := l.tables.outbound[s := r])))
  {
  }

  lemma DataKeeps(l: Ledger, s: Stream, bytes: Bytes)
    requires Inv(l)
    ensures Inv(l.(tables := Data(l.tables, s, bytes)))
  {
    var t := l.tables;
    if s in t.inbound {
      var r := t.inbound[s];
      if r.awaiting || |r.buf + bytes| > MAX_REPAIR_REQ_WIRE {
        EndKeeps(l, s, Reset);
      } else {
        GrowIn(l, s, r.(buf := r.buf + bytes));
      }
    } else if s in t.outbound {
      var r := t.outbound[s];
      if |r.buf + bytes| > MAX_REPAIR_RESP_WIRE {
        ConcludeKeeps(l, s, Failed(r.peer));
      } else {
        GrowOut(l, s, r.(buf := r.buf + bytes));
      }
    }
  }

  lemma LookupTheirs(l: Ledger, s: Stream, r: Inbound, x: Report)
    requires TheirsOnce(l) && s in l.tables.inbound && !l.tables.inbound[s].awaiting && r.awaiting
    ensures TheirsOnce(l.(tables := l.tables.(inbound := l.tables.inbound[s := r],
        reports := Add(l.tables.reports, s, x))))
  {
  }

  lemma LookupOthers(l: Ledger, s: Stream, r: Inbound, x: Report)
    requires OursOnce(l) && Strangers(l) && s in l.theirs
    ensures var m := l.(tables := l.tables.(inbound := l.tables.inbound[s := r],
        reports := Add(l.tables.reports, s, x)));
            OursOnce(m) && Strangers(m)
  {
  }

  lemma LookupKeeps(l: Ledger, s: Stream, r: Inbound, x: Report)
    requires Inv(l) && s in l.tables.inbound && !l.tables.inbound[s].awaiting && r.awaiting && r.buf == []
    ensures Inv(l.(tables := l.tables.(inbound := l.tables.inbound[s := r], reports := Add(l.tables.reports, s, x))))
  {
    LookupTheirs(l, s, r, x);
    LookupOthers(l, s, r, x);
    GrowBounded(l.tables, s, r);
  }

  lemma FinishKeeps(w: Wire, l: Ledger, s: Stream, admitted: bool)
    requires Inv(l)
    ensures Inv(l.(tables := Finished(w, l.tables, s, admitted)))
  {
    var t := l.tables;
    if s in t.inbound {
      EndKeeps(l, s, Reset);
      if !t.inbound[s].awaiting && w.request(t.inbound[s].buf).Some? {
        LookupKeeps(l, s, t.inbound[s].(awaiting := true, buf := []),
          Lookup(t.inbound[s].peer, w.request(t.inbound[s].buf).value));
      }
    } else if s in t.outbound {
      var r := t.outbound[s];
      ConcludeKeeps(l, s, if w.response(r.buf).Some? then Response(r.peer, w.response(r.buf).value)
                          else Failed(r.peer));
    }
  }

  lemma FailKeeps(l: Ledger, s: Stream)
    requires Inv(l)
    ensures Inv(l.(tables := StreamFailed(l.tables, s)))
  {
    if s in l.tables.inbound {
      EndKeeps(l, s, PeerFailed);
    } else if s in l.tables.outbound {
      ConcludeKeeps(l, s, Failed(l.tables.outbound[s].peer));
    }
  }

  lemma ExpireReports(t: Tables, now: nat, r: Stream)
    ensures var x, y := At(t.reports, r), At(Expire(t, now).reports, r);
            if r in DueOut(t, now) then y == x + [Failed(t.outbound[r].peer)] else y == x
  {
  }

  lemma ExpireEndings(t: Tables, now: nat, r: Stream)
    ensures At(Expire(t, now).endings, r) == At(t.endings, r) + if r in DueIn(t, now) then [Reset] else []
  {
  }

  lemma ExpireOurs(l: Ledger, now: nat)
    requires OursOnce(l)
    ensures OursOnce(l.(tables := Expire(l.tables, now)))
  {
  }

  lemma ExpireTheirs(l: Ledger, now: nat)
    requires TheirsOnce(l) && OursOnce(l)
    ensures TheirsOnce(l.(tables := Expire(l.tables, now)))
  {
  }

  lemma ExpireKeeps(l: Ledger, now: nat)
    requires Inv(l)
    ensures Inv(l.(tables := Expire(l.tables, now)))
  {
    var t, u := l.tables, Expire(l.tables, now);
    ExpireOurs(l, now);
    ExpireTheirs(l, now);
    forall r | r !in l.ours + l.theirs
      ensures At(u.reports, r) == [] && At(u.endings, r) == []
    {
      ExpireReports(t, now, r);
      ExpireEndings(t, now, r);
    }
    MapShrinks(t.outbound, DueOut(t, now));
    MapShrinks(t.inbound, DueIn(t, now));
  }

  /** Every step keeps the books, except exactly one that answers a stream unasked. */
  lemma StepKeepsInvIff(w: Wire, l: Ledger, e: Event)
    requires Inv(l) && NewIds(l, e)
    ensures Inv(Next(w, l, e)) <==> !Stray(l.tables, e)
  {
    match e
    case Asks(_, _, _) => AskKeeps(w, l, e);
    case Answers(s, encodable) =>
      if s in l.tables.inbound && l.tables.inbound[s].awaiting {
        EndKeeps(l, s, if encodable then Answered else Reset);
      }
    case PeerOpens(_, _, _) => OpenKeeps(w, l, e);
    case PeerSends(s, bytes) => DataKeeps(l, s, bytes);
    case PeerFinishes(s, admitted) => FinishKeeps(w, l, s, admitted);
    case PeerFails(s) => FailKeeps(l, s);
    case Expires(now) => ExpireKeeps(l, now);
  }

  // ---- what a step means for its stream ---------------------------------------------------

  /** Nothing has happened to any stream but `s`. */
  ghost predicate Spares(t: Tables, u: Tables, s: Stream)
  {
    && u.outbound - {s} == t.outbound - {s} && u.inbound - {s} == t.inbound - {s}
    && forall r | r != s :: At(u.reports, r) == At(t.reports, r) && At(u.endings, r) == At(t.endings, r)
  }

  /** A tracked stream has gained the bytes, as far as its limit allows, and is otherwise gone
      with a failure or a reset; a peer that goes on after its request is reset as well. */
  ghost predicate Gained(t: Tables, u: Tables, s: Stream, bytes: Bytes)
  {
    && (s in t.outbound ==>
          var r := t.outbound[s];
          if |r.buf| + |bytes| <= 2048 then
            s in u.outbound && u.outbound[s] == Outbound(r.peer, r.buf + bytes, r.deadline) && At(u.reports, s) == []
          else s !in u.outbound && At(u.reports, s) == [Failed(r.peer)])
    && (s in t.inbound ==>
          var r := t.inbound[s];
          if !r.awaiting && |r.buf| + |bytes| <= 64 then
            && s in u.inbound && u.inbound[s] == Inbound(r.peer, r.buf + bytes, false, r.deadline)
            && At(u.endings, s) == []
          else s !in u.inbound && At(u.endings, s) == [Reset])
  }

  /** Our stream is concluded by what it carried; a peer's stream has asked for exactly one
      lookup, of what it carried, if that was a request and admitted, and else was reset. */
  ghost predicate Settled(w: Wire, t: Tables, u: Tables, s: Stream, admitted: bool)
  {
    && (s in t.outbound ==>
          var r, peer := w.response(t.outbound[s].buf), t.outbound[s].peer;
          s !in u.outbound && At(u.reports, s) == [if r.Some? then Response(peer, r.value) else Failed(peer)])
    && (s in t.inbound && t.inbound[s].awaiting ==>
          s in u.inbound && u.inbound[s] == t.inbound[s] && |At(u.reports, s)| == 1)
    && (s in t.inbound && !t.inbound[s].awaiting ==>
          var r, was := w.request(t.inbound[s].buf), t.inbound[s];
          if r.Some? && admitted then
            && s in u.inbound && u.inbound[s] == Inbound(was.peer, [], true, was.deadline)
            && At(u.reports, s) == [Lookup(was.peer, r.value)] && At(u.endings, s) == []
          else s !in u.inbound && At(u.endings, s) == [Reset] && At(u.reports, s) == [])
  }

  /** The stream is gone, with one failure if it was ours. */
  ghost predicate Dead(t: Tables, u: Tables, s: Stream)
  {
    && s !in u.outbound && s !in u.inbound
    && (s in t.outbound ==> At(u.reports, s) == [Failed(t.outbound[s].peer)])
    && (s in t.inbound ==> At(u.endings, s) == [PeerFailed])
  }

  /** What the books say of one stream. */
  predicate InBooks(t: Tables, s: Stream)
  {
    && (s in t.outbound ==> s !in t.inbound && At(t.reports, s) == [])
    && (s in t.inbound ==> At(t.endings, s) == [] && |At(t.reports, s)| == if t.inbound[s].awaiting then 1 else 0)
  }

  lemma BooksOf(l: Ledger, s: Stream)
    requires Inv(l)
    ensures InBooks(l.tables, s)
  {
  }

  lemma UpdatedRest<T>(m: map<Stream, T>, s: Stream, x: T)
    ensures m[s := x] - {s} == m - {s}
  {
  }

  lemma EndMeans(t: Tables, s: Stream, e: Ending)
    ensures Spares(t, End(t, s, e), s) && At(End(t, s, e).endings, s) == At(t.endings, s) + [e]
  {
    assert t.outbound - {s} == End(t, s, e).outbound - {s} && t.inbound - {s} == t.inbound - {s} - {s};
  }

  lemma ConcludeMeans(t: Tables, s: Stream, x: Report)
    ensures Spares(t, Conclude(t, s, x), s) && At(Conclude(t, s, x).reports, s) == At(t.reports, s) + [x]
  {
    assert t.outbound - {s} == t.outbound - {s} - {s};
  }

  lemma DataMeans(t: Tables, s: Stream, bytes: Bytes)
    requires InBooks(t, s)
    ensures Spares(t, Data(t, s, bytes), s) && Gained(t, Data(t, s, bytes), s, bytes)
  {
    if s in t.inbound {
      EndMeans(t, s, Reset);
      UpdatedRest(t.inbound, s, t.inbound[s].(buf := t.inbound[s].buf + bytes));
    } else if s in t.outbound {
      ConcludeMeans(t, s, Failed(t.outbound[s].peer));
      UpdatedRest(t.outbound, s, t.outbound[s].(buf := t.outbound[s].buf + bytes));
    }
  }

  lemma FinishMeans(w: Wire, t: Tables, s: Stream, admitted: bool)
    requires InBooks(t, s)
    ensures Spares(t, Finished(w, t, s, admitted), s) && Settled(w, t, Finished(w, t, s, admitted), s, admitted)
  {
    if s in t.inbound {
      EndMeans(t, s, Reset);
      UpdatedRest(t.inbound, s, t.inbound[s].(awaiting := true, buf := []));
    } else if s in t.outbound {
      var r := t.outbound[s];
      ConcludeMeans(t, s, if w.response(r.buf).Some? then Response(r.peer, w.response(r.buf).value)
                          else Failed(r.peer));
    }
  }

  lemma FailMeans(t: Tables, s: Stream)
    requires InBooks(t, s)
    ensures Spares(t, StreamFailed(t, s), s) && Dead(t, StreamFailed(t, s), s)
  {
    if s in t.inbound {
      EndMeans(t, s, PeerFailed);
    } else if s in t.outbound {
      ConcludeMeans(t, s, Failed(t.outbound[s].peer));
    }
  }

  /** The stream is gone; if it waited for the answer it has ended, as the answer could be sent
      or not; and nothing else has happened. */
  ghost predicate AnswerTaken(t: Tables, u: Tables, s: Stream, encodable: bool)
  {
    && u.outbound == t.outbound && u.reports == t.reports && u.inbound == t.inbound - {s}
    && (forall r :: At(u.endings, r) == At(t.endings, r) +
                    if r == s && s in t.inbound && t.inbound[s].awaiting then [if encodable then Answered else Reset]
                    else [])
  }

  lemma AnswerMeans(t: Tables, s: Stream, encodable: bool)
    ensures AnswerTaken(t, RepairResponse(t, s, encodable), s, encodable)
    ensures s !in t.inbound ==> RepairResponse(t, s, encodable) == t
  {
    if s !in t.inbound {
      assert t.inbound - {s} == t.inbound;
    }
  }

  /** A stream with a report behind it was told of, so its answer is not stray; and in books
      that are in order a peer's stream that is gone has ended once. */
  lemma AnswerInBooks(l: Ledger, s: Stream, encodable: bool)
    requires Inv(l)
    ensures At(l.tables.reports, s) != [] ==> !Stray(l.tables, Answers(s, encodable))
    ensures s in l.theirs && s !in l.tables.inbound ==> |At(l.tables.endings, s)| == 1
  {
    if At(l.tables.reports, s) != [] {
      ToldIsNotStray(l, s, encodable);
    }
  }

  /** Exactly the streams that are due are gone; all others are as they were. */
  ghost predicate DueGone(t: Tables, u: Tables, now: nat)
  {
    && (forall s :: s in u.outbound <==> s in t.outbound && now < t.outbound[s].deadline)
    && (forall s | s in u.outbound :: u.outbound[s] == t.outbound[s])
    && (forall s :: s in u.inbound <==> s in t.inbound && now < t.inbound[s].deadline)
    && (forall s | s in u.inbound :: u.inbound[s] == t.inbound[s])
  }

  /** Each of ours among them is reported as failed, and each of a peer's is reset. */
  ghost predicate DueTold(t: Tables, u: Tables, now: nat)
  {
    && (forall s :: At(u.reports, s) == At(t.reports, s) +
                    if s in t.outbound && now >= t.outbound[s].deadline then [Failed(t.outbound[s].peer)] else [])
    && (forall s :: At(u.endings, s) == At(t.endings, s) +
                    if s in t.inbound && now >= t.inbound[s].deadline then [Reset] else [])
  }

  lemma ExpireDrops(t: Tables, now: nat)
    ensures DueGone(t, Expire(t, now), now)
  {
  }

  lemma ExpireTells(t: Tables, now: nat)
    ensures DueTold(t, Expire(t, now), now)
  {
    var u := Expire(t, now);
    forall s
      ensures At(u.reports, s) == At(t.reports, s) +
              if s in t.outbound && now >= t.outbound[s].deadline then [Failed(t.outbound[s].peer)] else []
      ensures At(u.endings, s) == At(t.endings, s) +
              if s in t.inbound && now >= t.inbound[s].deadline then [Reset] else []
    {
      ExpireReports(t, now, s);
      ExpireEndings(t, now, s);
    }
  }

  function Run(w: Wire, l: Ledger, events: seq<Event>): (next: Ledger)
    decreases |events|
  {
    if events == [] then l else Run(w, Next(w, l, events[0]), events[1..])
  }

  /** The run's stream ids are new, and the driver answers only streams it was told of. */
  predicate Proper(w: Wire, l: Ledger, events: seq<Event>)
    decreases |events|
  {
    events == [] ||
    (NewIds(l, events[0]) && (events[0].Answers? ==> At(l.tables.reports, events[0].stream) != []) &&
     Proper(w, Next(w, l, events[0]), events[1..]))
  }

  lemma ToldIsNotStray(l: Ledger, s: Stream, encodable: bool)
    requires Inv(l) && At(l.tables.reports, s) != []
    ensures !Stray(l.tables, Answers(s, encodable))
  {
  }

  lemma {:induction false} RunKeepsInv(w: Wire, l: Ledger, events: seq<Event>)
    requires Inv(l) && Proper(w, l, events)
    ensures Inv(Run(w, l, events))
    decreases |events|
  {
    if events != [] {
      if events[0].Answers? {
        ToldIsNotStray(l, events[0].stream, events[0].encodable);
      }
      StepKeepsInvIff(w, l, events[0]);
      RunKeepsInv(w, Next(w, l, events[0]), events[1..]);
    }
  }

  /** A stream that a peer opened is out of the table, but has not ended. */
  predicate Forgotten(l: Ledger, s: Stream)
  {
    s in l.theirs && s !in l.tables.inbound && At(l.tables.endings, s) == []
  }

  lemma StaysForgotten(w: Wire, l: Ledger, e: Event, s: Stream)
    requires Forgotten(l, s) && NewIds(l, e)
    ensures Forgotten(Next(w, l, e), s)
  {
  }

  predicate NewRun(w: Wire, l: Ledger, events: seq<Event>)
    decreases |events|
  {
    events == [] || (NewIds(l, events[0]) && NewRun(w, Next(w, l, events[0]), events[1..]))
  }

  predicate Strays(w: Wire, l: Ledger, events: seq<Event>)
    decreases |events|
  {
    events != [] && (Stray(l.tables, events[0]) || Strays(w, Next(w, l, events[0]), events[1..]))
  }

  lemma {:induction false} RunStaysForgotten(w: Wire, l: Ledger, events: seq<Event>, s: Stream)
    requires Forgotten(l, s) && NewRun(w, l, events)
    ensures Forgotten(Run(w, l, events), s)
    decreases |events|
  {
    if events != [] {
      StaysForgotten(w, l, events[0], s);
      RunStaysForgotten(w, Next(w, l, events[0]), events[1..], s);
    }
  }

  lemma StrayIsForgotten(w: Wire, l: Ledger, e: Event)
    requires Inv(l) && Stray(l.tables, e)
    ensures Forgotten(Next(w, l, e), e.stream)
  {
  }

  lemma ForgottenBreaksInv(l: Ledger, s: Stream)
    requires Forgotten(l, s)
    ensures !Inv(l)
  {
  }

  /** With new stream ids, the books are in order after a run if and only if none of its
      answers was stray. */
  lemma {:induction false} RunKeepsInvIff(w: Wire, l: Ledger, events: seq<Event>)
    requires Inv(l) && NewRun(w, l, events)
    ensures Inv(Run(w, l, events)) <==> !Strays(w, l, events)
    decreases |events|
  {
    if events != [] {
      var e, rest := events[0], events[1..];
      if Stray(l.tables, e) {
        StrayIsForgotten(w, l, e);
        RunStaysForgotten(w, Next(w, l, e), rest, e.stream);
        ForgottenBreaksInv(Run(w, Next(w, l, e), rest), e.stream);
      } else {
        StepKeepsInvIff(w, l, e);
        RunKeepsInvIff(w, Next(w, l, e), rest);
      }
    }
  }

  function Opening(): (next: Ledger) { Ledger(Fresh(), {}, {}) }

  lemma OpeningInv()
    ensures Inv(Opening())
  {
  }

  /** In every run each stream we opened is in the table or has exactly one report, a response
      or a failure; each stream a peer opened is in the table or has ended exactly once, after
      at most one lookup; and both tables are bounded. */
  lemma ConcludedOnce(w: Wire, events: seq<Event>, s: Stream)
    requires Proper(w, Opening(), events)
    ensures var l := Run(w, Opening(), events);
            && (s in l.ours && s !in l.tables.outbound ==>
                  exists r: Report :: At(l.tables.reports, s) == [r] && !r.Lookup?)
            && (s in l.theirs && s !in l.tables.inbound ==> |At(l.tables.endings, s)| == 1)
            && (s in l.theirs ==> |At(l.tables.reports, s)| <= 1)
            && |l.tables.outbound| <= MAX_OUTBOUND_REPAIRS && |l.tables.inbound| <= MAX_INBOUND_REPAIRS
  {
    var l := Run(w, Opening(), events);
    OpeningInv();
    RunKeepsInv(w, Opening(), events);
    if s in l.ours && s !in l.tables.outbound {
      var rs := At(l.tables.reports, s);
      assert rs == [rs[0]];
    }
  }

  /** The witness: an answer to a stream that has not asked makes the core forget it, with
      neither a reset nor an answer. */
  lemma StrayForgets(w: Wire, s: Stream, peer: Peer, now: nat, encodable: bool) returns (l: Ledger)
    ensures l == Next(w, Next(w, Opening(), PeerOpens(s, peer, now)), Answers(s, encodable))
    ensures s in l.theirs && s !in l.tables.inbound && At(l.tables.endings, s) == []
  {
    l := Next(w, Next(w, Opening(), PeerOpens(s, peer, now)), Answers(s, encodable));
  }
}
