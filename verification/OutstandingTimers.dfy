/** Outstanding repair requests under byte keys that start with the slot, so that the
    requests of one slot are a range. */
module OutstandingTimers {
  import opened Options
  import opened ByteOrder
  import opened ShredStore
  import opened Slots

  type Nonce = n: nat | n < 0x1_0000_0000
  type Port = n: nat | n < 0x1_0000

  const KEY_LENGTH: nat := 45

  /** What the response side observes: a source address or the identity of a peer. */
  datatype Route = Addr4(ip: seq<Byte>, port: Port) | Addr6(ip: seq<Byte>, port: Port) | Peer(identity: seq<Byte>)
  {
    predicate Proper()
    {
      match this
      case Addr4(ip, _) => |ip| == 4
      case Addr6(ip, _) => |ip| == 16
      case Peer(id) => |id| == 32
    }
  }

  function Zeros(n: nat): (s: seq<Byte>)
    ensures |s| == n
  {
    seq(n, _ => 0)
  }

  /** The route's bytes: a tag, then the address padded to the length of an identity. */
  function RouteBytes(r: Route): (s: seq<Byte>)
    requires r.Proper()
    ensures |s| == 33
  {
    match r
    case Addr4(ip, port) => [0] + (ip + Zeros(12)) + LittleEndian(port, 2) + Zeros(14)
    case Addr6(ip, port) => [0] + ip + LittleEndian(port, 2) + Zeros(14)
    case Peer(id) => [1] + id
  }

  function RepairKey(slot: Slot, nonce: Nonce, r: Route): (key: seq<Byte>)
    requires r.Proper()
    ensures |key| == KEY_LENGTH
  {
    SlotBytes(slot) + (LittleEndian(nonce, 4) + RouteBytes(r))
  }

  // ---- the keys of one slot are a range ------------------------------------------------

  lemma {:induction false} NothingBelowZeros(s: seq<Byte>, n: nat)
    requires |s| == n
    ensures !Less(s, Zeros(n))
    decreases n
  {
    if n > 0 {
      NothingBelowZeros(s[1..], n - 1);
      assert Zeros(n)[1..] == Zeros(n - 1);
    }
  }

  function SlotStart(slot: Slot): (key: seq<Byte>)
    ensures |key| == KEY_LENGTH
  {
    SlotBytes(slot) + Zeros(37)
  }

  /** The half-open range from the start of `slot` to the start of the slot after it. */
  predicate InRange(k: seq<Byte>, slot: Slot) { !Less(k, SlotStart(slot)) && Less(k, SlotStart(Successor(slot))) }

  lemma BelowStart(s: Slot, rest: seq<Byte>, slot: Slot)
    requires |rest| == 37
    ensures Less(SlotBytes(s) + rest, SlotStart(slot)) <==> s < slot
  {
    SlotBytesOrder(s, slot);
    LessOfParts(SlotBytes(s), SlotBytes(slot), rest, Zeros(37));
    NothingBelowZeros(rest, 37);
  }

  /** The range holds exactly the keys of the slot, except for the last slot, where it is
      empty because no slot follows. */
  lemma RangeExact(s: Slot, nonce: Nonce, r: Route, slot: Slot)
    requires r.Proper()
    ensures InRange(RepairKey(s, nonce, r), slot) <==> s == slot && slot < MAX_SLOT
  {
    var rest := LittleEndian(nonce, 4) + RouteBytes(r);
    BelowStart(s, rest, slot);
    BelowStart(s, rest, Successor(slot));
  }

  // ---- which requests share a key --------------------------------------------------------

  /** An IPv4 address fills the first four of sixteen bytes, and so may an IPv6 address. */
  predicate Overlaps(r: Route, q: Route)
  {
    r.Addr4? && q.Addr6? && q.ip == r.ip + Zeros(12) && r.port == q.port
  }

  lemma SplitsAlike(a: seq<Byte>, b: seq<Byte>, c: seq<Byte>, d: seq<Byte>)
    requires |a| == |b|
    ensures a + c == b + d <==> a == b && c == d
  {
    assert (a + c)[..|a|] == a && (a + c)[|a|..] == c;
    assert (b + d)[..|b|] == b && (b + d)[|b|..] == d;
  }

  /** The sixteen address bytes. */
  function Octets(r: Route): (s: seq<Byte>)
    requires r.Proper() && !r.Peer?
    ensures |s| == 16
  {
    if r.Addr4? then r.ip + Zeros(12) else r.ip
  }

  lemma AddressBytes(r: Route)
    requires r.Proper() && !r.Peer?
    ensures RouteBytes(r) == [0] + (Octets(r) + (LittleEndian(r.port, 2) + Zeros(14)))
  {
  }

  lemma SameAddress(r: Route, q: Route)
    requires r.Proper() && q.Proper() && !r.Peer? && !q.Peer?
    ensures RouteBytes(r) == RouteBytes(q) <==> Octets(r) == Octets(q) && r.port == q.port
  {
    AddressBytes(r);
    AddressBytes(q);
    Widths();
    LittleEndianInjective(r.port, q.port, 2);
    SplitsAlike([0], [0], Octets(r) + (LittleEndian(r.port, 2) + Zeros(14)),
      Octets(q) + (LittleEndian(q.port, 2) + Zeros(14)));
    SplitsAlike(Octets(r), Octets(q), LittleEndian(r.port, 2) + Zeros(14), LittleEndian(q.port, 2) + Zeros(14));
    SplitsAlike(LittleEndian(r.port, 2), LittleEndian(q.port, 2), Zeros(14), Zeros(14));
  }

  lemma SameRoute(r: Route, q: Route)
    requires r.Proper() && q.Proper()
    ensures RouteBytes(r) == RouteBytes(q) <==> r == q || Overlaps(r, q) || Overlaps(q, r)
  {
    if r.Peer? || q.Peer? {
      assert RouteBytes(r)[0] == (if r.Peer? then 1 else 0) && RouteBytes(q)[0] == (if q.Peer? then 1 else 0);
      if r.Peer? && q.Peer? {
        SplitsAlike([1], [1], r.identity, q.identity);
      }
    } else {
      SameAddress(r, q);
      if r.Addr4? && q.Addr4? {
        SplitsAlike(r.ip, q.ip, Zeros(12), Zeros(12));
      }
    }
  }

  /** Two requests share a key exactly if they agree in slot, nonce and route, where an
      IPv4 route also passes for the IPv6 route that pads it with zeros. */
  lemma SameKeyIff(s: Slot, m: Nonce, r: Route, t: Slot, n: Nonce, q: Route)
    requires r.Proper() && q.Proper()
    ensures RepairKey(s, m, r) == RepairKey(t, n, q) <==>
              s == t && m == n && (r == q || Overlaps(r, q) || Overlaps(q, r))
  {
    Widths();
    SlotBytesOrder(s, t);
    LittleEndianInjective(m, n, 4);
    SameRoute(r, q);
    SplitsAlike(SlotBytes(s), SlotBytes(t), LittleEndian(m, 4) + RouteBytes(r), LittleEndian(n, 4) + RouteBytes(q));
    SplitsAlike(LittleEndian(m, 4), LittleEndian(n, 4), RouteBytes(r), RouteBytes(q));
  }

  /** The witness: an IPv4 route and the IPv6 route with the same bytes are different, but the
      request to one passes for the request to the other. */
  lemma SharedKey(s: Slot, n: Nonce, ip: seq<Byte>, port: Port)
    requires |ip| == 4
    ensures var r, q := Addr4(ip, port), Addr6(ip + Zeros(12), port);
            r.Proper() && q.Proper() && r != q && RepairKey(s, n, r) == RepairKey(s, n, q)
  {
    SameKeyIff(s, n, Addr4(ip, port), s, n, Addr6(ip + Zeros(12), port));
  }

  // ---- the key, filled in place ------------------------------------------------------------

  /** Copy `part` in after `done`, where only zeros stand. */
  method CopyAfter(bytes: array<Byte>, from: nat, part: seq<Byte>, ghost done: seq<Byte>)
    requires |done| == from && from + |part| <= bytes.Length && bytes[..] == done + Zeros(bytes.Length - from)
    modifies bytes
    ensures bytes[..] == done + part + Zeros(bytes.Length - from - |part|)
  {
    forall i | 0 <= i < |part| {
      bytes[from + i] := part[i];
    }
  }

  lemma ZerosSplit(a: seq<Byte>, m: nat, n: nat)
    ensures a + Zeros(m + n) == a + Zeros(m) + Zeros(n)
  {
  }

  method FillAddress(bytes: array<Byte>, ghost head: seq<Byte>, ip: seq<Byte>, port: seq<Byte>)
    requires |head| == 12 && |ip| <= 16 && |port| == 2 && bytes.Length == KEY_LENGTH && bytes[..] == head + Zeros(33)
    modifies bytes
    ensures bytes[..] == head + [0] + (ip + Zeros(16 - |ip|)) + port + Zeros(14)
  {
    CopyAfter(bytes, 12, [0], head);
    CopyAfter(bytes, 13, ip, head + [0]);
    ghost var tagged := head + [0];
    ZerosSplit(tagged + ip, 16 - |ip|, 16);
    assert tagged + ip + Zeros(16 - |ip|) == tagged + (ip + Zeros(16 - |ip|));
    CopyAfter(bytes, 29, port, tagged + (ip + Zeros(16 - |ip|)));
  }

  method FillPeer(bytes: array<Byte>, ghost head: seq<Byte>, identity: seq<Byte>)
    requires |head| == 12 && |identity| == 32 && bytes.Length == KEY_LENGTH && bytes[..] == head + Zeros(33)
    modifies bytes
    ensures bytes[..] == head + [1] + identity
  {
    CopyAfter(bytes, 12, [1], head);
    CopyAfter(bytes, 13, identity, head + [1]);
  }

  method FillHead(bytes: array<Byte>, slot: seq<Byte>, nonce: seq<Byte>)
    requires |slot| == 8 && |nonce| == 4 && bytes.Length == KEY_LENGTH && bytes[..] == Zeros(KEY_LENGTH)
    modifies bytes
    ensures bytes[..] == slot + nonce + Zeros(33)
  {
    assert bytes[..] == [] + Zeros(KEY_LENGTH);
    CopyAfter(bytes, 0, slot, []);
    assert [] + slot == slot;
    CopyAfter(bytes, 8, nonce, slot);
  }

  lemma KeyParts(s: seq<Byte>, n: seq<Byte>, tag: seq<Byte>, a: seq<Byte>, p: seq<Byte>, z: seq<Byte>)
    ensures s + n + tag + a + p + z == s + (n + (tag + a + p + z))
    ensures s + n + tag + a == s + (n + (tag + a))
  {
  }

  /** The route's bytes, one by one: a tag, and the identity, or the address and its port with
      the low byte first. */
  ghost predicate RouteLayout(b: seq<Byte>, r: Route)
  {
    && |b| == 33
    && match r
       case Addr4(ip, port) =>
         && b[0] == 0 && b[1..5] == ip && (forall i | 5 <= i < 17 || 19 <= i < 33 :: b[i] == 0)
         && b[17] == port % 256 && b[18] == port / 256
       case Addr6(ip, port) =>
         && b[0] == 0 && b[1..17] == ip && (forall i | 19 <= i < 33 :: b[i] == 0)
         && b[17] == port % 256 && b[18] == port / 256
       case Peer(id) => b[0] == 1 && b[1..] == id
  }

  /** The key's bytes: the slot with its high byte first, the nonce with its low byte first,
      and the route. */
  ghost predicate Layout(key: seq<Byte>, slot: Slot, nonce: Nonce, r: Route)
  {
    && |key| == 45 && Value(key[..8]) == slot
    && key[8..12] == [nonce % 256, nonce / 256 % 256, nonce / 256 / 256 % 256, nonce / 256 / 256 / 256]
    && RouteLayout(key[12..], r)
  }

  lemma NonceBytes(n: Nonce)
    ensures LittleEndian(n, 4) == [n % 256, n / 256 % 256, n / 256 / 256 % 256, n / 256 / 256 / 256]
  {
    var a, b, c := n / 256, n / 256 / 256, n / 256 / 256 / 256;
    assert LittleEndian(c, 1) == [c % 256] + LittleEndian(c / 256, 0);
    assert LittleEndian(b, 2) == [b % 256] + LittleEndian(c, 1);
    assert LittleEndian(a, 3) == [a % 256] + LittleEndian(b, 2);
  }

  lemma PortBytes(port: Port)
    ensures LittleEndian(port, 2) == [port % 256, port / 256]
  {
    assert LittleEndian(port / 256, 1) == [port / 256 % 256] + LittleEndian(port / 256 / 256, 0);
  }

  lemma Addr4Layout(ip: seq<Byte>, port: Port)
    requires |ip| == 4
    ensures RouteLayout(RouteBytes(Addr4(ip, port)), Addr4(ip, port))
  {
    PortBytes(port);
    assert RouteBytes(Addr4(ip, port))[1..5] == ip;
  }

  lemma Addr6Layout(ip: seq<Byte>, port: Port)
    requires |ip| == 16
    ensures RouteLayout(RouteBytes(Addr6(ip, port)), Addr6(ip, port))
  {
    PortBytes(port);
    assert RouteBytes(Addr6(ip, port))[1..17] == ip;
  }

  lemma KeyLayout(slot: Slot, nonce: Nonce, r: Route)
    requires r.Proper()
    ensures Layout(RepairKey(slot, nonce, r), slot, nonce, r)
  {
    match r {
      case Addr4(ip, port) => Addr4Layout(ip, port);
      case Addr6(ip, port) => Addr6Layout(ip, port);
      case Peer(id) => assert RouteBytes(r)[1..] == id;
    }
    var key := RepairKey(slot, nonce, r);
    Widths();
    NonceBytes(nonce);
    BigEndianRoundTrip(slot, 8);
    assert key[..8] == SlotBytes(slot) && key[8..12] == LittleEndian(nonce, 4) && key[12..] == RouteBytes(r);
  }

  method BuildKey(slot: Slot, nonce: Nonce, r: Route) returns (bytes: array<Byte>)
    requires r.Proper()
    ensures fresh(bytes) && bytes[..] == RepairKey(slot, nonce, r)
    ensures Layout(bytes[..], slot, nonce, r)
  {
    KeyLayout(slot, nonce, r);
    bytes := new Byte[KEY_LENGTH](_ => 0);
    var s, n := SlotBytes(slot), LittleEndian(nonce, 4);
    FillHead(bytes, s, n);
    match r {
      case Addr4(ip, port) =>
        var p := LittleEndian(port, 2);
        FillAddress(bytes, s + n, ip, p);
        KeyParts(s, n, [0], ip + Zeros(12), p, Zeros(14));
      case Addr6(ip, port) =>
        var p := LittleEndian(port, 2);
        FillAddress(bytes, s + n, ip, p);
        assert ip + Zeros(0) == ip;
        KeyParts(s, n, [0], ip, p, Zeros(14));
      case Peer(id) =>
        FillPeer(bytes, s + n, id);
        KeyParts(s, n, [1], id, [], []);
    }
  }

  // ---- the store ----------------------------------------------------------------------------

  /** An outstanding request; `rest` stands for its kind, shred index and time. */
  datatype Request = Request(slot: Slot, nonce: Nonce, route: Route, rest: nat)

  predicate Keyed(k: seq<Byte>, q: Request) { q.route.Proper() && k == RepairKey(q.slot, q.nonce, q.route) }

  lemma KeyedInRange(k: seq<Byte>, q: Request, slot: Slot)
    requires Keyed(k, q)
    ensures InRange(k, slot) <==> q.slot == slot && slot < MAX_SLOT
  {
    RangeExact(q.slot, q.nonce, q.route, slot);
  }

  /** The keys that a range query for the slot finds. */
  function Found(table: map<seq<Byte>, Request>, slot: Slot): (r: set<seq<Byte>>)
  {
    set k | k in table && InRange(k, slot)
  }

  /** A range query finds exactly the slot's requests; for the last slot, none. */
  lemma FoundExact(table: map<seq<Byte>, Request>, slot: Slot)
    requires forall k | k in table :: Keyed(k, table[k])
    ensures Found(table, slot) == set k | k in table && table[k].slot == slot && slot < MAX_SLOT
  {
    forall k | k in table
      ensures InRange(k, slot) <==> table[k].slot == slot && slot < MAX_SLOT
    {
      KeyedInRange(k, table[k], slot);
    }
  }

  class TimerStore {
    var table: map<seq<Byte>, Request>

    /** Every request stands under its own key. */
    ghost predicate Valid()
      reads this
    {
      forall k | k in table :: Keyed(k, table[k])
    }

    constructor ()
      ensures Valid() && table == map[]
    {
      table := map[];
    }

    method Insert(q: Request)
      requires Valid() && q.route.Proper()
      modifies this
      ensures Valid() && table == old(table)[RepairKey(q.slot, q.nonce, q.route) := q]
    {
      var k := RepairKey(q.slot, q.nonce, q.route);
      assert Keyed(k, q);
      table := table[k := q];
    }

    method Remove(slot: Slot, nonce: Nonce, route: Route) returns (found: Option<Request>)
      requires Valid() && route.Proper()
      modifies this
      ensures var k := RepairKey(slot, nonce, route);
              && Valid() && table == old(table) - {k}
              && found == if k in old(table) then Some(old(table)[k]) else None
      ensures found.Some? ==> found.value.slot == slot && found.value.nonce == nonce
    {
      var k := RepairKey(slot, nonce, route);
      if k !in table {
        assert table == table - {k};
        return None;
      }
      var q := table[k];
      SameKeyIff(slot, nonce, route, q.slot, q.nonce, q.route);
      table := table - {k};
      assert k in old(table) && k !in table;
      return Some(q);
    }

    /** Whether the slot has an outstanding request; never so for the last slot. */
    method Contains(slot: Slot) returns (some: bool)
      requires Valid()
      ensures some <==> slot < MAX_SLOT && exists k :: k in table && table[k].slot == slot
    {
      FoundExact(table, slot);
      var found := Found(table, slot);
      some := found != {};
      if some {
        ghost var k :| k in found;
      } else {
        forall k | k in table && slot < MAX_SLOT
          ensures table[k].slot != slot
        {
          assert k !in found;
        }
      }
    }

    /** Drop the slot's requests, and no others; for the last slot, none at all. */
    method RemoveSlot(slot: Slot)
      requires Valid()
      modifies this
      ensures Valid()
      ensures table == if slot == MAX_SLOT then old(table)
                       else map k | k in old(table) && old(table)[k].slot != slot :: old(table)[k]
    {
      FoundExact(table, slot);
      table := table - Found(table, slot);
    }
  }
}
