/** The TCP layer of the kernel: the connection table, what a packet does to it, and the stream two
    connections carry over a network that loses, repeats and reorders segments. */
module Tcp {
  import opened Checksum

  const BUFFER_SIZE: nat := 1024
  const NET_MTU: nat := 1518
  const MAX_CONNECTIONS: nat := 8

  datatype TcpState = Closed | SynSent | SynRecv | Established | FinWait1 | FinWait2 | LastAck

  /** A connection block; `buf` is what `rcv_buf` holds up to `rcv_len`. */
  datatype Conn = Conn(used: bool, state: TcpState, remoteIp: Word32, localPort: Word16, remotePort: Word16,
                       sndNxt: Word32, sndUna: Word32, rcvNxt: Word32, buf: seq<Byte>)

  function Plus(x: Word32, n: nat): Word32 { (x + n) % 0x1_0000_0000 }

  predicate Has(flags: Byte, bit: nat)
    requires bit >= 1
  {
    flags / bit % 2 == 1
  }

  function Make(c: Conn, flags: Byte, data: seq<Byte>): Segment {
    Segment(c.localPort, c.remotePort, c.sndNxt, c.rcvNxt, flags, BUFFER_SIZE, data)
  }

  /** Whether the connection was the one addressed, what becomes of it, and what it answers. */
  datatype Reaction = Reaction(handled: bool, c: Conn, out: seq<Segment>)

  predicate FromPeer(c: Conn, ip: Word32, s: Segment) {
    c.remoteIp == ip && c.remotePort == s.srcPort && c.localPort == s.dstPort
  }

  /** One connection's turn in the loop over the table; `isn` is the next initial sequence number. */
  function OnPacket(c: Conn, ip: Word32, s: Segment, isn: Word32): Reaction {
    if !c.used then Reaction(false, c, [])
    else if c.state.SynSent? && FromPeer(c, ip, s) && Has(s.flags, SYN) && Has(s.flags, ACK) then
      var c1 := c.(rcvNxt := Plus(s.seqNo, 1), sndUna := s.ackNo, state := Established);
      Reaction(true, c1, [Make(c1, ACK, [])])
    else if c.state.SynRecv? && c.localPort == s.dstPort && Has(s.flags, SYN) && !Has(s.flags, ACK) then
      var c1 := c.(remoteIp := ip, remotePort := s.srcPort, rcvNxt := Plus(s.seqNo, 1), sndNxt := isn, sndUna := isn);
      Reaction(true, c1.(sndNxt := Plus(isn, 1), state := Established), [Make(c1, SYN + ACK, [])])
    else if c.state.Established? && FromPeer(c, ip, s) then
      var c1 := TakeAck(c, s);
      var c2 := TakeData(c1, s);
      var acks := if Wanted(c1, s) then [Make(c2, ACK, [])] else [];
      if !Has(s.flags, FIN) then Reaction(true, c2, acks)
      else
        var c3 := c2.(rcvNxt := Plus(c2.rcvNxt, 1));
        Reaction(true, c3.(sndNxt := Plus(c3.sndNxt, 1), state := LastAck),
                 acks + [Make(c3, ACK, []), Make(c3, FIN + ACK, [])])
    else if c.state.LastAck? && c.remoteIp == ip && Has(s.flags, ACK) then
      Reaction(true, c.(state := Closed, used := false), [])
    else if c.state.FinWait1? && c.remoteIp == ip && Has(s.flags, ACK) then
      if Has(s.flags, FIN) then
        var c1 := c.(rcvNxt := Plus(c.rcvNxt, 1));
        Reaction(true, c1.(state := Closed, used := false), [Make(c1, ACK, [])])
      else Reaction(true, c.(state := FinWait2), [])
    else Reaction(false, c, [])
  }

  function TakeAck(c: Conn, s: Segment): Conn {
    if Has(s.flags, ACK) && s.ackNo > c.sndUna then c.(sndUna := s.ackNo) else c
  }

  /** Only the segment that starts exactly at the next expected byte is taken. */
  predicate Wanted(c: Conn, s: Segment) { s.data != [] && s.seqNo == c.rcvNxt }

  function TakeData(c: Conn, s: Segment): Conn {
    if !Wanted(c, s) then c
    else
      var space := if |c.buf| < BUFFER_SIZE then BUFFER_SIZE - |c.buf| else 0;
      var copy := if |s.data| < space then |s.data| else space;
      c.(buf := c.buf + s.data[..copy], rcvNxt := Plus(c.rcvNxt, copy))
  }

  // ----- sending -----

  const CHUNK: nat := NET_MTU - 20 - 20
  const IP_LIMIT: nat := NET_MTU - 14 - 20

  /** `ip_send` refuses a payload that does not fit in a frame; the interface is taken to be up. */
  predicate Sendable(chunk: nat) { 20 + chunk <= IP_LIMIT }

  function ChunkAt(left: nat): nat { if left > CHUNK then CHUNK else left }

  /** How many of `len` bytes the loop in `tcp_send` gets out, `sent` of them already. */
  function SentBytes(len: nat, sent: nat): (r: nat)
    requires sent <= len
    ensures sent <= r <= len
    decreases len - sent
  {
    if sent == len || !Sendable(ChunkAt(len - sent)) then sent else SentBytes(len, sent + ChunkAt(len - sent))
  }

  /** The chunk size leaves no room for the Ethernet header, so a message is sent whole exactly when
      it fits in 1464 bytes; of a longer one nothing is sent at all. */
  lemma SendExact(len: nat)
    ensures SentBytes(len, 0) == len <==> len <= 1464
    ensures SentBytes(len, 0) == if len <= 1464 then len else 0
  {
  }

  // ----- the table -----

  /** The first connection that handles the packet. */
  function Handler(conns: seq<Conn>, ip: Word32, s: Segment, isn: Word32, i: nat): (k: nat)
    requires i <= |conns|
    ensures i <= k <= |conns|
    ensures k < |conns| ==> OnPacket(conns[k], ip, s, isn).handled
    ensures forall j :: i <= j < k ==> !OnPacket(conns[j], ip, s, isn).handled
    decreases |conns| - i
  {
    if i == |conns| || OnPacket(conns[i], ip, s, isn).handled then i else Handler(conns, ip, s, isn, i + 1)
  }

  class TcpLayer {
    var conns: seq<Conn>
    var out: seq<Segment>

    constructor ()
      ensures |conns| == MAX_CONNECTIONS && out == [] && forall i :: 0 <= i < |conns| ==> !conns[i].used
    {
      conns := seq(MAX_CONNECTIONS, i => Conn(false, Closed, 0, 0, 0, 0, 0, 0, []));
      out := [];
    }

    method AllocConn() returns (i: nat)
      ensures i <= |conns| && (i < |conns| ==> !conns[i].used)
      ensures forall j :: 0 <= j < i ==> conns[j].used
    {
      i := 0;
      while i < |conns|
        invariant 0 <= i <= |conns| && forall j :: 0 <= j < i ==> conns[j].used
      {
        if !conns[i].used { return; }
        i := i + 1;
      }
    }

    method Connect(ip: Word32, dstPort: Word16, srcPort: Word16, isn: Word32) returns (id: int)
      modifies this
      ensures id == -1 ==> conns == old(conns) && out == old(out) && forall j :: 0 <= j < |conns| ==> conns[j].used
      ensures id != -1 ==>
                0 <= id < |conns| == |old(conns)| && !old(conns)[id].used &&
                var c := Conn(true, SynSent, ip, srcPort, dstPort, isn, isn, 0, []);
                conns == old(conns)[id := c.(sndNxt := Plus(isn, 1))] && out == old(out) + [Make(c, SYN, [])]
    {
      var i := AllocConn();
      if i == |conns| { return -1; }
      var c := Conn(true, SynSent, ip, srcPort, dstPort, isn, isn, 0, []);
      out := out + [Make(c, SYN, [])];
      conns := conns[i := c.(sndNxt := Plus(isn, 1))];
      return i;
    }

    method Listen(port: Word16) returns (id: int)
      modifies this
      ensures id == -1 ==> conns == old(conns)
      ensures id != -1 ==>
                0 <= id < |conns| == |old(conns)| && !old(conns)[id].used &&
                conns == old(conns)[id := Conn(true, SynRecv, 0, port, 0, 0, 0, 0, [])]
      ensures out == old(out)
    {
      var i := AllocConn();
      if i == |conns| { return -1; }
      conns := conns[i := Conn(true, SynRecv, 0, port, 0, 0, 0, 0, [])];
      return i;
    }

    /** Chunk by chunk until one is refused. */
    method Send(id: nat, data: seq<Byte>) returns (sent: int)
      requires id < |conns|
      modifies this
      ensures |conns| == |old(conns)| && forall j :: 0 <= j < |conns| && j != id ==> conns[j] == old(conns)[j]
      ensures var c := old(conns)[id];
              if !c.used || !c.state.Established? then sent == -1 && conns == old(conns) && out == old(out)
              else sent == SentBytes(|data|, 0) && conns[id] == c.(sndNxt := Plus(c.sndNxt, sent)) &&
                   out == old(out) + Chunks(c, data, 0)
    {
      hide Chunks, SentBytes, Make, Sendable, Plus;
      var c := conns[id];
      if !c.used || !c.state.Established? { return -1; }
      sent := 0;
      PlusZero(c.sndNxt);
      while sent < |data|
        invariant 0 <= sent <= |data| && SentBytes(|data|, sent) == SentBytes(|data|, 0)
        invariant |conns| == |old(conns)| && forall j :: 0 <= j < |conns| && j != id ==> conns[j] == old(conns)[j]
        invariant conns[id] == c.(sndNxt := Plus(c.sndNxt, sent))
        invariant out + Chunks(c, data, sent) == old(out) + Chunks(c, data, 0)
      {
        var chunk := ChunkAt(|data| - sent);
        SendStep(c, data, sent);
        if !Sendable(chunk) { break; }
        PlusPlus(c.sndNxt, sent, chunk);
        out := out + [Make(conns[id], ACK + PSH, data[sent..sent + chunk])];
        conns := conns[id := conns[id].(sndNxt := Plus(conns[id].sndNxt, chunk))];
        sent := sent + chunk;
      }
      SendStep(c, data, sent);
    }

    method Recv(id: nat, max: nat) returns (bytes: seq<Byte>)
      requires id < |conns|
      modifies this`conns
      ensures |conns| == |old(conns)| && forall j :: 0 <= j < |conns| && j != id ==> conns[j] == old(conns)[j]
      ensures var c := old(conns)[id];
              if c.used then bytes + conns[id].buf == c.buf && conns[id] == c.(buf := conns[id].buf) &&
                             |bytes| == if max < |c.buf| then max else |c.buf|
              else bytes == [] && conns == old(conns)
    {
      var c := conns[id];
      if !c.used || c.buf == [] { return []; }
      var copy := if max < |c.buf| then max else |c.buf|;
      bytes := c.buf[..copy];
      conns := conns[id := c.(buf := c.buf[copy..])];
    }

    method Close(id: nat)
      requires id < |conns|
      modifies this
      ensures |conns| == |old(conns)| && forall j :: 0 <= j < |conns| && j != id ==> conns[j] == old(conns)[j]
      ensures conns[id] == Closing(old(conns)[id]).c && out == old(out) + Closing(old(conns)[id]).out
    {
      var c := conns[id];
      if !c.used { return; }
      if c.state.Established? {
        out := out + [Make(c, FIN + ACK, [])];
        conns := conns[id := c.(sndNxt := Plus(c.sndNxt, 1), state := FinWait1)];
      } else {
        conns := conns[id := c.(state := Closed, used := false)];
      }
    }

    /** The search through the table for the connection a packet belongs to. */
    method Poll(ip: Word32, s: Segment, isn: Word32)
      modifies this
      ensures var k := Handler(old(conns), ip, s, isn, 0);
              if k == |old(conns)| then conns == old(conns) && out == old(out)
              else var r := OnPacket(old(conns)[k], ip, s, isn);
                   conns == old(conns)[k := r.c] && out == old(out) + r.out
    {
      var i := 0;
      while i < |conns|
        invariant 0 <= i <= |conns| && conns == old(conns) && out == old(out)
        invariant Handler(conns, ip, s, isn, i) == Handler(conns, ip, s, isn, 0)
      {
        var r := OnPacket(conns[i], ip, s, isn);
        if r.handled {
          conns := conns[i := r.c];
          out := out + r.out;
          return;
        }
        i := i + 1;
      }
    }
  }

  /** What closing does: a FIN from an established connection, otherwise the slot is given back. */
  function Closing(c: Conn): Reaction {
    if !c.used then Reaction(false, c, [])
    else if c.state.Established? then
      Reaction(true, c.(sndNxt := Plus(c.sndNxt, 1), state := FinWait1), [Make(c, FIN + ACK, [])])
    else Reaction(true, c.(state := Closed, used := false), [])
  }

  /** The segments of a message, from byte `sent` on. */
  function Chunks(c: Conn, data: seq<Byte>, sent: nat): seq<Segment>
    requires sent <= |data|
    decreases |data| - sent
  {
    if sent == |data| || !Sendable(ChunkAt(|data| - sent)) then []
    else
      var next := sent + ChunkAt(|data| - sent);
      [Make(c.(sndNxt := Plus(c.sndNxt, sent)), ACK + PSH, data[sent..next])] + Chunks(c, data, next)
  }

  lemma SendStep(c: Conn, data: seq<Byte>, sent: nat)
    requires sent <= |data|
    ensures var chunk := ChunkAt(|data| - sent);
            if sent == |data| || !Sendable(chunk) then SentBytes(|data|, sent) == sent && Chunks(c, data, sent) == []
            else
              SentBytes(|data|, sent) == SentBytes(|data|, sent + chunk) &&
              Chunks(c, data, sent) == [Make(c.(sndNxt := Plus(c.sndNxt, sent)), ACK + PSH, data[sent..sent + chunk])]
                                       + Chunks(c, data, sent + chunk)
  {
  }

  /** A FIN closes an established connection whatever its sequence number, and from then on no data
      is taken: bytes of the peer that had not arrived before it are lost. */
  lemma FinAnywhere(c: Conn, ip: Word32, s: Segment, isn: Word32, s2: Segment)
    requires c.used && c.state.Established? && FromPeer(c, ip, s)
    ensures OnPacket(c, ip, s, isn).c.state == if Has(s.flags, FIN) then LastAck else Established
    ensures Has(s.flags, FIN) ==>
              var d := OnPacket(c, ip, s, isn).c;
              d.buf == TakeData(TakeAck(c, s), s).buf && OnPacket(d, ip, s2, isn).c.buf == d.buf
  {
    hide Has, Plus;
  }

  /** An established connection takes the segment that starts at the next expected byte, as far as its buffer
      has room, and acknowledges what it took; out of place, a segment changes nothing of either. */
  lemma TakesNext(c: Conn, ip: Word32, s: Segment, isn: Word32)
    requires c.used && c.state.Established? && FromPeer(c, ip, s) && |c.buf| <= 1024
    ensures var r := OnPacket(c, ip, s, isn);
            var room := 1024 - |c.buf|;
            var n := if |s.data| < room then |s.data| else room;
            r.handled && r.c.used &&
            r.c.sndUna == (if Has(s.flags, ACK) && s.ackNo > c.sndUna then s.ackNo else c.sndUna) &&
            if s.seqNo == c.rcvNxt && s.data != [] then
              r.c.buf == c.buf + s.data[..n] && |r.out| >= 1 && r.out[0].data == [] && r.out[0].flags == 16 &&
              r.out[0].ackNo == (c.rcvNxt + n) % 0x1_0000_0000 && r.out[0].seqNo == c.sndNxt &&
              (!Has(s.flags, FIN) ==> r.c.rcvNxt == (c.rcvNxt + n) % 0x1_0000_0000 && |r.out| == 1)
            else r.c.buf == c.buf && (!Has(s.flags, FIN) ==> r.c.rcvNxt == c.rcvNxt && r.out == [])
  {
    hide Has;
  }

  /** The packet is for a connection in use that waits for a SYN on the port, or for the peer's answer to its own,
      or that has the peer's address and ports, or is closing and has the peer's address. */
  lemma HandledExact(c: Conn, ip: Word32, s: Segment, isn: Word32)
    ensures OnPacket(c, ip, s, isn).handled
       <==> c.used &&
            ((c.state.SynRecv? && c.localPort == s.dstPort && Has(s.flags, SYN) && !Has(s.flags, ACK)) ||
             (c.state.SynSent? && FromPeer(c, ip, s) && Has(s.flags, SYN) && Has(s.flags, ACK)) ||
             (c.state.Established? && FromPeer(c, ip, s)) ||
             ((c.state.LastAck? || c.state.FinWait1?) && c.remoteIp == ip && Has(s.flags, ACK)))
    ensures !OnPacket(c, ip, s, isn).handled ==> OnPacket(c, ip, s, isn) == Reaction(false, c, [])
  {
    hide Has;
  }

  /** A FIN counts as one byte.  It is acknowledged and answered by a FIN of the connection's own, which counts as
      one byte too. */
  lemma FinAnswered(c: Conn, ip: Word32, s: Segment, isn: Word32)
    requires c.used && c.state.Established? && FromPeer(c, ip, s) && Has(s.flags, FIN) && s.seqNo != c.rcvNxt
    ensures var r := OnPacket(c, ip, s, isn);
            var next := (c.rcvNxt + 1) % 0x1_0000_0000;
            r.c.rcvNxt == next && r.c.sndNxt == (c.sndNxt + 1) % 0x1_0000_0000 && |r.out| == 2 &&
            r.out[0].flags == 16 && r.out[1].flags == 17 &&
            forall k :: 0 <= k < 2 ==> r.out[k].ackNo == next && r.out[k].seqNo == c.sndNxt && r.out[k].data == []
  {
    hide Has;
  }

  /** The end that closes first waits for an acknowledgement.  If that is the peer's FIN, the slot is given back;
      if it is an acknowledgement alone, which the peer sends first, the connection waits in `FinWait2` and no
      packet is for it any more. */
  lemma FirstToClose(c: Conn, ip: Word32, s: Segment, isn: Word32, s2: Segment)
    requires c.used && c.state.FinWait1? && c.remoteIp == ip && Has(s.flags, ACK)
    ensures OnPacket(c, ip, s, isn).c.used <==> !Has(s.flags, FIN)
    ensures var d := OnPacket(c, ip, s, isn).c;
            d.used ==> d.state.FinWait2? && OnPacket(d, ip, s2, isn) == Reaction(false, d, [])
  {
    hide Has;
  }

  // ----- two ends and a network -----

  /** End 0 connects, end 1 listens.  `net[e]` is everything `e` has ever sent: a delivery takes any
      member, any number of times, or never.  `sent` and `got` record the bytes counted into
      `snd_nxt` and the bytes returned by `tcp_recv`. */
  datatype World = World(conn: seq<Conn>, net: seq<set<Segment>>, sent: seq<seq<Byte>>, got: seq<seq<Byte>>,
                         iss: seq<Word32>, ip: seq<Word32>, port: seq<Word16>)

  datatype Action =
    | Transmit(e: nat, chunk: seq<Byte>) | Deliver(e: nat, s: Segment) | Read(e: nat, max: nat) | Shut(e: nat)

  function Peer(e: nat): (p: nat)
    requires e < 2
    ensures p < 2 && p != e && (p < 1 ==> e == 1)
  {
    1 - e
  }

  predicate Pairs(w: World) {
    |w.conn| == 2 && |w.net| == 2 && |w.sent| == 2 && |w.got| == 2 && |w.iss| == 2 && |w.ip| == 2 && |w.port| == 2
  }

  function ToSet(out: seq<Segment>): set<Segment> { set k | 0 <= k < |out| :: out[k] }

  /** Applying a reaction at end `e`. */
  function React(w: World, e: nat, r: Reaction): World
    requires Pairs(w) && e < 2
  {
    w.(conn := w.conn[e := r.c], net := w.net[e := w.net[e] + ToSet(r.out)])
  }

  function Step(w: World, a: Action): (w2: World)
    requires Pairs(w)
    ensures Pairs(w2)
  {
    if a.e >= 2 then w
    else
      var c := w.conn[a.e];
      match a
      case Transmit(e, chunk) =>
        if !c.used || !c.state.Established? || chunk == [] then w
        else React(w, e, Reaction(true, c.(sndNxt := Plus(c.sndNxt, |chunk|)), [Make(c, ACK + PSH, chunk)]))
             .(sent := w.sent[e := w.sent[e] + chunk])
      case Deliver(e, s) =>
        if s !in w.net[Peer(e)] then w else React(w, e, OnPacket(c, w.ip[Peer(e)], s, w.iss[e]))
      case Read(e, max) =>
        if !c.used then w
        else
          var copy := if max < |c.buf| then max else |c.buf|;
          w.(conn := w.conn[e := c.(buf := c.buf[copy..])], got := w.got[e := w.got[e] + c.buf[..copy]])
      case Shut(e) => React(w, e, Closing(c))
  }

  function Run(w: World, actions: seq<Action>): (w2: World)
    requires Pairs(w)
    ensures Pairs(w2)
    decreases |actions|
  {
    if actions == [] then w else Run(Step(w, actions[0]), actions[1..])
  }

  /** After `tcp_connect` at end 0 and `tcp_listen` at end 1. */
  function Initial(iss: seq<Word32>, ip: seq<Word32>, port: seq<Word16>): World
    requires |iss| == 2 && |ip| == 2 && |port| == 2
  {
    var c := Conn(true, SynSent, ip[1], port[0], port[1], iss[0], iss[0], 0, []);
    World([c.(sndNxt := Plus(iss[0], 1)), Conn(true, SynRecv, 0, port[1], 0, 0, 0, 0, [])],
          [{Make(c, SYN, [])}, {}], [[], []], [[], []], iss, ip, port)
  }

  // ----- what every step keeps -----

  /** A segment of end `e`: a SYN at the initial number, or data at its place in the stream. */
  ghost predicate Honest(w: World, e: nat, s: Segment)
    requires Pairs(w) && e < 2
  {
    (Has(s.flags, SYN) ==> s.seqNo == w.iss[e] && s.data == []) &&
    (s.data != [] ==> exists off: nat :: Piece(w, e, s, off))
  }

  predicate Piece(w: World, e: nat, s: Segment, off: nat)
    requires Pairs(w) && e < 2
  {
    off + |s.data| <= |w.sent[e]| && s.data == w.sent[e][off..off + |s.data|] && s.seqNo == Plus(w.iss[e], 1 + off)
  }

  /** What the receiver has: the bytes handed out and the bytes buffered. */
  function Received(w: World, e: nat): seq<Byte>
    requires Pairs(w) && e < 2
  {
    w.got[e] + w.conn[e].buf
  }

  /** One direction, from end `Peer(e)` to end `e`. */
  ghost predicate Stream(w: World, e: nat)
    requires Pairs(w) && e < 2
  {
    Received(w, e) <= w.sent[Peer(e)] && |w.conn[e].buf| <= BUFFER_SIZE &&
    (forall s :: s in w.net[Peer(e)] ==> Honest(w, Peer(e), s)) &&
    (w.conn[Peer(e)].state.Established? ==> w.conn[Peer(e)].sndNxt == Plus(w.iss[Peer(e)], 1 + |w.sent[Peer(e)]|)) &&
    (w.conn[e].state.Established? ==> w.conn[e].rcvNxt == Plus(w.iss[Peer(e)], 1 + |Received(w, e)|)) &&
    (w.conn[e].state.SynSent? || w.conn[e].state.SynRecv? ==> Received(w, e) == []) &&
    (w.conn[Peer(e)].state.SynSent? || w.conn[Peer(e)].state.SynRecv? ==> w.sent[Peer(e)] == []) &&
    (w.conn[e].state.SynSent? ==> e == 0 && w.conn[e].sndNxt == Plus(w.iss[e], 1)) &&
    (w.conn[e].state.SynRecv? ==> e == 1)
  }

  ghost predicate Sound(w: World) { Pairs(w) && Stream(w, 0) && Stream(w, 1) }

  /** The streams stay below 2^32 bytes, so that sequence numbers name one place each. */
  predicate Short(w: World)
    requires Pairs(w)
  {
    |w.sent[0]| < 0xFFFF_FFFF && |w.sent[1]| < 0xFFFF_FFFF
  }

  lemma PlusUnique(x: Word32, a: nat, b: nat)
    requires a < 0x1_0000_0000 && b < 0x1_0000_0000 && Plus(x, a) == Plus(x, b)
    ensures a == b
  {
  }

  lemma PlusZero(x: Word32)
    ensures Plus(x, 0) == x
  {
  }

  lemma PlusPlus(x: Word32, a: nat, b: nat)
    ensures Plus(Plus(x, a), b) == Plus(x, a + b)
  {
  }

  lemma FlagValues()
    ensures !Has(ACK, SYN) && !Has(ACK + PSH, SYN) && !Has(FIN + ACK, SYN) && Has(SYN, SYN) && Has(SYN + ACK, SYN)
  {
  }

  /** A segment that carries nothing and opens nothing says nothing about the stream. */
  predicate Bare(s: Segment) { s.data == [] && !Has(s.flags, SYN) }

  lemma HonestGrows(w: World, w2: World, e: nat, s: Segment)
    requires Pairs(w) && Pairs(w2) && e < 2 && w2.iss == w.iss && w.sent[e] <= w2.sent[e] && Honest(w, e, s)
    ensures Honest(w2, e, s)
  {
    if s.data != [] {
      var off: nat :| Piece(w, e, s, off);
      assert Piece(w2, e, s, off);
    }
  }

  /** What a step has to show for one direction: honest new segments, and the two ends in step. */
  lemma StreamKept(w: World, w2: World, e: nat)
    requires Pairs(w) && Pairs(w2) && e < 2 && Stream(w, e) && w2.iss == w.iss && w.sent[Peer(e)] <= w2.sent[Peer(e)]
    requires forall s :: s in w2.net[Peer(e)] ==> s in w.net[Peer(e)] || Honest(w2, Peer(e), s)
    requires Received(w2, e) <= w2.sent[Peer(e)] && |w2.conn[e].buf| <= BUFFER_SIZE
    requires w2.conn[Peer(e)].state.Established? ==>
             w2.conn[Peer(e)].sndNxt == Plus(w.iss[Peer(e)], 1 + |w2.sent[Peer(e)]|)
    requires w2.conn[e].state.Established? ==> w2.conn[e].rcvNxt == Plus(w.iss[Peer(e)], 1 + |Received(w2, e)|)
    requires w2.conn[e].state.SynSent? || w2.conn[e].state.SynRecv? ==>
               w2.conn[e].state == w.conn[e].state && w2.conn[e].sndNxt == w.conn[e].sndNxt &&
               Received(w2, e) == Received(w, e)
    requires w2.conn[Peer(e)].state.SynSent? || w2.conn[Peer(e)].state.SynRecv? ==>
               w2.conn[Peer(e)].state == w.conn[Peer(e)].state && w2.sent[Peer(e)] == w.sent[Peer(e)]
    ensures Stream(w2, e)
  {
    forall s | s in w2.net[Peer(e)] ensures Honest(w2, Peer(e), s) {
      if s in w.net[Peer(e)] { HonestGrows(w, w2, Peer(e), s); }
    }
  }

  lemma TransmitSound(w: World, e: nat, chunk: seq<Byte>)
    requires Sound(w) && e < 2
    ensures Sound(Step(w, Transmit(e, chunk)))
  {
    hide Has, Plus;
    FlagValues();
    var c := w.conn[e];
    if c.used && c.state.Established? && chunk != [] {
      var w2 := Step(w, Transmit(e, chunk));
      var s := Make(c, ACK + PSH, chunk);
      assert ToSet([s]) == {s} by { assert [s][0] == s; }
      assert Piece(w2, e, s, |w.sent[e]|);
      PlusPlus(w.iss[e], 1 + |w.sent[e]|, |chunk|);
      assert forall x :: x in w2.net[e] ==> x in w.net[e] || x == s;
      StreamKept(w, w2, Peer(e));
      StreamKept(w, w2, e);
    }
  }

  lemma ReadSound(w: World, e: nat, max: nat)
    requires Sound(w) && e < 2
    ensures Sound(Step(w, Read(e, max)))
  {
    hide Has, Plus, Honest;
    var c := w.conn[e];
    if c.used {
      var w2 := Step(w, Read(e, max));
      var copy := if max < |c.buf| then max else |c.buf|;
      assert c.buf == c.buf[..copy] + c.buf[copy..];
      assert Received(w2, e) == Received(w, e);
      StreamKept(w, w2, e);
      StreamKept(w, w2, Peer(e));
    }
  }

  lemma ShutSound(w: World, e: nat)
    requires Sound(w) && e < 2
    ensures Sound(Step(w, Shut(e)))
  {
    hide Has, Plus;
    FlagValues();
    var w2 := Step(w, Shut(e));
    var r := Closing(w.conn[e]);
    assert forall s :: s in ToSet(r.out) ==> Bare(s);
    StreamKept(w, w2, e);
    StreamKept(w, w2, Peer(e));
  }

  /** A wanted segment of the peer continues the stream where the receiver stands. */
  lemma WantedContinues(w: World, e: nat, s: Segment)
    requires Pairs(w) && e < 2 && Stream(w, e) && Short(w) && w.conn[e].state.Established?
    requires s in w.net[Peer(e)] && Wanted(w.conn[e], s)
    ensures Piece(w, Peer(e), s, |Received(w, e)|)
  {
    assert Honest(w, Peer(e), s);
    var off: nat :| Piece(w, Peer(e), s, off);
    PlusUnique(w.iss[Peer(e)], 1 + off, 1 + |Received(w, e)|);
  }

  lemma PrefixExtends(sent: seq<Byte>, have: seq<Byte>, data: seq<Byte>, copy: nat)
    requires have <= sent && |have| + |data| <= |sent| && data == sent[|have|..|have| + |data|] && copy <= |data|
    ensures have + data[..copy] <= sent
  {
    assert data[..copy] == sent[|have|..|have| + copy];
    assert have + data[..copy] == sent[..|have| + copy];
  }

  /** Taking a segment's data extends what was received by a piece of what was sent. */
  lemma TakeKeeps(w: World, e: nat, s: Segment)
    requires Pairs(w) && e < 2 && Stream(w, e) && Short(w) && w.conn[e].state.Established? && s in w.net[Peer(e)]
    ensures var c := TakeData(TakeAck(w.conn[e], s), s);
            w.got[e] + c.buf <= w.sent[Peer(e)] && |c.buf| <= BUFFER_SIZE &&
            c.rcvNxt == Plus(w.iss[Peer(e)], 1 + |w.got[e] + c.buf|) && c.sndNxt == w.conn[e].sndNxt &&
            c.state == w.conn[e].state
  {
    hide Has, Plus, Honest;
    var c1 := TakeAck(w.conn[e], s);
    if Wanted(c1, s) {
      WantedContinues(w, e, s);
      var at := |Received(w, e)|;
      var c := TakeData(c1, s);
      var copy := |c.buf| - |c1.buf|;
      PrefixExtends(w.sent[Peer(e)], Received(w, e), s.data, copy);
      assert w.got[e] + c.buf == Received(w, e) + s.data[..copy];
      PlusPlus(w.iss[Peer(e)], 1 + at, copy);
    }
  }

  lemma DeliverSound(w: World, e: nat, s: Segment)
    requires Sound(w) && e < 2 && Short(w)
    ensures Sound(Step(w, Deliver(e, s)))
  {
    hide Has, Plus, TakeData, TakeAck, Wanted;
    FlagValues();
    if s in w.net[Peer(e)] {
      assert Stream(w, e) && Stream(w, Peer(e));
      assert Honest(w, Peer(e), s);
      var c := w.conn[e];
      var r := OnPacket(c, w.ip[Peer(e)], s, w.iss[e]);
      var w2 := Step(w, Deliver(e, s));
      if c.used && c.state.Established? && FromPeer(c, w.ip[Peer(e)], s) {
        TakeKeeps(w, e, s);
      }
      forall x | x in ToSet(r.out) ensures Honest(w2, e, x) {
        AnswersHonest(c, w.ip[Peer(e)], s, w.iss[e], x);
      }
      HandshakeNumbers(w, e, s);
      StreamKept2(w, w2, e, s);
      StreamKept(w, w2, Peer(e));
    }
  }

  /** Answers carry no data, and a SYN answer carries the initial number. */
  lemma AnswersHonest(c: Conn, ip: Word32, s: Segment, isn: Word32, x: Segment)
    requires x in ToSet(OnPacket(c, ip, s, isn).out)
    ensures x.data == [] && (Has(x.flags, SYN) ==> x.seqNo == isn)
  {
    hide Has, Plus, TakeData, TakeAck, Wanted;
    FlagValues();
  }

  /** Leaving the handshake: both counters stand at the first byte. */
  lemma HandshakeNumbers(w: World, e: nat, s: Segment)
    requires Sound(w) && e < 2 && s in w.net[Peer(e)]
    ensures var c := w.conn[e];
            var r := OnPacket(c, w.ip[Peer(e)], s, w.iss[e]);
            c.state.SynSent? || c.state.SynRecv? ==>
              (r.c == c || (r.c.state.Established? && r.c.rcvNxt == Plus(w.iss[Peer(e)], 1) && r.c.buf == c.buf &&
                            r.c.sndNxt == Plus(w.iss[e], 1)))
  {
    hide Has, Plus, TakeData, TakeAck, Wanted;
    assert Honest(w, Peer(e), s);
  }

  lemma StreamKept2(w: World, w2: World, e: nat, s: Segment)
    requires Sound(w) && e < 2 && s in w.net[Peer(e)] && w2 == Step(w, Deliver(e, s))
    requires var c := w.conn[e];
             c.used && c.state.Established? && FromPeer(c, w.ip[Peer(e)], s) ==>
               var d := TakeData(TakeAck(c, s), s);
               w.got[e] + d.buf <= w.sent[Peer(e)] && |d.buf| <= BUFFER_SIZE && d.state == c.state &&
               d.rcvNxt == Plus(w.iss[Peer(e)], 1 + |w.got[e] + d.buf|) && d.sndNxt == c.sndNxt
    requires var c := w.conn[e];
             var r := OnPacket(c, w.ip[Peer(e)], s, w.iss[e]);
             c.state.SynSent? || c.state.SynRecv? ==>
               (r.c == c || (r.c.state.Established? && r.c.rcvNxt == Plus(w.iss[Peer(e)], 1) && r.c.buf == c.buf &&
                             r.c.sndNxt == Plus(w.iss[e], 1)))
    ensures Stream(w2, e) && w2.conn[e].state.Established? ==> w2.conn[e].sndNxt == Plus(w.iss[e], 1 + |w.sent[e]|)
    ensures Stream(w2, e)
    ensures w2.conn[e].state.SynSent? || w2.conn[e].state.SynRecv? ==> w2.conn[e] == w.conn[e]
  {
    hide Has, Plus, TakeData, TakeAck, Wanted, Make, Honest, FromPeer;
    StreamKept(w, w2, e);
  }

  lemma StepSound(w: World, a: Action)
    requires Sound(w) && Short(w)
    ensures Sound(Step(w, a))
  {
    SoundPairs(w);
    hide Sound, Step;
    if a.e < 2 {
      match a
      case Transmit(e, chunk) => TransmitSound(w, e, chunk);
      case Deliver(e, s) => DeliverSound(w, e, s);
      case Read(e, max) => ReadSound(w, e, max);
      case Shut(e) => ShutSound(w, e);
    } else {
      NoEnd(w, a);
    }
  }

  lemma NoEnd(w: World, a: Action)
    requires Pairs(w) && a.e >= 2
    ensures Step(w, a) == w
  {
  }

  lemma InitialSound(iss: seq<Word32>, ip: seq<Word32>, port: seq<Word16>)
    requires |iss| == 2 && |ip| == 2 && |port| == 2
    ensures Sound(Initial(iss, ip, port))
  {
    FlagValues();
    var w := Initial(iss, ip, port);
    forall s | s in w.net[0] ensures Honest(w, 0, s) { }
  }

  /** Sent streams only grow. */
  lemma {:induction false} RunGrows(w: World, actions: seq<Action>)
    requires Pairs(w)
    ensures Pairs(Run(w, actions)) && |w.sent[0]| <= |Run(w, actions).sent[0]| &&
            |w.sent[1]| <= |Run(w, actions).sent[1]|
    decreases |actions|
  {
    hide OnPacket, Closing;
    if actions != [] { RunGrows(Step(w, actions[0]), actions[1..]); }
  }

  lemma {:induction false} RunSound(w: World, actions: seq<Action>)
    requires Pairs(w) && Sound(w) && Short(Run(w, actions))
    ensures Sound(Run(w, actions))
    decreases |actions|
  {
    hide Sound, Step;
    if actions != [] {
      RunGrows(w, actions);
      RunGrows(Step(w, actions[0]), actions[1..]);
      StepSound(w, actions[0]);
      RunSound(Step(w, actions[0]), actions[1..]);
    }
  }

  lemma SoundPairs(w: World)
    requires Sound(w)
    ensures Pairs(w)
  {
  }

  /** Over a network that drops, repeats and reorders segments, whatever the two ends do, the bytes
      handed out and buffered at one end are always a prefix of the bytes the other end sent, and
      while the connection is established the next expected number is exactly their count. */
  lemma StreamIsPrefix(iss: seq<Word32>, ip: seq<Word32>, port: seq<Word16>, actions: seq<Action>, e: nat)
    requires |iss| == 2 && |ip| == 2 && |port| == 2 && e < 2
    requires var w := Run(Initial(iss, ip, port), actions); Pairs(w) && Short(w)
    ensures var w := Run(Initial(iss, ip, port), actions);
            w.got[e] + w.conn[e].buf <= w.sent[Peer(e)] && |w.conn[e].buf| <= BUFFER_SIZE &&
            (w.conn[e].state.Established? ==>
               w.conn[e].rcvNxt == Plus(iss[Peer(e)], 1 + |w.got[e] + w.conn[e].buf|))
  {
    hide Step, OnPacket;
    InitialSound(iss, ip, port);
    RunSound(Initial(iss, ip, port), actions);
    KeepsIss(Initial(iss, ip, port), actions);
    var w := Run(Initial(iss, ip, port), actions);
    assert Stream(w, e);
  }

  lemma {:induction false} KeepsIss(w: World, actions: seq<Action>)
    requires Pairs(w)
    ensures Pairs(Run(w, actions)) && Run(w, actions).iss == w.iss
    decreases |actions|
  {
    hide OnPacket, Closing;
    if actions != [] { KeepsIss(Step(w, actions[0]), actions[1..]); }
  }

  // ----- what gets through -----

  /** Both ends established with each other, and end `e` has room for whatever comes. */
  predicate Joined(w: World, e: nat)
    requires Pairs(w) && e < 2
  {
    var c, d := w.conn[e], w.conn[Peer(e)];
    c.used && d.used && c.state.Established? && d.state.Established? && c.buf == [] &&
    c.remoteIp == w.ip[Peer(e)] && c.remotePort == d.localPort && c.localPort == d.remotePort &&
    c.rcvNxt == d.sndNxt
  }

  function TheSyn(w: World): Segment
    requires Pairs(w)
  {
    Make(w.conn[0].(sndNxt := w.iss[0]), SYN, [])
  }

  /** The acknowledging SYN that end 1 answers with. */
  function TheAnswer(w: World): Segment
    requires Pairs(w)
  {
    Segment(w.port[1], w.port[0], w.iss[1], Plus(w.iss[0], 1), SYN + ACK, BUFFER_SIZE, [])
  }

  /** The SYN delivered to the listener and its answer delivered back join the two ends. */
  lemma Handshake(iss: seq<Word32>, ip: seq<Word32>, port: seq<Word16>)
    requires |iss| == 2 && |ip| == 2 && |port| == 2
    ensures var w := Initial(iss, ip, port);
            var w2 := Run(w, [Deliver(1, TheSyn(w)), Deliver(0, TheAnswer(w))]);
            Joined(w2, 0) && Joined(w2, 1) && w2.got == [[], []] && w2.sent == [[], []]
  {
    FlagValues();
    assert Has(SYN + ACK, ACK) && !Has(SYN, ACK);
    hide Has;
    var w := Initial(iss, ip, port);
    var first, second := Deliver(1, TheSyn(w)), Deliver(0, TheAnswer(w));
    var w1 := Step(w, first);
    var r := OnPacket(w.conn[1], ip[0], TheSyn(w), iss[1]);
    assert r.out == [TheAnswer(w)];
    assert ToSet(r.out) == {TheAnswer(w)} by { assert r.out[0] == TheAnswer(w); }
    assert TheAnswer(w) in w1.net[1];
    var w2 := Step(w1, second);
    assert [first, second][1..] == [second] && [second][1..] == [];
    assert Run(w1, [second]) == Run(w2, []) == w2;
    assert Run(w, [first, second]) == w2;
  }

  /** A chunk is sent, delivered and read. */
  function Exchange(w: World, e: nat, chunk: seq<Byte>): seq<Action>
    requires Pairs(w) && e < 2
  {
    [Transmit(Peer(e), chunk), Deliver(e, Make(w.conn[Peer(e)], ACK + PSH, chunk)), Read(e, BUFFER_SIZE)]
  }

  lemma RunThree(w: World, a: Action, b: Action, c: Action)
    requires Pairs(w)
    ensures Run(w, [a, b, c]) == Step(Step(Step(w, a), b), c)
  {
    hide Step;
    assert [a, b, c][1..] == [b, c] && [b, c][1..] == [c] && [c][1..] == [];
    assert Run(Step(w, a), [b, c]) == Run(Step(Step(w, a), b), [c]);
    assert Run(Step(Step(Step(w, a), b), c), []) == Step(Step(Step(w, a), b), c);
  }

  /** `TakesNext` for a segment that fits. */
  lemma NextPlus(c: Conn, ip: Word32, s: Segment, isn: Word32)
    requires c.used && c.state.Established? && FromPeer(c, ip, s) && c.buf == [] && 0 < |s.data| <= 1024
    requires s.seqNo == c.rcvNxt && !Has(s.flags, FIN)
    ensures var d := OnPacket(c, ip, s, isn).c;
            d == c.(sndUna := d.sndUna, buf := s.data, rcvNxt := Plus(c.rcvNxt, |s.data|))
  {
    hide Has, Plus;
    assert s.data[..|s.data|] == s.data && [] + s.data == s.data;
  }

  /** Between joined ends a chunk that fits in the buffer arrives whole, and they are joined again. */
  lemma ChunkArrives(w: World, e: nat, chunk: seq<Byte>)
    requires Pairs(w) && e < 2 && Joined(w, e) && 0 < |chunk| <= 1024
    ensures var w2 := Run(w, Exchange(w, e, chunk));
            Joined(w2, e) && w2.got[e] == w.got[e] + chunk && w2.sent[Peer(e)] == w.sent[Peer(e)] + chunk &&
            w2.got[Peer(e)] == w.got[Peer(e)] && w2.sent[e] == w.sent[e]
  {
    assert !Has(ACK + PSH, FIN);
    hide Has, Plus, Closing, OnPacket;
    var s := Make(w.conn[Peer(e)], ACK + PSH, chunk);
    var w1 := Step(w, Transmit(Peer(e), chunk));
    assert ToSet([s]) == {s} by { assert [s][0] == s; }
    assert s in w1.net[Peer(e)];
    var w2 := Step(w1, Deliver(e, s));
    assert chunk[..|chunk|] == chunk && [] + chunk == chunk;
    NextPlus(w1.conn[e], w.ip[Peer(e)], s, w.iss[e]);
    assert w2.conn[e].buf == chunk;
    var w3 := Step(w2, Read(e, BUFFER_SIZE));
    assert chunk[|chunk|..] == [];
    RunThree(w, Transmit(Peer(e), chunk), Deliver(e, s), Read(e, BUFFER_SIZE));
  }

  function Joining<T>(chunks: seq<seq<T>>): seq<T> { if chunks == [] then [] else chunks[0] + Joining(chunks[1..]) }

  /** One exchange after the other. */
  function Script(w: World, e: nat, chunks: seq<seq<Byte>>): seq<Action>
    requires Pairs(w) && e < 2
    decreases |chunks|
  {
    if chunks == [] then []
    else
      var now := Exchange(w, e, chunks[0]);
      now + Script(Run(w, now), e, chunks[1..])
  }

  lemma {:induction false} RunAppend(w: World, a: seq<Action>, b: seq<Action>)
    requires Pairs(w)
    ensures Run(w, a + b) == Run(Run(w, a), b)
    decreases |a|
  {
    hide Step;
    if a == [] {
      assert a + b == b;
    } else {
      assert (a + b)[0] == a[0] && (a + b)[1..] == a[1..] + b;
      RunAppend(Step(w, a[0]), a[1..], b);
    }
  }

  /** Any stream, in chunks that fit in the buffer, gets through in either direction. */
  lemma {:induction false} StreamArrives(w: World, e: nat, chunks: seq<seq<Byte>>)
    requires Pairs(w) && e < 2 && Joined(w, e) && forall k :: 0 <= k < |chunks| ==> 0 < |chunks[k]| <= 1024
    ensures var w2 := Run(w, Script(w, e, chunks));
            Joined(w2, e) && w2.got[e] == w.got[e] + Joining(chunks)
    decreases |chunks|
  {
    hide Step, Joined, Exchange;
    if chunks == [] {
      assert w.got[e] + [] == w.got[e];
    } else {
      var now := Exchange(w, e, chunks[0]);
      var w1 := Run(w, now);
      ChunkArrives(w, e, chunks[0]);
      StreamArrives(w1, e, chunks[1..]);
      RunAppend(w, now, Script(w1, e, chunks[1..]));
      Reassoc(w.got[e], chunks[0], Joining(chunks[1..]));
    }
  }

  lemma Reassoc<T>(a: seq<T>, b: seq<T>, c: seq<T>)
    ensures (a + b) + c == a + (b + c)
  {
  }

  /** From `tcp_connect` and `tcp_listen` on: some run brings any stream to either end. */
  lemma {:induction false} Completes(iss: seq<Word32>, ip: seq<Word32>, port: seq<Word16>, e: nat,
                                     chunks: seq<seq<Byte>>)
    returns (actions: seq<Action>)
    requires |iss| == 2 && |ip| == 2 && |port| == 2 && e < 2
    requires forall k :: 0 <= k < |chunks| ==> 0 < |chunks[k]| <= 1024
    ensures Run(Initial(iss, ip, port), actions).got[e] == Joining(chunks)
  {
    hide Run, Joined, Script;
    var w := Initial(iss, ip, port);
    var opening := [Deliver(1, TheSyn(w)), Deliver(0, TheAnswer(w))];
    Handshake(iss, ip, port);
    var w2 := Run(w, opening);
    StreamArrives(w2, e, chunks);
    RunAppend(w, opening, Script(w2, e, chunks));
    actions := opening + Script(w2, e, chunks);
    assert [] + Joining(chunks) == Joining(chunks);
  }

  /** The three packets of closing, as the connections take them. */
  lemma ClosingPackets(c: Conn, ip: Word32, s: Segment, isn: Word32)
    requires c.used && s.data == []
    ensures c.state.Established? && FromPeer(c, ip, s) && s.flags == FIN + ACK ==>
              var d := c.(rcvNxt := Plus(c.rcvNxt, 1));
              var r := OnPacket(c, ip, s, isn);
              r.c.used && r.c.state.LastAck? && r.c.remoteIp == c.remoteIp &&
              r.out == [Make(d, ACK, []), Make(d, FIN + ACK, [])]
    ensures c.state.FinWait1? && c.remoteIp == ip && s.flags == FIN + ACK ==>
              var r := OnPacket(c, ip, s, isn);
              !r.c.used && r.out == [Make(c.(rcvNxt := Plus(c.rcvNxt, 1)), ACK, [])]
    ensures c.state.LastAck? && c.remoteIp == ip && s.flags == ACK ==> !OnPacket(c, ip, s, isn).c.used
  {
    assert Has(FIN + ACK, FIN) && Has(FIN + ACK, ACK) && Has(ACK, ACK);
    hide Has, Plus;
  }

  /** Joined ends close: the first one's FIN, the FIN that answers it, and the last acknowledgement, delivered in
      turn, give both slots back. */
  lemma Teardown(w: World, e: nat)
    requires Pairs(w) && e < 2 && Joined(w, e) && Joined(w, Peer(e))
    ensures var p := Peer(e);
            var fin := Make(w.conn[e], FIN + ACK, []);
            var answer := Make(w.conn[p].(rcvNxt := Plus(w.conn[p].rcvNxt, 1)), FIN + ACK, []);
            var c := w.conn[e];
            var last := Make(c.(sndNxt := Plus(c.sndNxt, 1), rcvNxt := Plus(c.rcvNxt, 1)), ACK, []);
            var w2 := Step(Run(w, [Shut(e), Deliver(p, fin), Deliver(e, answer)]), Deliver(p, last));
            !w2.conn[0].used && !w2.conn[1].used
  {
    hide Has, Plus, OnPacket;
    var p := Peer(e);
    var fin := Make(w.conn[e], FIN + ACK, []);
    var answer := Make(w.conn[p].(rcvNxt := Plus(w.conn[p].rcvNxt, 1)), FIN + ACK, []);
    var c := w.conn[e];
    var last := Make(c.(sndNxt := Plus(c.sndNxt, 1), rcvNxt := Plus(c.rcvNxt, 1)), ACK, []);
    RunThree(w, Shut(e), Deliver(p, fin), Deliver(e, answer));
    var w1 := Step(w, Shut(e));
    assert fin in w1.net[e] by { assert Closing(w.conn[e]).out[0] == fin; }
    ClosingPackets(w1.conn[p], w.ip[e], fin, w.iss[p]);
    var w2 := Step(w1, Deliver(p, fin));
    assert answer in w2.net[p] by { assert OnPacket(w1.conn[p], w.ip[e], fin, w.iss[p]).out[1] == answer; }
    ClosingPackets(w2.conn[e], w.ip[p], answer, w.iss[e]);
    var w3 := Step(w2, Deliver(e, answer));
    assert last in w3.net[e] by { assert OnPacket(w2.conn[e], w.ip[p], answer, w.iss[e]).out[0] == last; }
    ClosingPackets(w3.conn[p], w.ip[e], last, w.iss[p]);
  }

  // ----- what does not -----

  /** Segments of one end do not overlap: nothing is sent twice in other pieces. */
  ghost predicate Apart(w: World, e: nat)
    requires Pairs(w) && e < 2
  {
    forall s, u, i: nat, j: nat ::
      (s in w.net[e] && u in w.net[e] && s.data != [] && u.data != [] && Piece(w, e, s, i) && Piece(w, e, u, j) && i < j
       ==> i + |s.data| <= j)
  }

  /** Bytes are missing at end `e`, and no segment brings the next one. */
  predicate Lost(w: World, e: nat)
    requires Pairs(w) && e < 2
  {
    |Received(w, e)| < |w.sent[Peer(e)]| &&
    forall s :: s in w.net[Peer(e)] && s.data != [] ==> s.seqNo != Plus(w.iss[Peer(e)], 1 + |Received(w, e)|)
  }

  /** What a step adds to an end's segments: answers without data, or the next piece of its stream. */
  lemma NewSegments(w: World, a: Action, e: nat, s: Segment)
    requires Pairs(w) && Sound(w) && e < 2 && s in Step(w, a).net[e] && s !in w.net[e] && s.data != []
    ensures Pairs(Step(w, a)) && w.sent[e] <= Step(w, a).sent[e]
    ensures Step(w, a).sent[e] == w.sent[e] + s.data && s.seqNo == Plus(w.iss[e], 1 + |w.sent[e]|)
  {
    hide Has, Plus, TakeData, TakeAck, Wanted, Honest;
    if a.e < 2 {
      match a
      case Transmit(_, chunk) => assert a.e == e && s in ToSet([Make(w.conn[e], ACK + PSH, chunk)]);
      case Deliver(_, u) =>
        if u in w.net[Peer(e)] && a.e == e { AnswersHonest(w.conn[e], w.ip[Peer(e)], u, w.iss[e], s); }
      case Read(_, _) =>
      case Shut(_) =>
    }
  }

  lemma SentKept(w: World, a: Action, e: nat)
    requires Pairs(w) && e < 2
    ensures w.sent[e] <= Step(w, a).sent[e] && Step(w, a).iss == w.iss
    ensures Step(w, a).sent[e] != w.sent[e] ==> a.Transmit?
  {
    hide OnPacket, Closing;
  }

  lemma PieceKept(w: World, w2: World, e: nat, s: Segment, i: nat)
    requires Pairs(w) && Pairs(w2) && e < 2 && w2.iss == w.iss && w.sent[e] <= w2.sent[e]
    requires |w2.sent[e]| < 0xFFFF_FFFF && Honest(w, e, s) && s.data != [] && Piece(w2, e, s, i)
    ensures Piece(w, e, s, i)
  {
    var k: nat :| Piece(w, e, s, k);
    PlusUnique(w.iss[e], 1 + i, 1 + k);
  }

  lemma StepApart(w: World, a: Action, e: nat)
    requires e < 2 && Pairs(w) && Sound(w) && Apart(w, e) && Short(Step(w, a))
    ensures Apart(Step(w, a), e)
  {
    var w2 := Step(w, a);
    SentKept(w, a, e);
    assert Stream(w, Peer(e));
    hide Step;
    forall s, u, i: nat, j: nat | s in w2.net[e] && u in w2.net[e] && s.data != [] && u.data != [] &&
        Piece(w2, e, s, i) && Piece(w2, e, u, j) && i < j
      ensures i + |s.data| <= j
    {
      if s in w.net[e] {
        PieceKept(w, w2, e, s, i);
        if u in w.net[e] {
          PieceKept(w, w2, e, u, j);
        } else {
          NewSegments(w, a, e, u);
          PlusUnique(w.iss[e], 1 + j, 1 + |w.sent[e]|);
        }
      } else {
        NewSegments(w, a, e, s);
        PlusUnique(w.iss[e], 1 + i, 1 + |w.sent[e]|);
        if u in w.net[e] {
          PieceKept(w, w2, e, u, j);
        } else {
          NewSegments(w, a, e, u);
        }
      }
    }
  }

  /** Taking part of a segment loses the rest: nothing starts in the middle of it. */
  lemma OverrunLoses(w: World, e: nat, s: Segment)
    requires e < 2 && Pairs(w) && Sound(w) && Short(w) && Apart(w, Peer(e)) && s in w.net[Peer(e)]
    requires w.conn[e].used && w.conn[e].state.Established? && FromPeer(w.conn[e], w.ip[Peer(e)], s)
    requires Wanted(w.conn[e], s) && 1024 - |w.conn[e].buf| < |s.data| && |w.conn[e].buf| < 1024
    ensures Lost(Step(w, Deliver(e, s)), e)
  {
    hide OnPacket, Has;
    var w2 := Step(w, Deliver(e, s));
    WantedContinues(w, e, s);
    assert Stream(w, e);
    TakesNext(w.conn[e], w.ip[Peer(e)], s, w.iss[e]);
    var at, n := |Received(w, e)|, 1024 - |w.conn[e].buf|;
    assert |Received(w2, e)| == at + n;
    forall u | u in w2.net[Peer(e)] && u.data != [] ensures u.seqNo != Plus(w2.iss[Peer(e)], 1 + |Received(w2, e)|) {
      assert u in w.net[Peer(e)];
      assert Honest(w, Peer(e), u);
      var j: nat :| Piece(w, Peer(e), u, j);
      if u.seqNo == Plus(w.iss[Peer(e)], 1 + at + n) {
        PlusUnique(w.iss[Peer(e)], 1 + j, 1 + at + n);
        assert false;
      }
    }
  }

  lemma StepLost(w: World, a: Action, e: nat)
    requires e < 2 && Pairs(w) && Sound(w) && Lost(w, e) && Short(Step(w, a))
    ensures Lost(Step(w, a), e) && Received(Step(w, a), e) == Received(w, e)
  {
    var w2 := Step(w, a);
    SentKept(w, a, Peer(e));
    assert Stream(w, e);
    NothingTaken(w, a, e);
    hide Step, Sound;
    forall s | s in w2.net[Peer(e)] && s.data != []
      ensures s.seqNo != Plus(w2.iss[Peer(e)], 1 + |Received(w2, e)|)
    {
      if s !in w.net[Peer(e)] {
        NewSegments(w, a, Peer(e), s);
        if s.seqNo == Plus(w.iss[Peer(e)], 1 + |Received(w, e)|) {
          PlusUnique(w.iss[Peer(e)], 1 + |w.sent[Peer(e)]|, 1 + |Received(w, e)|);
          assert false;
        }
      }
    }
  }

  lemma BufferKept(c: Conn, ip: Word32, s: Segment, isn: Word32)
    requires c.state.Established? ==> !Wanted(c, s)
    ensures OnPacket(c, ip, s, isn).c.buf == c.buf
  {
    hide Has, Plus;
  }

  lemma NothingTaken(w: World, a: Action, e: nat)
    requires e < 2 && Pairs(w) && Sound(w) && Lost(w, e)
    ensures Received(Step(w, a), e) == Received(w, e)
  {
    hide Has, Plus, Honest, OnPacket;
    assert Stream(w, e);
    if a.Read? && a.e == e {
      var c := w.conn[e];
      var copy := if a.max < |c.buf| then a.max else |c.buf|;
      assert c.buf == c.buf[..copy] + c.buf[copy..];
    }
    if a.Deliver? && a.e == e && a.s in w.net[Peer(e)] {
      BufferKept(w.conn[e], w.ip[Peer(e)], a.s, w.iss[e]);
    }
  }

  lemma {:induction false} RunLost(w: World, actions: seq<Action>, e: nat)
    requires e < 2 && Pairs(w) && Sound(w) && Lost(w, e) && Short(Run(w, actions))
    ensures Received(Run(w, actions), e) == Received(w, e)
    decreases |actions|
  {
    hide Step, Sound, Lost;
    if actions != [] {
      var w1 := Step(w, actions[0]);
      RunGrows(w, actions);
      RunGrows(w1, actions[1..]);
      RunGrows(w, [actions[0]]);
      StepSound(w, actions[0]);
      StepLost(w, actions[0], e);
      RunLost(w1, actions[1..], e);
    }
  }

  lemma {:induction false} RunApart(w: World, actions: seq<Action>, e: nat)
    requires e < 2 && Pairs(w) && Sound(w) && Apart(w, e) && Short(Run(w, actions))
    ensures Sound(Run(w, actions)) && Apart(Run(w, actions), e)
    decreases |actions|
  {
    hide Step, Sound, Apart;
    if actions != [] {
      var w1 := Step(w, actions[0]);
      RunGrows(w, actions);
      RunGrows(w1, actions[1..]);
      StepSound(w, actions[0]);
      StepApart(w, actions[0], e);
      RunApart(w1, actions[1..], e);
    }
  }

  /** A segment that does not fit in what is left of the receiver's buffer ends the stream: nothing is sent
      again, so from then on, whatever happens, the receiver gets no further byte. */
  lemma OverrunIsFinal(iss: seq<Word32>, ip: seq<Word32>, port: seq<Word16>, before: seq<Action>, e: nat, s: Segment,
                       after: seq<Action>)
    requires |iss| == 2 && |ip| == 2 && |port| == 2 && e < 2
    requires var w := Run(Initial(iss, ip, port), before);
             s in w.net[Peer(e)] && w.conn[e].used && w.conn[e].state.Established? &&
             FromPeer(w.conn[e], w.ip[Peer(e)], s) && Wanted(w.conn[e], s) &&
             |w.conn[e].buf| < 1024 < |w.conn[e].buf| + |s.data|
    requires Short(Run(Step(Run(Initial(iss, ip, port), before), Deliver(e, s)), after))
    ensures var w2 := Step(Run(Initial(iss, ip, port), before), Deliver(e, s));
            |Received(w2, e)| < |w2.sent[Peer(e)]| && Received(Run(w2, after), e) == Received(w2, e)
  {
    hide Step, Sound, Apart, Received, FromPeer, Wanted;
    var w0 := Initial(iss, ip, port);
    var w := Run(w0, before);
    var w2 := Step(w, Deliver(e, s));
    InitialSound(iss, ip, port);
    InitialApart(iss, ip, port, Peer(e));
    RunGrows(w2, after);
    SentKept(w, Deliver(e, s), 0);
    SentKept(w, Deliver(e, s), 1);
    RunApart(w0, before, Peer(e));
    OverrunLoses(w, e, s);
    StepSound(w, Deliver(e, s));
    RunLost(w2, after, e);
  }

  lemma InitialApart(iss: seq<Word32>, ip: seq<Word32>, port: seq<Word16>, e: nat)
    requires |iss| == 2 && |ip| == 2 && |port| == 2 && e < 2
    ensures Apart(Initial(iss, ip, port), e)
  {
    var w := Initial(iss, ip, port);
    forall s | s in w.net[e] ensures s.data == [] { }
  }
}
