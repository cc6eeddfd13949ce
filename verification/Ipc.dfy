/** Pipes and message queues: tables of ring buffers that behave as first-in first-out queues. */
module Ipc {

  const MAX_PIPES: nat := 8
  const PIPE_BUF_SIZE: nat := 256
  const PIPE_BASE_FD: int := 32
  const MAX_QUEUES: nat := 8
  const MAX_MSGS: nat := 16
  const MSG_MAX_SIZE: nat := 64

  type Byte = b: nat | b < 256

  function Min(a: nat, b: nat): nat { if a < b then a else b }

  // ----- rings -----

  /** The elements of a ring from `tail` up to `head`, in the order they were put in. */
  function Ring<T>(buf: seq<T>, tail: nat, head: nat): (s: seq<T>)
    requires |buf| >= 1 && tail < |buf| && head < |buf|
    ensures |s| == if tail <= head then head - tail else head - tail + |buf|
  {
    if tail <= head then buf[tail..head] else buf[tail..] + buf[..head]
  }

  function Next(i: nat, size: nat): (j: nat)
    requires i < size
    ensures j < size
  {
    if i + 1 == size then 0 else i + 1
  }

  /** Writing at the head puts an element at the back. */
  lemma RingPut<T>(buf: seq<T>, tail: nat, head: nat, v: T)
    requires |buf| >= 2 && tail < |buf| && head < |buf| && Next(head, |buf|) != tail
    ensures Ring(buf[head := v], tail, Next(head, |buf|)) == Ring(buf, tail, head) + [v]
  {
  }

  /** Moving the tail takes the element at the front. */
  lemma RingTake<T>(buf: seq<T>, tail: nat, head: nat)
    requires |buf| >= 2 && tail < |buf| && head < |buf| && tail != head
    ensures Ring(buf, tail, head) == [buf[tail]] + Ring(buf, Next(tail, |buf|), head)
  {
  }

  lemma RingFull<T>(buf: seq<T>, tail: nat, head: nat)
    requires |buf| >= 2 && tail < |buf| && head < |buf|
    ensures Next(head, |buf|) == tail <==> |Ring(buf, tail, head)| == |buf| - 1
    ensures tail == head <==> Ring(buf, tail, head) == []
    ensures |Ring(buf, tail, head)| <= |buf| - 1
  {
  }

  // ----- pipes -----

  datatype Pipe = Pipe(used: bool, buf: seq<Byte>, head: nat, tail: nat)

  predicate Sound(p: Pipe) { |p.buf| == PIPE_BUF_SIZE && p.head < PIPE_BUF_SIZE && p.tail < PIPE_BUF_SIZE }

  function Held(p: Pipe): (s: seq<Byte>)
    requires Sound(p)
  {
    Ring(p.buf, p.tail, p.head)
  }

  predicate Full(p: Pipe) { (p.head + 1) % PIPE_BUF_SIZE == p.tail }

  function PutByte(p: Pipe, b: Byte): Pipe
    requires Sound(p)
  {
    p.(buf := p.buf[p.head := b], head := (p.head + 1) % PIPE_BUF_SIZE)
  }

  function TakeByte(p: Pipe): Pipe
    requires Sound(p)
  {
    p.(tail := (p.tail + 1) % PIPE_BUF_SIZE)
  }

  /** What one byte in or out does to the queue. */
  lemma BytesHeld(p: Pipe, b: Byte)
    requires Sound(p)
    ensures |Held(p)| < PIPE_BUF_SIZE && (Full(p) <==> |Held(p)| == PIPE_BUF_SIZE - 1)
    ensures p.tail == p.head <==> Held(p) == []
    ensures !Full(p) ==> Sound(PutByte(p, b)) && Held(PutByte(p, b)) == Held(p) + [b]
    ensures p.tail != p.head ==> Sound(TakeByte(p)) && Held(p) == [p.buf[p.tail]] + Held(TakeByte(p))
  {
    hide Ring;
    RingFull(p.buf, p.tail, p.head);
    if !Full(p) { RingPut(p.buf, p.tail, p.head, b); }
    if p.tail != p.head { RingTake(p.buf, p.tail, p.head); }
  }

  lemma PutUsed(p: Pipe, b: Byte)
    requires Sound(p)
    ensures PutByte(p, b).used == p.used
  {
  }

  lemma TakeUsed(p: Pipe)
    requires Sound(p)
    ensures TakeByte(p).used == p.used
  {
  }

  /** The pipe a descriptor names: two descriptors a pipe, the odd one for writing. */
  function PipeOf(fd: int): int { (fd - PIPE_BASE_FD) / 2 }

  predicate WriteEnd(fd: int) { (fd - PIPE_BASE_FD) % 2 == 1 }

  function ReadFd(id: nat): int { PIPE_BASE_FD + id * 2 }

  function WriteFd(id: nat): int { PIPE_BASE_FD + id * 2 + 1 }

  /** The descriptors handed out for a pipe name that pipe and no other. */
  lemma DescriptorsName(id: nat, fd: int)
    ensures PipeOf(ReadFd(id)) == id && !WriteEnd(ReadFd(id)) && PipeOf(WriteFd(id)) == id && WriteEnd(WriteFd(id))
    ensures PipeOf(fd) == id ==> fd == if WriteEnd(fd) then WriteFd(id) else ReadFd(id)
  {
  }

  function Accepted(held: seq<Byte>, data: seq<Byte>): (n: nat)
    ensures n <= |data|
  {
    if |held| < 255 then Min(|data|, 255 - |held|) else 0
  }

  /** Bytes into the ring until the data or the room ends; how many. */
  function PutAll(p: Pipe, data: seq<Byte>): (Pipe, nat)
    requires Sound(p)
    decreases |data|
  {
    if data == [] || Full(p) then (p, 0) else var r := PutAll(PutByte(p, data[0]), data[1..]); (r.0, r.1 + 1)
  }

  /** Bytes out of the ring until enough are taken or none is left. */
  function TakeAll(p: Pipe, max: nat): (Pipe, seq<Byte>)
    requires Sound(p)
    decreases max
  {
    if max == 0 || p.tail == p.head then (p, [])
    else var r := TakeAll(TakeByte(p), max - 1); (r.0, [p.buf[p.tail]] + r.1)
  }

  lemma {:induction false} PutAllHeld(p: Pipe, data: seq<Byte>)
    requires Sound(p)
    ensures var r := PutAll(p, data);
            Sound(r.0) && r.0.used == p.used && r.1 == Accepted(Held(p), data) && Held(r.0) == Held(p) + data[..r.1]
    decreases |data|
  {
    hide Held, PutByte, Full;
    BytesHeld(p, 0);
    if data != [] && !Full(p) {
      BytesHeld(p, data[0]);
      PutUsed(p, data[0]);
      PutAllHeld(PutByte(p, data[0]), data[1..]);
      var n := PutAll(p, data).1;
      assert data[..n] == [data[0]] + data[1..][..n - 1];
    }
  }

  lemma {:induction false} TakeAllHeld(p: Pipe, max: nat)
    requires Sound(p)
    ensures var r := TakeAll(p, max);
            Sound(r.0) && r.0.used == p.used && |r.1| == Min(max, |Held(p)|) && r.1 + Held(r.0) == Held(p)
    decreases max
  {
    hide Held, TakeByte, Full;
    BytesHeld(p, 0);
    if max > 0 && p.tail != p.head {
      TakeUsed(p);
      TakeAllHeld(TakeByte(p), max - 1);
      assert [p.buf[p.tail]] + (TakeAll(TakeByte(p), max - 1).1 + Held(TakeAll(p, max).0)) == Held(p);
    }
  }

  /** The writing loop on one pipe. */
  method Fill(p0: Pipe, data: seq<Byte>) returns (p: Pipe, written: nat)
    requires Sound(p0)
    ensures (p, written) == PutAll(p0, data)
  {
    hide PutByte, Full;
    p, written := p0, 0;
    assert data[0..] == data;
    while written < |data|
      invariant 0 <= written <= |data| && Sound(p)
      invariant var r := PutAll(p, data[written..]); PutAll(p0, data) == (r.0, r.1 + written)
    {
      assert data[written..][0] == data[written] && data[written..][1..] == data[written + 1..];
      if Full(p) { break; }
      BytesHeld(p, data[written]);
      p := PutByte(p, data[written]);
      written := written + 1;
    }
  }

  /** The reading loop on one pipe. */
  method Drain(p0: Pipe, max: nat) returns (p: Pipe, bytes: seq<Byte>)
    requires Sound(p0)
    ensures (p, bytes) == TakeAll(p0, max)
  {
    hide TakeByte;
    p, bytes := p0, [];
    assert [] + TakeAll(p0, max).1 == TakeAll(p0, max).1;
    while |bytes| < max && p.tail != p.head
      invariant |bytes| <= max && Sound(p)
      invariant var r := TakeAll(p, max - |bytes|); TakeAll(p0, max) == (r.0, bytes + r.1)
      decreases max - |bytes|
    {
      BytesHeld(p, 0);
      ghost var r := TakeAll(TakeByte(p), max - |bytes| - 1);
      assert bytes + ([p.buf[p.tail]] + r.1) == bytes + [p.buf[p.tail]] + r.1;
      bytes := bytes + [p.buf[p.tail]];
      p := TakeByte(p);
    }
    assert bytes + [] == bytes;
  }

  // ----- the table of pipes -----

  datatype PipeCall =
    | Create | Write(fd: int, data: seq<Byte>) | Read(fd: int, max: nat) | Available(fd: int) | Close(fd: int)

  /** The number returned, and the bytes put into the caller's buffer. */
  datatype Reply = Reply(value: int, bytes: seq<Byte>)

  predicate AllSound(ps: seq<Pipe>) { |ps| == MAX_PIPES && forall i :: 0 <= i < |ps| ==> Sound(ps[i]) }

  function FirstFree(ps: seq<Pipe>, i: nat): (k: nat)
    requires i <= |ps|
    ensures i <= k <= |ps| && (k < |ps| ==> !ps[k].used)
    ensures forall j :: i <= j < k ==> ps[j].used
    decreases |ps| - i
  {
    if i == |ps| || !ps[i].used then i else FirstFree(ps, i + 1)
  }

  predicate Refused(ps: seq<Pipe>, fd: int) { !(0 <= PipeOf(fd) < |ps|) || !ps[PipeOf(fd)].used }

  function Empty(): Pipe { Pipe(true, seq(PIPE_BUF_SIZE, j => 0), 0, 0) }

  /** What a call does to the rings, and what it returns. */
  function PipeStep(ps: seq<Pipe>, c: PipeCall): (seq<Pipe>, Reply)
    requires AllSound(ps)
  {
    match c
    case Create =>
      var k := FirstFree(ps, 0);
      if k == |ps| then (ps, Reply(-1, [])) else (ps[k := Empty()], Reply(k, []))
    case Write(fd, data) =>
      if Refused(ps, fd) || !WriteEnd(fd) then (ps, Reply(-1, []))
      else var r := PutAll(ps[PipeOf(fd)], data); (ps[PipeOf(fd) := r.0], Reply(r.1, []))
    case Read(fd, max) =>
      if Refused(ps, fd) || WriteEnd(fd) then (ps, Reply(-1, []))
      else var r := TakeAll(ps[PipeOf(fd)], max); (ps[PipeOf(fd) := r.0], Reply(|r.1|, r.1))
    case Available(fd) =>
      if Refused(ps, fd) then (ps, Reply(0, []))
      else
        var p := ps[PipeOf(fd)];
        (ps, Reply((p.head - p.tail + PIPE_BUF_SIZE) % PIPE_BUF_SIZE, []))
    case Close(fd) =>
      if 0 <= PipeOf(fd) < |ps| then (ps[PipeOf(fd) := ps[PipeOf(fd)].(used := false)], Reply(0, []))
      else (ps, Reply(0, []))
  }

  class PipeTable {
    var pipes: seq<Pipe>

    ghost predicate Valid()
      reads this
    {
      AllSound(pipes)
    }

    constructor ()
      ensures pipes == NoPipes()
    {
      pipes := seq(MAX_PIPES, i => Pipe(false, seq(PIPE_BUF_SIZE, j => 0), 0, 0));
    }

    /** The first free slot, emptied, and its two descriptors. */
    method Create() returns (id: int, readFd: int, writeFd: int)
      requires Valid()
      modifies this
      ensures Valid()
      ensures (pipes, Reply(id, [])) == PipeStep(old(pipes), PipeCall.Create)
      ensures id != -1 ==> readFd == ReadFd(id) && writeFd == WriteFd(id)
    {
      StepIsQueue(pipes, PipeCall.Create);
      var i := 0;
      readFd, writeFd := 0, 0;
      while i < MAX_PIPES
        invariant 0 <= i <= MAX_PIPES && pipes == old(pipes) && FirstFree(pipes, 0) == FirstFree(pipes, i)
      {
        if !pipes[i].used {
          pipes := pipes[i := Pipe(true, seq(PIPE_BUF_SIZE, j => 0), 0, 0)];
          return i, PIPE_BASE_FD + i * 2, PIPE_BASE_FD + i * 2 + 1;
        }
        i := i + 1;
      }
      return -1, 0, 0;
    }

    method Write(fd: int, data: seq<Byte>) returns (written: int)
      requires Valid()
      modifies this
      ensures Valid()
      ensures (pipes, Reply(written, [])) == PipeStep(old(pipes), PipeCall.Write(fd, data))
    {
      StepIsQueue(pipes, PipeCall.Write(fd, data));
      var i := PipeOf(fd);
      if !(0 <= i < MAX_PIPES) || !WriteEnd(fd) || !pipes[i].used { return -1; }
      var p;
      p, written := Fill(pipes[i], data);
      pipes := pipes[i := p];
    }

    method Read(fd: int, max: nat) returns (count: int, bytes: seq<Byte>)
      requires Valid()
      modifies this
      ensures Valid()
      ensures (pipes, Reply(count, bytes)) == PipeStep(old(pipes), PipeCall.Read(fd, max))
    {
      StepIsQueue(pipes, PipeCall.Read(fd, max));
      var i := PipeOf(fd);
      if !(0 <= i < MAX_PIPES) || WriteEnd(fd) || !pipes[i].used { return -1, []; }
      var p;
      p, bytes := Drain(pipes[i], max);
      pipes := pipes[i := p];
      count := |bytes|;
    }

    method Available(fd: int) returns (n: nat)
      requires Valid()
      ensures (pipes, Reply(n, [])) == PipeStep(pipes, PipeCall.Available(fd))
    {
      var i := PipeOf(fd);
      if !(0 <= i < MAX_PIPES) || !pipes[i].used { return 0; }
      n := (pipes[i].head - pipes[i].tail + PIPE_BUF_SIZE) % PIPE_BUF_SIZE;
    }

    method Close(fd: int)
      requires Valid()
      modifies this
      ensures Valid()
      ensures pipes == PipeStep(old(pipes), PipeCall.Close(fd)).0
    {
      StepIsQueue(pipes, PipeCall.Close(fd));
      var i := PipeOf(fd);
      if 0 <= i < MAX_PIPES { pipes := pipes[i := pipes[i].(used := false)]; }
    }
  }

  // ----- pipes are queues -----

  function NoPipes(): seq<Pipe> { seq(MAX_PIPES, i => Pipe(false, seq(PIPE_BUF_SIZE, j => 0), 0, 0)) }

  /** What a table of pipes is to its users: closed ones, and open ones with the bytes that wait. */
  datatype Slot = Closed | Open(held: seq<Byte>)

  function Shown(p: Pipe): Slot
    requires Sound(p)
  {
    if p.used then Open(Held(p)) else Closed
  }

  function View(ps: seq<Pipe>): (v: seq<Slot>)
    requires AllSound(ps)
    ensures |v| == |ps| && forall i :: 0 <= i < |v| ==> v[i] == Shown(ps[i])
  {
    seq(|ps|, i requires 0 <= i < |ps| => Shown(ps[i]))
  }

  function FirstClosed(v: seq<Slot>, i: nat): (k: nat)
    requires i <= |v|
    ensures i <= k <= |v|
    decreases |v| - i
  {
    if i == |v| || v[i].Closed? then i else FirstClosed(v, i + 1)
  }

  /** The calls on queues of at most 255 bytes. */
  function QueueCall(v: seq<Slot>, c: PipeCall): (seq<Slot>, Reply) {
    match c
    case Create =>
      var k := FirstClosed(v, 0);
      if k == |v| then (v, Reply(-1, [])) else (v[k := Open([])], Reply(k, []))
    case Write(fd, data) =>
      var i := PipeOf(fd);
      if !(0 <= i < |v|) || v[i].Closed? || !WriteEnd(fd) then (v, Reply(-1, []))
      else
        var n := Accepted(v[i].held, data);
        (v[i := Open(v[i].held + data[..n])], Reply(n, []))
    case Read(fd, max) =>
      var i := PipeOf(fd);
      if !(0 <= i < |v|) || v[i].Closed? || WriteEnd(fd) then (v, Reply(-1, []))
      else
        var n := Min(max, |v[i].held|);
        (v[i := Open(v[i].held[n..])], Reply(n, v[i].held[..n]))
    case Available(fd) =>
      var i := PipeOf(fd);
      (v, Reply(if !(0 <= i < |v|) || v[i].Closed? then 0 else |v[i].held|, []))
    case Close(fd) =>
      var i := PipeOf(fd);
      (if 0 <= i < |v| then v[i := Closed] else v, Reply(0, []))
  }

  lemma {:induction false} SameFree(ps: seq<Pipe>, i: nat)
    requires AllSound(ps) && i <= |ps|
    ensures FirstClosed(View(ps), i) == FirstFree(ps, i)
    decreases |ps| - i
  {
    hide Held, View;
    if i < |ps| && ps[i].used { SameFree(ps, i + 1); }
  }

  lemma SlotChanged(ps: seq<Pipe>, i: nat, p: Pipe)
    requires AllSound(ps) && i < |ps| && Sound(p)
    ensures AllSound(ps[i := p]) && View(ps[i := p]) == View(ps)[i := Shown(p)]
  {
    hide Held;
  }

  /** Every call on the rings is the call on queues: same reply, and the table afterwards shows it. */
  lemma StepIsQueue(ps: seq<Pipe>, c: PipeCall)
    requires AllSound(ps)
    ensures AllSound(PipeStep(ps, c).0)
    ensures QueueCall(View(ps), c) == (View(PipeStep(ps, c).0), PipeStep(ps, c).1)
  {
    hide Held, View, PutAll, TakeAll, FirstFree, FirstClosed;
    match c
    case Create =>
      SameFree(ps, 0);
      EmptyHeld();
      if FirstFree(ps, 0) < |ps| { SlotChanged(ps, FirstFree(ps, 0), Empty()); }
    case Write(fd, data) =>
      if !Refused(ps, fd) {
        var p := ps[PipeOf(fd)];
        PutAllHeld(p, data);
        SlotChanged(ps, PipeOf(fd), PutAll(p, data).0);
      }
    case Read(fd, max) =>
      if !Refused(ps, fd) {
        var p := ps[PipeOf(fd)];
        TakeAllHeld(p, max);
        var r := TakeAll(p, max);
        assert Held(p)[..|r.1|] == r.1 && Held(p)[|r.1|..] == Held(r.0);
        SlotChanged(ps, PipeOf(fd), r.0);
      }
    case Available(fd) => if !Refused(ps, fd) { HeldLength(ps[PipeOf(fd)]); }
    case Close(fd) =>
      if 0 <= PipeOf(fd) < |ps| { SlotChanged(ps, PipeOf(fd), ps[PipeOf(fd)].(used := false)); }
  }

  lemma EmptyHeld()
    ensures Sound(Empty()) && Held(Empty()) == []
  {
  }

  lemma HeldLength(p: Pipe)
    requires Sound(p)
    ensures |Held(p)| == (p.head - p.tail + PIPE_BUF_SIZE) % PIPE_BUF_SIZE
  {
  }

  /** A run: the table afterwards and all replies. */
  function PipeRun(ps: seq<Pipe>, cs: seq<PipeCall>): (seq<Pipe>, seq<Reply>)
    requires AllSound(ps)
    decreases |cs|
  {
    if cs == [] then (ps, [])
    else
      StepIsQueue(ps, cs[0]);
      var r := PipeStep(ps, cs[0]);
      var rest := PipeRun(r.0, cs[1..]);
      (rest.0, [r.1] + rest.1)
  }

  function QueueRun(v: seq<Slot>, cs: seq<PipeCall>): (seq<Slot>, seq<Reply>)
    decreases |cs|
  {
    if cs == [] then (v, [])
    else
      var r := QueueCall(v, cs[0]);
      var rest := QueueRun(r.0, cs[1..]);
      (rest.0, [r.1] + rest.1)
  }

  /** Over any calls, whatever the descriptors, the rings answer like a table of 255-byte queues. */
  lemma {:induction false} PipesAreQueues(ps: seq<Pipe>, cs: seq<PipeCall>)
    requires AllSound(ps)
    ensures AllSound(PipeRun(ps, cs).0)
    ensures QueueRun(View(ps), cs) == (View(PipeRun(ps, cs).0), PipeRun(ps, cs).1)
    decreases |cs|
  {
    hide PipeStep, QueueCall, View;
    if cs != [] {
      StepIsQueue(ps, cs[0]);
      PipesAreQueues(PipeStep(ps, cs[0]).0, cs[1..]);
    }
  }

  /** What was accepted on a pipe and handed out of it since it was last created. */
  datatype Log = Log(accepted: seq<Byte>, delivered: seq<Byte>)

  /** Kept from the outside: from calls and replies alone. */
  function LogStep(ls: seq<Log>, c: PipeCall, r: Reply): (n: seq<Log>)
    ensures |n| == |ls|
  {
    match c
    case Create => if 0 <= r.value < |ls| then ls[r.value := Log([], [])] else ls
    case Write(fd, data) =>
      var i := PipeOf(fd);
      if 0 <= i < |ls| && 0 <= r.value <= |data|
      then ls[i := ls[i].(accepted := ls[i].accepted + data[..r.value])] else ls
    case Read(fd, _) =>
      var i := PipeOf(fd);
      if 0 <= i < |ls| && r.value >= 0 then ls[i := ls[i].(delivered := ls[i].delivered + r.bytes)] else ls
    case _ => ls
  }

  function LogRun(ls: seq<Log>, cs: seq<PipeCall>, rs: seq<Reply>): (n: seq<Log>)
    requires |cs| == |rs|
    ensures |n| == |ls|
    decreases |cs|
  {
    if cs == [] then ls else LogRun(LogStep(ls, cs[0], rs[0]), cs[1..], rs[1..])
  }

  /** In an open pipe the bytes that wait are those accepted and not yet handed out, at most 255. */
  predicate Tracked(ps: seq<Pipe>, ls: seq<Log>)
    requires AllSound(ps) && |ls| == |ps|
  {
    forall i :: 0 <= i < |ps| && ps[i].used ==> Waits(ps[i], ls[i])
  }

  predicate Waits(p: Pipe, l: Log)
    requires Sound(p)
  {
    l.delivered + Held(p) == l.accepted && |Held(p)| <= 255
  }

  lemma StepTracked(ps: seq<Pipe>, ls: seq<Log>, c: PipeCall)
    requires AllSound(ps) && |ls| == |ps| && Tracked(ps, ls)
    ensures AllSound(PipeStep(ps, c).0) && |PipeStep(ps, c).0| == |ps|
    ensures Tracked(PipeStep(ps, c).0, LogStep(ls, c, PipeStep(ps, c).1))
  {
    hide Held, PutAll, TakeAll, FirstFree, View, Ring;
    StepIsQueue(ps, c);
    match c
    case Create => EmptyHeld();
    case Write(fd, data) =>
      if !Refused(ps, fd) && WriteEnd(fd) {
        var p, l := ps[PipeOf(fd)], ls[PipeOf(fd)];
        assert Waits(p, l);
        PutAllHeld(p, data);
        var r := PutAll(p, data);
        BytesHeld(r.0, 0);
        assert l.delivered + (Held(p) + data[..r.1]) == l.delivered + Held(p) + data[..r.1];
      }
    case Read(fd, max) =>
      if !Refused(ps, fd) && !WriteEnd(fd) {
        var p, l := ps[PipeOf(fd)], ls[PipeOf(fd)];
        assert Waits(p, l);
        TakeAllHeld(p, max);
        var r := TakeAll(p, max);
        BytesHeld(r.0, 0);
        assert l.delivered + r.1 + Held(r.0) == l.delivered + (r.1 + Held(r.0));
      }
    case Available(_) =>
    case Close(_) =>
  }

  /** Over any calls, from any table: bytes leave each pipe in the order they were accepted on it since it
      was created, none lost, none twice, and at most 255 wait. */
  lemma {:induction false} FirstInFirstOut(ps: seq<Pipe>, ls: seq<Log>, cs: seq<PipeCall>)
    requires AllSound(ps) && |ls| == |ps| && Tracked(ps, ls)
    ensures var r := PipeRun(ps, cs);
            AllSound(r.0) && |r.1| == |cs| && |r.0| == |ps| && Tracked(r.0, LogRun(ls, cs, r.1))
    decreases |cs|
  {
    hide PipeStep, LogStep, Tracked;
    if cs != [] {
      StepTracked(ps, ls, cs[0]);
      var r := PipeStep(ps, cs[0]);
      FirstInFirstOut(r.0, LogStep(ls, cs[0], r.1), cs[1..]);
      var rest := PipeRun(r.0, cs[1..]);
      assert ([r.1] + rest.1)[1..] == rest.1;
    }
  }

  /** From the start: whatever an open pipe has handed out is a prefix of what it has accepted. */
  lemma PipesFromBoot(cs: seq<PipeCall>, i: nat)
    requires i < MAX_PIPES
    ensures AllSound(NoPipes())
    ensures var r := PipeRun(NoPipes(), cs);
            |r.1| == |cs| && |r.0| == 8 &&
            var l := LogRun(seq(MAX_PIPES, _ => Log([], [])), cs, r.1)[i];
            r.0[i].used ==> l.delivered <= l.accepted && |l.accepted| - |l.delivered| <= 255
  {
    hide PipeRun, Held, LogRun;
    FirstInFirstOut(NoPipes(), seq(MAX_PIPES, _ => Log([], [])), cs);
    var r := PipeRun(NoPipes(), cs);
    var l := LogRun(seq(MAX_PIPES, _ => Log([], [])), cs, r.1)[i];
    if r.0[i].used { assert Waits(r.0[i], l); }
  }

  // ----- pipes apart -----

  /** The slot a call works on; none if it is refused, fails or only looks. */
  function Target(ps: seq<Pipe>, c: PipeCall): int
    requires AllSound(ps)
  {
    match c
    case Create => FirstFree(ps, 0)
    case Write(fd, _) => PipeOf(fd)
    case Read(fd, _) => PipeOf(fd)
    case Available(_) => -1
    case Close(fd) => PipeOf(fd)
  }

  /** A call on one pipe by itself. */
  function SlotStep(p: Pipe, c: PipeCall): Pipe
    requires Sound(p)
  {
    match c
    case Create => Empty()
    case Write(fd, data) => if p.used && WriteEnd(fd) then PutAll(p, data).0 else p
    case Read(fd, max) => if p.used && !WriteEnd(fd) then TakeAll(p, max).0 else p
    case Available(_) => p
    case Close(_) => p.(used := false)
  }

  lemma SlotAlone(ps: seq<Pipe>, c: PipeCall, i: nat)
    requires AllSound(ps) && i < |ps|
    ensures AllSound(PipeStep(ps, c).0) && Sound(SlotStep(ps[i], c))
    ensures PipeStep(ps, c).0[i] == if Target(ps, c) == i then SlotStep(ps[i], c) else ps[i]
  {
    hide PutAll, TakeAll, FirstFree, Held, View, QueueCall;
    StepIsQueue(ps, c);
    EmptyHeld();
    match c
    case Write(fd, data) => PutAllHeld(ps[i], data);
    case Read(fd, max) => TakeAllHeld(ps[i], max);
    case _ =>
  }

  /** The calls of a run that work on pipe `i`. */
  function Only(ps: seq<Pipe>, cs: seq<PipeCall>, i: nat): seq<PipeCall>
    requires AllSound(ps)
    decreases |cs|
  {
    if cs == [] then []
    else
      StepIsQueue(ps, cs[0]);
      (if Target(ps, cs[0]) == i then [cs[0]] else []) + Only(PipeStep(ps, cs[0]).0, cs[1..], i)
  }

  function SlotRun(p: Pipe, cs: seq<PipeCall>): (r: Pipe)
    requires Sound(p)
    ensures Sound(r)
    decreases |cs|
  {
    if cs == [] then p else (SlotSound(p, cs[0]); SlotRun(SlotStep(p, cs[0]), cs[1..]))
  }

  lemma SlotSound(p: Pipe, c: PipeCall)
    requires Sound(p)
    ensures Sound(SlotStep(p, c))
  {
    hide PutAll, TakeAll, Held;
    EmptyHeld();
    match c
    case Write(fd, data) => PutAllHeld(p, data);
    case Read(fd, max) => TakeAllHeld(p, max);
    case _ =>
  }

  /** A pipe ends as if only the calls on it had been made. */
  lemma {:induction false} PipesApart(ps: seq<Pipe>, cs: seq<PipeCall>, i: nat)
    requires AllSound(ps) && i < |ps|
    ensures AllSound(PipeRun(ps, cs).0)
    ensures PipeRun(ps, cs).0[i] == SlotRun(ps[i], Only(ps, cs, i))
    decreases |cs|
  {
    hide PipeStep, SlotStep, Target;
    if cs != [] {
      StepIsQueue(ps, cs[0]);
      SlotAlone(ps, cs[0], i);
      var ps1 := PipeStep(ps, cs[0]).0;
      PipesApart(ps1, cs[1..], i);
      if Target(ps, cs[0]) == i {
        assert Only(ps, cs, i)[0] == cs[0] && Only(ps, cs, i)[1..] == Only(ps1, cs[1..], i);
      } else {
        assert Only(ps, cs, i) == Only(ps1, cs[1..], i);
      }
    }
  }

  // ----- message queues -----

  datatype Message = Message(data: seq<Byte>, sender: nat)

  datatype Queue = Queue(used: bool, msgs: seq<Message>, head: nat, tail: nat, count: nat)

  /** While a queue is in use its counter tells how far the head is past the tail; otherwise it is zero. */
  predicate Counted(q: Queue) {
    |q.msgs| == MAX_MSGS && q.head < MAX_MSGS && q.tail < MAX_MSGS && q.count <= MAX_MSGS &&
    if q.used then q.head == (q.tail + q.count) % MAX_MSGS else q.count == 0
  }

  /** `count` messages from the tail on. */
  function Waiting(q: Queue): (s: seq<Message>)
    requires Counted(q)
    ensures |s| == q.count
  {
    seq(q.count, i requires 0 <= i < q.count => q.msgs[(q.tail + i) % MAX_MSGS])
  }

  /** Over-long messages are cut to 64 bytes. */
  function Kept(data: seq<Byte>): seq<Byte> { if |data| > MSG_MAX_SIZE then data[..MSG_MAX_SIZE] else data }

  datatype MailCall =
    | MailCreate | MailSend(id: int, data: seq<Byte>, sender: nat) | MailRecv(id: int) | MailCount(id: int)
    | MailDestroy(id: int)

  /** The number returned, and the message put into the caller's buffer, if any. */
  datatype MailReply = MailReply(value: int, out: seq<Message>)

  predicate AllCounted(qs: seq<Queue>) { |qs| == MAX_QUEUES && forall i :: 0 <= i < |qs| ==> Counted(qs[i]) }

  function FreeQueue(qs: seq<Queue>, i: nat): (k: nat)
    requires i <= |qs|
    ensures i <= k <= |qs| && (k < |qs| ==> !qs[k].used)
    ensures forall j :: i <= j < k ==> qs[j].used
    decreases |qs| - i
  {
    if i == |qs| || !qs[i].used then i else FreeQueue(qs, i + 1)
  }

  function Put(q: Queue, m: Message): Queue
    requires Counted(q)
  {
    q.(msgs := q.msgs[q.head := m], head := (q.head + 1) % MAX_MSGS, count := q.count + 1)
  }

  function Take(q: Queue): Queue
    requires Counted(q) && q.count > 0
  {
    q.(tail := (q.tail + 1) % MAX_MSGS, count := q.count - 1)
  }

  lemma PutWaits(q: Queue, m: Message)
    requires Counted(q) && q.used && q.count < MAX_MSGS
    ensures Counted(Put(q, m)) && Waiting(Put(q, m)) == Waiting(q) + [m]
  {
    var r := Put(q, m);
    forall i | 0 <= i < r.count ensures Waiting(r)[i] == (Waiting(q) + [m])[i] {
      assert i < q.count ==> (q.tail + i) % MAX_MSGS != q.head;
    }
  }

  lemma TakeWaits(q: Queue)
    requires Counted(q) && q.used && q.count > 0
    ensures Counted(Take(q)) && [q.msgs[q.tail]] + Waiting(Take(q)) == Waiting(q)
  {
    var r := Take(q);
    forall i | 0 <= i < r.count ensures Waiting(r)[i] == Waiting(q)[i + 1] {
      assert (r.tail + i) % MAX_MSGS == (q.tail + i + 1) % MAX_MSGS;
    }
    assert Waiting(q)[0] == q.msgs[q.tail];
  }

  function Renewed(q: Queue): Queue { q.(used := true, head := 0, tail := 0, count := 0) }

  /** What a call does to the queues, and what it returns.  Nothing waiting is 0, like an empty message. */
  function MailStep(qs: seq<Queue>, c: MailCall): (seq<Queue>, MailReply)
    requires AllCounted(qs)
  {
    match c
    case MailCreate =>
      var k := FreeQueue(qs, 0);
      if k == |qs| then (qs, MailReply(-1, [])) else (qs[k := Renewed(qs[k])], MailReply(k, []))
    case MailSend(id, data, sender) =>
      if !(0 <= id < |qs|) || !qs[id].used || qs[id].count >= MAX_MSGS then (qs, MailReply(-1, []))
      else (qs[id := Put(qs[id], Message(Kept(data), sender))], MailReply(0, []))
    case MailRecv(id) =>
      if !(0 <= id < |qs|) then (qs, MailReply(-1, []))
      else if !qs[id].used || qs[id].count == 0 then (qs, MailReply(0, []))
      else
        var m := qs[id].msgs[qs[id].tail];
        (qs[id := Take(qs[id])], MailReply(|m.data|, [m]))
    case MailCount(id) => (qs, MailReply(if 0 <= id < |qs| then qs[id].count else 0, []))
    case MailDestroy(id) =>
      (if 0 <= id < |qs| then qs[id := qs[id].(used := false, count := 0)] else qs, MailReply(0, []))
  }

  class QueueTable {
    var queues: seq<Queue>

    ghost predicate Valid()
      reads this
    {
      AllCounted(queues)
    }

    constructor ()
      ensures queues == NoQueues()
    {
      queues := seq(MAX_QUEUES, i => Queue(false, seq(MAX_MSGS, j => Message([], 0)), 0, 0, 0));
    }

    method Create() returns (id: int)
      requires Valid()
      modifies this
      ensures Valid()
      ensures (queues, MailReply(id, [])) == MailStep(old(queues), MailCreate)
    {
      StepIsMail(queues, MailCreate);
      var i := 0;
      while i < MAX_QUEUES
        invariant 0 <= i <= MAX_QUEUES && queues == old(queues) && FreeQueue(queues, 0) == FreeQueue(queues, i)
      {
        if !queues[i].used {
          queues := queues[i := queues[i].(used := true, head := 0, tail := 0, count := 0)];
          return i;
        }
        i := i + 1;
      }
      return -1;
    }

    method Send(id: int, data: seq<Byte>, sender: nat) returns (r: int)
      requires Valid()
      modifies this
      ensures Valid()
      ensures (queues, MailReply(r, [])) == MailStep(old(queues), MailSend(id, data, sender))
    {
      StepIsMail(queues, MailSend(id, data, sender));
      if !(0 <= id < MAX_QUEUES) || !queues[id].used || queues[id].count >= MAX_MSGS { return -1; }
      var q := queues[id];
      var m := Message(if |data| > MSG_MAX_SIZE then data[..MSG_MAX_SIZE] else data, sender);
      queues := queues[id := q.(msgs := q.msgs[q.head := m], head := (q.head + 1) % MAX_MSGS, count := q.count + 1)];
      return 0;
    }

    method Recv(id: int) returns (r: int, out: seq<Message>)
      requires Valid()
      modifies this
      ensures Valid()
      ensures (queues, MailReply(r, out)) == MailStep(old(queues), MailRecv(id))
    {
      StepIsMail(queues, MailRecv(id));
      if !(0 <= id < MAX_QUEUES) { return -1, []; }
      var q := queues[id];
      if !q.used || q.count == 0 { return 0, []; }
      out := [q.msgs[q.tail]];
      queues := queues[id := q.(tail := (q.tail + 1) % MAX_MSGS, count := q.count - 1)];
      r := |out[0].data|;
    }

    method Count(id: int) returns (n: nat)
      requires Valid()
      ensures (queues, MailReply(n, [])) == MailStep(queues, MailCount(id))
    {
      n := if 0 <= id < MAX_QUEUES then queues[id].count else 0;
    }

    method Destroy(id: int)
      requires Valid()
      modifies this
      ensures Valid()
      ensures queues == MailStep(old(queues), MailDestroy(id)).0
    {
      StepIsMail(queues, MailDestroy(id));
      if 0 <= id < MAX_QUEUES { queues := queues[id := queues[id].(used := false, count := 0)]; }
    }
  }

  // ----- message queues are queues -----

  function NoQueues(): seq<Queue> {
    seq(MAX_QUEUES, i => Queue(false, seq(MAX_MSGS, j => Message([], 0)), 0, 0, 0))
  }

  datatype Box = Absent | Present(waiting: seq<Message>)

  function BoxOf(q: Queue): Box
    requires Counted(q)
  {
    if q.used then Present(Waiting(q)) else Absent
  }

  function Boxes(qs: seq<Queue>): (v: seq<Box>)
    requires AllCounted(qs)
    ensures |v| == |qs| && forall i :: 0 <= i < |v| ==> v[i] == BoxOf(qs[i])
  {
    seq(|qs|, i requires 0 <= i < |qs| => BoxOf(qs[i]))
  }

  function FirstAbsent(v: seq<Box>, i: nat): (k: nat)
    requires i <= |v|
    ensures i <= k <= |v|
    decreases |v| - i
  {
    if i == |v| || v[i].Absent? then i else FirstAbsent(v, i + 1)
  }

  /** The calls on queues of at most 16 messages. */
  function BoxCall(v: seq<Box>, c: MailCall): (seq<Box>, MailReply) {
    match c
    case MailCreate =>
      var k := FirstAbsent(v, 0);
      if k == |v| then (v, MailReply(-1, [])) else (v[k := Present([])], MailReply(k, []))
    case MailSend(id, data, sender) =>
      if !(0 <= id < |v|) || v[id].Absent? || |v[id].waiting| >= 16 then (v, MailReply(-1, []))
      else
        var m := Message(if |data| > 64 then data[..64] else data, sender);
        (v[id := Present(v[id].waiting + [m])], MailReply(0, []))
    case MailRecv(id) =>
      if !(0 <= id < |v|) then (v, MailReply(-1, []))
      else if v[id].Absent? || v[id].waiting == [] then (v, MailReply(0, []))
      else (v[id := Present(v[id].waiting[1..])], MailReply(|v[id].waiting[0].data|, [v[id].waiting[0]]))
    case MailCount(id) =>
      (v, MailReply(if 0 <= id < |v| && v[id].Present? then |v[id].waiting| else 0, []))
    case MailDestroy(id) => (if 0 <= id < |v| then v[id := Absent] else v, MailReply(0, []))
  }

  lemma {:induction false} SameFreeQueue(qs: seq<Queue>, i: nat)
    requires AllCounted(qs) && i <= |qs|
    ensures FirstAbsent(Boxes(qs), i) == FreeQueue(qs, i)
    decreases |qs| - i
  {
    hide Waiting, Boxes;
    if i < |qs| && qs[i].used { SameFreeQueue(qs, i + 1); }
  }

  lemma BoxChanged(qs: seq<Queue>, i: nat, q: Queue)
    requires AllCounted(qs) && i < |qs| && Counted(q)
    ensures AllCounted(qs[i := q]) && Boxes(qs[i := q]) == Boxes(qs)[i := BoxOf(q)]
  {
    hide Waiting, Counted;
  }

  lemma RenewedEmpty(q: Queue)
    requires Counted(q)
    ensures Counted(Renewed(q)) && BoxOf(Renewed(q)) == Present([])
  {
  }

  /** Every call on the rings is the call on queues: same reply, and the table afterwards shows it. */
  lemma StepIsMail(qs: seq<Queue>, c: MailCall)
    requires AllCounted(qs)
    ensures AllCounted(MailStep(qs, c).0)
    ensures BoxCall(Boxes(qs), c) == (Boxes(MailStep(qs, c).0), MailStep(qs, c).1)
  {
    hide Waiting, Boxes, FreeQueue, FirstAbsent, Put, Take, Renewed;
    match c
    case MailCreate =>
      SameFreeQueue(qs, 0);
      var k := FreeQueue(qs, 0);
      if k < |qs| {
        RenewedEmpty(qs[k]);
        BoxChanged(qs, k, Renewed(qs[k]));
      }
    case MailSend(id, data, sender) =>
      if 0 <= id < |qs| && qs[id].used && qs[id].count < MAX_MSGS {
        var m := Message(Kept(data), sender);
        PutWaits(qs[id], m);
        PutStays(qs[id], m);
        BoxChanged(qs, id, Put(qs[id], m));
      }
    case MailRecv(id) =>
      if 0 <= id < |qs| && qs[id].used && qs[id].count > 0 {
        TakeWaits(qs[id]);
        TakeStays(qs[id]);
        BoxChanged(qs, id, Take(qs[id]));
        assert Waiting(qs[id])[0] == qs[id].msgs[qs[id].tail] && Waiting(qs[id])[1..] == Waiting(Take(qs[id]));
      }
    case MailCount(_) =>
    case MailDestroy(id) => if 0 <= id < |qs| { BoxChanged(qs, id, qs[id].(used := false, count := 0)); }
  }

  lemma PutStays(q: Queue, m: Message)
    requires Counted(q)
    ensures Put(q, m).used == q.used
  {
  }

  lemma TakeStays(q: Queue)
    requires Counted(q) && q.count > 0
    ensures Take(q).used == q.used
  {
  }

  function MailRun(qs: seq<Queue>, cs: seq<MailCall>): (seq<Queue>, seq<MailReply>)
    requires AllCounted(qs)
    decreases |cs|
  {
    if cs == [] then (qs, [])
    else
      StepIsMail(qs, cs[0]);
      var r := MailStep(qs, cs[0]);
      var rest := MailRun(r.0, cs[1..]);
      (rest.0, [r.1] + rest.1)
  }

  function BoxRun(v: seq<Box>, cs: seq<MailCall>): (seq<Box>, seq<MailReply>)
    decreases |cs|
  {
    if cs == [] then (v, [])
    else
      var r := BoxCall(v, cs[0]);
      var rest := BoxRun(r.0, cs[1..]);
      (rest.0, [r.1] + rest.1)
  }

  /** Over any calls, whatever the numbers, the rings answer like a table of 16-message queues. */
  lemma {:induction false} QueuesAreQueues(qs: seq<Queue>, cs: seq<MailCall>)
    requires AllCounted(qs)
    ensures AllCounted(MailRun(qs, cs).0)
    ensures BoxRun(Boxes(qs), cs) == (Boxes(MailRun(qs, cs).0), MailRun(qs, cs).1)
    decreases |cs|
  {
    hide MailStep, BoxCall, Boxes;
    if cs != [] {
      StepIsMail(qs, cs[0]);
      QueuesAreQueues(MailStep(qs, cs[0]).0, cs[1..]);
    }
  }

  /** What was sent to a queue and received from it since it was last created. */
  datatype Post = Post(sent: seq<Message>, received: seq<Message>)

  function PostStep(ls: seq<Post>, c: MailCall, r: MailReply): (n: seq<Post>)
    ensures |n| == |ls|
  {
    match c
    case MailCreate => if 0 <= r.value < |ls| then ls[r.value := Post([], [])] else ls
    case MailSend(id, data, sender) =>
      if 0 <= id < |ls| && r.value == 0
      then ls[id := ls[id].(sent := ls[id].sent + [Message(Kept(data), sender)])] else ls
    case MailRecv(id) =>
      if 0 <= id < |ls| then ls[id := ls[id].(received := ls[id].received + r.out)] else ls
    case _ => ls
  }

  function PostRun(ls: seq<Post>, cs: seq<MailCall>, rs: seq<MailReply>): (n: seq<Post>)
    requires |cs| == |rs|
    ensures |n| == |ls|
    decreases |cs|
  {
    if cs == [] then ls else PostRun(PostStep(ls, cs[0], rs[0]), cs[1..], rs[1..])
  }

  /** In a queue in use the messages that wait are those sent and not yet received. */
  predicate Delivered(qs: seq<Queue>, ls: seq<Post>)
    requires AllCounted(qs) && |ls| == |qs|
  {
    forall i :: 0 <= i < |qs| && qs[i].used ==> Between(qs[i], ls[i])
  }

  predicate Between(q: Queue, l: Post)
    requires Counted(q)
  {
    l.received + Waiting(q) == l.sent
  }

  lemma StepDelivered(qs: seq<Queue>, ls: seq<Post>, c: MailCall)
    requires AllCounted(qs) && |ls| == |qs| && Delivered(qs, ls)
    ensures AllCounted(MailStep(qs, c).0) && |MailStep(qs, c).0| == |qs|
    ensures Delivered(MailStep(qs, c).0, PostStep(ls, c, MailStep(qs, c).1))
  {
    hide Waiting, FreeQueue, Put, Take, Renewed, Boxes, BoxCall;
    StepIsMail(qs, c);
    match c
    case MailCreate =>
      var k := FreeQueue(qs, 0);
      if k < |qs| { RenewedEmpty(qs[k]); RenewedUsed(qs[k]); }
    case MailSend(id, data, sender) =>
      if 0 <= id < |qs| && qs[id].used && qs[id].count < MAX_MSGS {
        var m := Message(Kept(data), sender);
        assert Between(qs[id], ls[id]);
        PutWaits(qs[id], m);
        assert ls[id].received + (Waiting(qs[id]) + [m]) == ls[id].received + Waiting(qs[id]) + [m];
      }
    case MailRecv(id) =>
      if 0 <= id < |qs| {
        assert qs[id].used ==> Between(qs[id], ls[id]);
        assert ls[id].received + [] == ls[id].received;
        if qs[id].used && qs[id].count > 0 {
          TakeWaits(qs[id]);
          var m := qs[id].msgs[qs[id].tail];
          assert ls[id].received + [m] + Waiting(Take(qs[id])) == ls[id].received + ([m] + Waiting(Take(qs[id])));
        }
      }
    case MailCount(_) =>
    case MailDestroy(_) =>
  }

  lemma RenewedUsed(q: Queue)
    ensures Renewed(q).used
  {
  }

  /** Over any calls, from any table: messages leave each queue whole and in the order they were sent to it
      since it was created, none lost, none twice, and the counter is the number that wait. */
  lemma {:induction false} MessagesInOrder(qs: seq<Queue>, ls: seq<Post>, cs: seq<MailCall>)
    requires AllCounted(qs) && |ls| == |qs| && Delivered(qs, ls)
    ensures var r := MailRun(qs, cs);
            AllCounted(r.0) && |r.1| == |cs| && |r.0| == |qs| && Delivered(r.0, PostRun(ls, cs, r.1))
    decreases |cs|
  {
    hide MailStep, PostStep, Delivered;
    if cs != [] {
      StepDelivered(qs, ls, cs[0]);
      var r := MailStep(qs, cs[0]);
      MessagesInOrder(r.0, PostStep(ls, cs[0], r.1), cs[1..]);
      var rest := MailRun(r.0, cs[1..]);
      assert ([r.1] + rest.1)[1..] == rest.1;
    }
  }

  lemma MailFromBoot(cs: seq<MailCall>, i: nat)
    requires i < MAX_QUEUES
    ensures AllCounted(NoQueues())
    ensures var r := MailRun(NoQueues(), cs);
            |r.1| == |cs| && |r.0| == 8 &&
            var l := PostRun(seq(MAX_QUEUES, _ => Post([], [])), cs, r.1)[i];
            r.0[i].used ==> l.received <= l.sent && |l.sent| - |l.received| == r.0[i].count <= 16
  {
    hide MailRun, Waiting, PostRun;
    MessagesInOrder(NoQueues(), seq(MAX_QUEUES, _ => Post([], [])), cs);
    var r := MailRun(NoQueues(), cs);
    var l := PostRun(seq(MAX_QUEUES, _ => Post([], [])), cs, r.1)[i];
    if r.0[i].used { assert Between(r.0[i], l); }
  }

  /** A receive that returns 0 may have found nothing, or have taken a message of length zero. */
  lemma ZeroReply(qs: seq<Queue>, id: int)
    requires AllCounted(qs) && 0 <= id < MAX_QUEUES
    ensures MailStep(qs, MailRecv(id)).1.value == 0
       <==> !qs[id].used || Waiting(qs[id]) == [] || Waiting(qs[id])[0].data == []
    ensures qs[id].used && Waiting(qs[id]) != [] ==>
              |Boxes(MailStep(qs, MailRecv(id)).0)[id].waiting| == qs[id].count - 1
  {
    StepIsMail(qs, MailRecv(id));
  }

  // ----- message queues apart -----

  function MailTarget(qs: seq<Queue>, c: MailCall): int
    requires AllCounted(qs)
  {
    match c
    case MailCreate => FreeQueue(qs, 0)
    case MailSend(id, _, _) => id
    case MailRecv(id) => id
    case MailCount(_) => -1
    case MailDestroy(id) => id
  }

  /** A call on one queue by itself. */
  function BoxStep(q: Queue, c: MailCall): Queue
    requires Counted(q)
  {
    match c
    case MailCreate => Renewed(q)
    case MailSend(_, data, sender) =>
      if q.used && q.count < MAX_MSGS then Put(q, Message(Kept(data), sender)) else q
    case MailRecv(_) => if q.used && q.count > 0 then Take(q) else q
    case MailCount(_) => q
    case MailDestroy(_) => q.(used := false, count := 0)
  }

  lemma BoxStepCounted(q: Queue, c: MailCall)
    requires Counted(q)
    ensures Counted(BoxStep(q, c))
  {
    hide Put, Take, Renewed, Waiting;
    match c
    case MailCreate => RenewedEmpty(q);
    case MailSend(_, data, sender) => if q.used && q.count < MAX_MSGS { PutWaits(q, Message(Kept(data), sender)); }
    case MailRecv(_) => if q.used && q.count > 0 { TakeWaits(q); }
    case _ =>
  }

  lemma BoxAlone(qs: seq<Queue>, c: MailCall, i: nat)
    requires AllCounted(qs) && i < |qs|
    ensures AllCounted(MailStep(qs, c).0) && Counted(BoxStep(qs[i], c))
    ensures MailStep(qs, c).0[i] == if MailTarget(qs, c) == i then BoxStep(qs[i], c) else qs[i]
  {
    hide Put, Take, Renewed, FreeQueue, Waiting, Boxes, BoxCall;
    StepIsMail(qs, c);
    BoxStepCounted(qs[i], c);
  }

  /** The calls of a run that work on queue `i`. */
  function MailOnly(qs: seq<Queue>, cs: seq<MailCall>, i: nat): seq<MailCall>
    requires AllCounted(qs)
    decreases |cs|
  {
    if cs == [] then []
    else
      StepIsMail(qs, cs[0]);
      (if MailTarget(qs, cs[0]) == i then [cs[0]] else []) + MailOnly(MailStep(qs, cs[0]).0, cs[1..], i)
  }

  function BoxOnlyRun(q: Queue, cs: seq<MailCall>): (r: Queue)
    requires Counted(q)
    ensures Counted(r)
    decreases |cs|
  {
    if cs == [] then q else (BoxStepCounted(q, cs[0]); BoxOnlyRun(BoxStep(q, cs[0]), cs[1..]))
  }

  /** A queue ends as if only the calls on it had been made. */
  lemma {:induction false} QueuesApart(qs: seq<Queue>, cs: seq<MailCall>, i: nat)
    requires AllCounted(qs) && i < |qs|
    ensures AllCounted(MailRun(qs, cs).0)
    ensures MailRun(qs, cs).0[i] == BoxOnlyRun(qs[i], MailOnly(qs, cs, i))
    decreases |cs|
  {
    hide MailStep, BoxStep, MailTarget, Boxes, BoxCall;
    if cs != [] {
      StepIsMail(qs, cs[0]);
      BoxAlone(qs, cs[0], i);
      var qs1 := MailStep(qs, cs[0]).0;
      QueuesApart(qs1, cs[1..], i);
      if MailTarget(qs, cs[0]) == i {
        assert MailOnly(qs, cs, i)[0] == cs[0] && MailOnly(qs, cs, i)[1..] == MailOnly(qs1, cs[1..], i);
      } else {
        assert MailOnly(qs, cs, i) == MailOnly(qs1, cs[1..], i);
      }
    }
  }
}
