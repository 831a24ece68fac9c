/**
 The request buffer shared with the simulator: messages, their bytes, and what
 the scan of an answered buffer delivers.
 */
module IpcMessages {
  type Byte = b: nat | b < 256

  const MAX_SIZE: nat := 0x7F00
  /** The file mapping is a little larger than the messages may grow. */
  const VIEW_SIZE: nat := MAX_SIZE + 256
  const READ_HEADER: nat := 16
  const WRITE_HEADER: nat := 12
  const MAX_MSGS: nat := 2032 // MAX_SIZE / READ_HEADER
  const READ_ID: nat := 1
  const WRITE_ID: nat := 2
  const DWORD_LIMIT: nat := 0x1_0000_0000

  /** A place in the client's memory; 0 is the null pointer. */
  type Address = nat

  datatype Message =
    | Read(offset: nat, size: nat, iDest: nat, dest: Address)
    | Write(offset: nat, data: seq<Byte>)

  /** The number of payload bytes. */
  function Payload(m: Message): nat {
    match m
    case Read(_, size, _, _) => size
    case Write(_, data) => |data|
  }

  function Header(m: Message): nat {
    if m.Read? then READ_HEADER else WRITE_HEADER
  }

  predicate WellFormed(m: Message) {
    m.offset < DWORD_LIMIT && Payload(m) < DWORD_LIMIT && (m.Read? ==> m.iDest < DWORD_LIMIT)
  }

  predicate AllWellFormed(q: seq<Message>) {
    forall m <- q :: WellFormed(m)
  }

  // ---------- bytes ----------

  /** Four bytes, least significant first. */
  function Dword(n: nat): (b: seq<Byte>)
    requires n < DWORD_LIMIT
    ensures |b| == 4
  {
    var a := n / 256;
    var c := a / 256;
    [n % 256, a % 256, c % 256, c / 256]
  }

  /** The number that little-endian bytes stand for. */
  function FromBytes(b: seq<Byte>): nat {
    if b == [] then 0 else b[0] + 256 * FromBytes(b[1..])
  }

  function DwordAt(b: seq<Byte>, i: nat): nat
    requires i + 4 <= |b|
  {
    FromBytes(b[i..i + 4])
  }

  lemma FourBytes(w: seq<Byte>)
    requires |w| == 4
    ensures FromBytes(w) == (w[0] as int) + 256 * ((w[1] as int) + 256 * ((w[2] as int) + 256 * (w[3] as int)))
  {
    assert w[1..][1..] == w[2..] && w[2..][1..] == w[3..] && w[3..][1..] == [];
    assert FromBytes(w[3..]) == w[3];
    assert FromBytes(w[2..]) == w[2] + 256 * FromBytes(w[3..]);
    assert FromBytes(w[1..]) == w[1] + 256 * FromBytes(w[2..]);
  }

  lemma DwordRoundTrip(n: nat, b: seq<Byte>, i: nat)
    requires n < DWORD_LIMIT && i + 4 <= |b| && b[i..i + 4] == Dword(n)
    ensures DwordAt(b, i) == n
  {
    FourBytes(Dword(n));
  }

  function Zeros(n: nat): (b: seq<Byte>)
    ensures |b| == n
  {
    seq(n, i => 0)
  }

  function HeaderBytes(m: Message): (b: seq<Byte>)
    requires WellFormed(m)
    ensures |b| == Header(m)
  {
    match m
    case Read(offset, size, iDest, _) => Dword(READ_ID) + Dword(offset) + Dword(size) + Dword(iDest)
    case Write(offset, data) => Dword(WRITE_ID) + Dword(offset) + Dword(|data|)
  }

  /** A message as it is queued: a Read's slot is zeroed, a Write carries its data. */
  function Bytes(m: Message): (b: seq<Byte>)
    requires WellFormed(m)
    ensures |b| == Header(m) + Payload(m)
  {
    HeaderBytes(m) + if m.Read? then Zeros(m.size) else m.data
  }

  /** The queued messages, one after the other. */
  function Serialize(q: seq<Message>): (b: seq<Byte>)
    requires AllWellFormed(q)
  {
    if q == [] then [] else Serialize(q[..|q| - 1]) + Bytes(q[|q| - 1])
  }

  /** Where the message with index `k` starts. */
  function Start(q: seq<Message>, k: nat): nat
    requires k <= |q|
  {
    if k == 0 then 0 else Start(q, k - 1) + Header(q[k - 1]) + Payload(q[k - 1])
  }

  lemma {:induction false} StartIsPrefix(q: seq<Message>, more: seq<Message>, k: nat)
    requires k <= |q|
    ensures Start(q + more, k) == Start(q, k)
  {
    if k > 0 {
      StartIsPrefix(q, more, k - 1);
    }
  }

  lemma {:induction false} StartGrows(q: seq<Message>, j: nat, k: nat)
    requires j < k <= |q|
    ensures Start(q, j) + Header(q[j]) + Payload(q[j]) <= Start(q, k)
  {
    if j < k - 1 {
      StartGrows(q, j, k - 1);
    }
  }

  lemma {:induction false} SerializedLength(q: seq<Message>)
    requires AllWellFormed(q)
    ensures |Serialize(q)| == Start(q, |q|)
  {
    if q != [] {
      var front, last := q[..|q| - 1], q[|q| - 1];
      SerializedLength(front);
      assert q == front + [last];
      StartIsPrefix(front, [last], |front|);
    }
  }

  /** Queueing one more message appends its bytes. */
  lemma SerializeAppend(q: seq<Message>, m: Message)
    requires AllWellFormed(q) && WellFormed(m)
    ensures Serialize(q + [m]) == Serialize(q) + Bytes(m)
    ensures Start(q + [m], |q| + 1) == Start(q, |q|) + Header(m) + Payload(m)
  {
    assert (q + [m])[..|q|] == q;
    StartIsPrefix(q, [m], |q|);
  }

  /** Each message's bytes stand at its start. */
  lemma {:induction false} SerializedAt(q: seq<Message>, k: nat)
    requires AllWellFormed(q) && k < |q|
    ensures Start(q, k) + Header(q[k]) + Payload(q[k]) <= |Serialize(q)|
    ensures Serialize(q)[Start(q, k)..Start(q, k) + Header(q[k]) + Payload(q[k])] == Bytes(q[k])
  {
    hide HeaderBytes, Bytes;
    var front, last := q[..|q| - 1], q[|q| - 1];
    assert q == front + [last];
    StartIsPrefix(front, [last], k);
    SerializedLength(front);
    if k < |front| {
      SerializedAt(front, k);
      var from, to := Start(q, k), Start(q, k) + Header(q[k]) + Payload(q[k]);
      assert Serialize(q)[from..to] == Serialize(front)[from..to];
    }
  }

  // ---------- what is sent, byte by byte ----------

  /** A 32-bit number stands at this place, least significant byte first. */
  predicate Holds32(b: seq<Byte>, at: nat, n: nat) {
    && at + 4 <= |b|
    && n == (b[at] as int) + 0x100 * (b[at + 1] as int)
            + 0x1_0000 * (b[at + 2] as int) + 0x100_0000 * (b[at + 3] as int)
  }

  /** The request at this place of a buffer: what it is, where it starts in the simulator, and how long it is. */
  ghost predicate Asks(b: seq<Byte>, at: nat, m: Message) {
    match m
    case Read(offset, size, iDest, _) =>
      && Holds32(b, at, 1) && Holds32(b, at + 4, offset) && Holds32(b, at + 8, size) && Holds32(b, at + 12, iDest)
      && at + 16 + size <= |b| && forall i :: at + 16 <= i < at + 16 + size ==> b[i] == 0
    case Write(offset, data) =>
      && Holds32(b, at, 2) && Holds32(b, at + 4, offset) && Holds32(b, at + 8, |data|)
      && at + 12 + |data| <= |b| && b[at + 12..at + 12 + |data|] == data
  }

  /** A buffer asks for exactly these requests, one right after the other, and then ends with a zero. */
  ghost predicate AsksFor(b: seq<Byte>, q: seq<Message>, at: nat)
    decreases |q|
  {
    if q == [] then Holds32(b, at, 0)
    else && Asks(b, at, q[0])
         && AsksFor(b, q[1..], at + (match q[0]
                                     case Read(_, size, _, _) => 16 + size
                                     case Write(_, data) => 12 + |data|))
  }

  lemma DwordHolds(n: nat)
    requires n < DWORD_LIMIT
    ensures Holds32(Dword(n), 0, n)
  {
  }

  lemma HoldsAt(b: seq<Byte>, at: nat, part: seq<Byte>, i: nat, n: nat)
    requires at + |part| <= |b| && b[at..at + |part|] == part && Holds32(part, i, n)
    ensures Holds32(b, at + i, n)
  {
    assert forall k :: 0 <= k < |part| ==> b[at + k] == b[at..at + |part|][k] == part[k];
  }

  /** A message's own bytes ask for it. */
  lemma BytesAsk(m: Message)
    requires WellFormed(m)
    ensures Asks(Bytes(m), 0, m)
  {
    hide Dword, Holds32;
    match m {
      case Read(offset, size, iDest, _) =>
        var b := Bytes(m);
        DwordHolds(1);
        DwordHolds(offset);
        DwordHolds(size);
        DwordHolds(iDest);
        assert b[0..4] == Dword(1) && b[4..8] == Dword(offset) && b[8..12] == Dword(size) && b[12..16] == Dword(iDest);
        HoldsAt(b, 0, Dword(1), 0, 1);
        HoldsAt(b, 4, Dword(offset), 0, offset);
        HoldsAt(b, 8, Dword(size), 0, size);
        HoldsAt(b, 12, Dword(iDest), 0, iDest);
      case Write(offset, data) =>
        var b := Bytes(m);
        DwordHolds(2);
        DwordHolds(offset);
        DwordHolds(|data|);
        assert b[0..4] == Dword(2) && b[4..8] == Dword(offset) && b[8..12] == Dword(|data|);
        HoldsAt(b, 0, Dword(2), 0, 2);
        HoldsAt(b, 4, Dword(offset), 0, offset);
        HoldsAt(b, 8, Dword(|data|), 0, |data|);
    }
  }

  /** The same bytes elsewhere ask for the same. */
  lemma AsksThere(b: seq<Byte>, at: nat, m: Message)
    requires WellFormed(m) && at + Header(m) + Payload(m) <= |b|
    requires b[at..at + Header(m) + Payload(m)] == Bytes(m)
    ensures Asks(b, at, m)
  {
    hide Holds32, Bytes;
    var part := Bytes(m);
    BytesAsk(m);
    assert forall k :: 0 <= k < |part| ==> b[at + k] == b[at..at + |part|][k] == part[k];
    HoldsAt(b, at, part, 0, if m.Read? then 1 else 2);
    HoldsAt(b, at, part, 4, m.offset);
    HoldsAt(b, at, part, 8, Payload(m));
    match m {
      case Read(_, _, iDest, _) => HoldsAt(b, at, part, 12, iDest);
      case Write(_, data) => assert b[at + 12..at + 12 + |data|] == part[12..12 + |data|];
    }
  }

  // ---------- the answer ----------

  /** The buffer as sent: the messages, then a zero word. */
  ghost predicate Encodes(b: seq<Byte>, q: seq<Message>) {
    && AllWellFormed(q) && |b| == VIEW_SIZE && Start(q, |q|) + 4 <= MAX_SIZE
    && b[..Start(q, |q|)] == Serialize(q)
    && DwordAt(b, Start(q, |q|)) == 0
  }

  /** The header of message `k` can still be read from the buffer. */
  ghost predicate HeaderIntact(q: seq<Message>, b: seq<Byte>, k: nat)
    requires k < |q|
  {
    var at := Start(q, k);
    && at + Header(q[k]) + Payload(q[k]) + 4 <= |b|
    && DwordAt(b, at) == (if q[k].Read? then READ_ID else WRITE_ID)
    && DwordAt(b, at + 8) == Payload(q[k])
    && (q[k].Read? ==> DwordAt(b, at + 12) == q[k].iDest)
  }

  /** The first `m` messages can be read, and what follows them is none. */
  ghost predicate Readable(q: seq<Message>, b: seq<Byte>, m: nat) {
    && m <= |q|
    && (forall k :: 0 <= k < m ==> HeaderIntact(q, b, k))
    && Start(q, m) + 4 <= |b|
    && DwordAt(b, Start(q, m)) != READ_ID && DwordAt(b, Start(q, m)) != WRITE_ID
  }

  /** The zero word that ends the messages. */
  lemma EndsWithZero(b: seq<Byte>, at: nat)
    requires at + 4 <= |b| && DwordAt(b, at) == 0
    ensures Holds32(b, at, 0)
  {
    FourBytes(b[at..at + 4]);
  }

  /** Where the next message starts, in bytes. */
  lemma StartsAfter(q: seq<Message>, k: nat)
    requires k < |q|
    ensures Start(q, 0) == 0
    ensures Start(q, k + 1)
         == Start(q, k) + match q[k] case Read(_, size, _, _) => 16 + size case Write(_, data) => 12 + |data|
  {
  }

  lemma SentAsksEach(sent: seq<Byte>, q: seq<Message>, k: nat)
    requires Encodes(sent, q) && k < |q|
    ensures Asks(sent, Start(q, k), q[k])
  {
    hide Holds32, Bytes, Asks, DwordAt, Start, Serialize;
    var at, n := Start(q, k), Header(q[k]) + Payload(q[k]);
    SerializedLength(q);
    SerializedAt(q, k);
    assert sent[at..at + n] == sent[..Start(q, |q|)][at..at + n];
    assert q[k] in q;
    AsksThere(sent, at, q[k]);
  }

  lemma SentEnds(sent: seq<Byte>, q: seq<Message>)
    requires Encodes(sent, q)
    ensures Holds32(sent, Start(q, |q|), 0)
  {
    EndsWithZero(sent, Start(q, |q|));
  }

  lemma {:induction false} EncodedAsks(sent: seq<Byte>, q: seq<Message>, k: nat)
    requires Encodes(sent, q) && k <= |q|
    ensures AsksFor(sent, q[k..], Start(q, k))
    decreases |q| - k
  {
    hide Encodes, Asks, Holds32, Start;
    if k == |q| {
      SentEnds(sent, q);
    } else {
      SentAsksEach(sent, q, k);
      StartsAfter(q, k);
      EncodedAsks(sent, q, k + 1);
      assert q[k..][1..] == q[k + 1..];
    }
  }

  /** A buffer as it is sent asks the simulator for exactly the queued requests. */
  lemma SentAsks(sent: seq<Byte>, q: seq<Message>)
    requires Encodes(sent, q)
    ensures AsksFor(sent, q, 0)
  {
    EncodedAsks(sent, q, 0);
    assert q[0..] == q && Start(q, 0) == 0;
  }

  /** Position `i` lies in the slot of a Read. */
  ghost predicate InReadSlot(q: seq<Message>, i: nat) {
    exists k :: 0 <= k < |q| && q[k].Read? && Start(q, k) + READ_HEADER <= i < Start(q, k) + READ_HEADER + q[k].size
  }

  /** The simulator filled in Read slots and changed nothing else. */
  ghost predicate FillsSlots(q: seq<Message>, sent: seq<Byte>, b: seq<Byte>) {
    && |b| == |sent|
    && forall i :: 0 <= i < |sent| && !InReadSlot(q, i) ==> b[i] == sent[i]
  }

  /** No slot reaches into a header or the final zero word. */
  lemma OutsideSlot(q: seq<Message>, k: nat, i: nat, j: nat)
    requires k <= |q| && Start(q, k) <= i && (k < |q| ==> i < Start(q, k) + Header(q[k]))
    requires j < |q| && q[j].Read?
    ensures !(Start(q, j) + READ_HEADER <= i < Start(q, j) + READ_HEADER + q[j].size)
  {
    if j < k {
      StartGrows(q, j, k);
    } else if k < j {
      StartGrows(q, k, j);
    }
  }

  lemma OutsideSlots(q: seq<Message>, k: nat, i: nat)
    requires k <= |q| && Start(q, k) <= i && (k < |q| ==> i < Start(q, k) + Header(q[k]))
    ensures !InReadSlot(q, i)
  {
    forall j | 0 <= j < |q| && q[j].Read?
      ensures !(Start(q, j) + READ_HEADER <= i < Start(q, j) + READ_HEADER + q[j].size)
    {
      OutsideSlot(q, k, i, j);
    }
  }

  /** A simulator that only fills in slots leaves every message readable. */
  lemma FilledIsReadable(q: seq<Message>, sent: seq<Byte>, b: seq<Byte>)
    requires Encodes(sent, q) && FillsSlots(q, sent, b)
    ensures Readable(q, b, |q|)
  {
    SerializedLength(q);
    forall k | 0 <= k < |q| ensures HeaderIntact(q, b, k) {
      FilledHeaderIsIntact(q, sent, b, k);
    }
    var end := Start(q, |q|);
    forall i | end <= i < end + 4 ensures b[i] == sent[i] {
      OutsideSlots(q, |q|, i);
    }
  }

  lemma BytesHeader(m: Message, j: nat)
    requires WellFormed(m) && j < Header(m)
    ensures Bytes(m)[j] == HeaderBytes(m)[j]
  {
  }

  /** The sent buffer holds each header at its message's start. */
  lemma SentHeader(q: seq<Message>, sent: seq<Byte>, k: nat, j: nat)
    requires Encodes(sent, q) && k < |q| && j < Header(q[k])
    ensures Start(q, k) + Header(q[k]) + Payload(q[k]) <= Start(q, |q|)
    ensures sent[Start(q, k) + j] == HeaderBytes(q[k])[j]
  {
    hide DwordAt, Start, Bytes;
    var at, body := Start(q, k), Bytes(q[k]);
    SerializedLength(q);
    SerializedAt(q, k);
    BytesHeader(q[k], j);
    assert sent[at + j] == Serialize(q)[at + j] == Serialize(q)[at..at + |body|][j];
  }

  lemma FilledHeaderIsIntact(q: seq<Message>, sent: seq<Byte>, b: seq<Byte>, k: nat)
    requires Encodes(sent, q) && FillsSlots(q, sent, b) && k < |q|
    ensures HeaderIntact(q, b, k)
  {
    hide DwordAt, HeaderBytes, Serialize, Start, InReadSlot;
    SentHeader(q, sent, k, 0);
    forall j | 0 <= j < Header(q[k]) ensures b[Start(q, k) + j] == HeaderBytes(q[k])[j] {
      OutsideSlots(q, k, Start(q, k) + j);
      SentHeader(q, sent, k, j);
    }
    HeaderReads(q[k], b, Start(q, k));
  }

  lemma HeaderReads(m: Message, b: seq<Byte>, at: nat)
    requires WellFormed(m) && at + Header(m) <= |b|
    requires forall j :: 0 <= j < Header(m) ==> b[at + j] == HeaderBytes(m)[j]
    ensures DwordAt(b, at) == (if m.Read? then READ_ID else WRITE_ID)
    ensures DwordAt(b, at + 8) == Payload(m)
    ensures m.Read? ==> DwordAt(b, at + 12) == m.iDest
  {
    var h := HeaderBytes(m);
    DwordRoundTrip(if m.Read? then READ_ID else WRITE_ID, h, 0);
    DwordRoundTrip(Payload(m), h, 8);
    if m.Read? {
      DwordRoundTrip(m.iDest, h, 12);
    }
    assert b[at..at + 4] == h[0..4] && b[at + 8..at + 12] == h[8..12];
    if m.Read? {
      assert b[at + 12..at + 16] == h[12..16];
    }
  }

  // ---------- delivery ----------

  /** The memory with `bytes` stored at `dest`. */
  function Store(mem: seq<Byte>, dest: Address, bytes: seq<Byte>): (r: seq<Byte>)
    requires dest + |bytes| <= |mem|
    ensures |r| == |mem|
  {
    mem[..dest] + bytes + mem[dest + |bytes|..]
  }

  /** A Read whose data is wanted. */
  predicate Wanted(m: Message) {
    m.Read? && m.dest != 0 && m.size != 0
  }

  /** Every Read's destination has room. */
  predicate Fits(q: seq<Message>, memory: nat) {
    forall m <- q :: Wanted(m) ==> m.dest + m.size <= memory
  }

  /** The slot of message `k` in the answered buffer. */
  function Slot(q: seq<Message>, b: seq<Byte>, k: nat): (r: seq<Byte>)
    requires k < |q| && Start(q, k) + Header(q[k]) + Payload(q[k]) <= |b|
    ensures |r| == Payload(q[k])
  {
    var at := Start(q, k) + Header(q[k]);
    b[at..at + Payload(q[k])]
  }

  /** The first `m` messages lie inside the buffer. */
  ghost predicate SlotsInside(q: seq<Message>, b: seq<Byte>, m: nat)
    requires m <= |q|
  {
    forall k :: 0 <= k < m ==> Start(q, k) + Header(q[k]) + Payload(q[k]) <= |b|
  }

  /** The memory after the slots of the first `m` messages have been copied out, in order. */
  ghost function Deliver(mem: seq<Byte>, q: seq<Message>, b: seq<Byte>, m: nat): (r: seq<Byte>)
    requires m <= |q| && Fits(q, |mem|)
    requires SlotsInside(q, b, m)
    ensures |r| == |mem|
  {
    if m == 0 then mem
    else
      var before := Deliver(mem, q, b, m - 1);
      if Wanted(q[m - 1]) then Store(before, q[m - 1].dest, Slot(q, b, m - 1)) else before
  }

  /** Address `a` is in the destination of message `k`. */
  predicate Covers(q: seq<Message>, k: nat, a: Address)
    requires k < |q|
  {
    Wanted(q[k]) && q[k].dest <= a < q[k].dest + q[k].size
  }

  /** A covered byte of a slot, by its place in the buffer. */
  lemma SlotByte(q: seq<Message>, b: seq<Byte>, k: nat, a: Address)
    requires k < |q| && Covers(q, k, a) && Start(q, k) + Header(q[k]) + Payload(q[k]) <= |b|
    ensures Start(q, k) + 16 + a - q[k].dest < |b|
    ensures Slot(q, b, k)[a - q[k].dest] == b[Start(q, k) + 16 + a - q[k].dest]
  {
  }

  predicate NoneCovers(q: seq<Message>, from: nat, to: nat, a: Address)
    requires to <= |q|
  {
    forall k :: from <= k < to ==> !Covers(q, k, a)
  }

  lemma StoredByte(mem: seq<Byte>, dest: Address, bytes: seq<Byte>, a: Address)
    requires dest + |bytes| <= |mem| && a < |mem|
    ensures Store(mem, dest, bytes)[a] == if dest <= a < dest + |bytes| then bytes[a - dest] else mem[a]
  {
  }

  /** One step of the delivery, seen at one address. */
  lemma DeliverStep(mem: seq<Byte>, q: seq<Message>, b: seq<Byte>, m: nat, a: Address)
    requires 0 < m <= |q| && Fits(q, |mem|) && a < |mem|
    requires SlotsInside(q, b, m)
    ensures Deliver(mem, q, b, m)[a]
         == if Covers(q, m - 1, a) then Slot(q, b, m - 1)[a - q[m - 1].dest] else Deliver(mem, q, b, m - 1)[a]
  {
    if Wanted(q[m - 1]) {
      StoredByte(Deliver(mem, q, b, m - 1), q[m - 1].dest, Slot(q, b, m - 1), a);
    }
  }

  /** Memory outside every destination is untouched. */
  lemma {:induction false} UncoveredIsKept(mem: seq<Byte>, q: seq<Message>, b: seq<Byte>, m: nat, a: Address)
    requires m <= |q| && Fits(q, |mem|) && a < |mem|
    requires SlotsInside(q, b, m)
    requires NoneCovers(q, 0, m, a)
    ensures Deliver(mem, q, b, m)[a] == mem[a]
  {
    if m > 0 {
      hide Deliver, Slot, Start;
      UncoveredIsKept(mem, q, b, m - 1, a);
      DeliverStep(mem, q, b, m, a);
    }
  }

  /** A covered byte ends up as the last Read that covers it says. */
  lemma {:induction false} LastReadWins(mem: seq<Byte>, q: seq<Message>, b: seq<Byte>, m: nat, a: Address, k: nat)
    requires k < m <= |q| && Fits(q, |mem|) && a < |mem|
    requires SlotsInside(q, b, m)
    requires Covers(q, k, a) && NoneCovers(q, k + 1, m, a)
    ensures Deliver(mem, q, b, m)[a] == Slot(q, b, k)[a - q[k].dest]
  {
    DeliverStep(mem, q, b, m, a);
    if k < m - 1 {
      assert !Covers(q, m - 1, a);
      LastReadWins(mem, q, b, m - 1, a, k);
    } else {
      assert k == m - 1;
    }
  }
}
