/**
 The client side of the simulator link: requests are appended to the shared
 buffer, sent together, and the answers scattered to the client's memory.
 */
module IpcLink {
  import opened IpcMessages

  datatype ErrorCode =
    | OK | OPEN | NOFS | REGMSG | ATOM | MAP | VIEW | VERSION | WRONGFS
    | NOTOPEN | NODATA | TIMEOUT | SENDMSG | DATA | RUNNING | SIZE

  /** What became of a sent buffer: no answer in all tries, refused, or answered in place. */
  datatype Reply =
    | NoAnswer(lastErrorZero: bool)
    | Refused(buffer: seq<Byte>)
    | Answered(buffer: seq<Byte>)

  type Simulator = seq<Byte> -> Reply

  ghost predicate Proper(q: seq<Message>, r: Reply) {
    match r
    case NoAnswer(_) => true
    case Refused(b) => |b| == VIEW_SIZE
    case Answered(b) => |b| == VIEW_SIZE && exists m :: Readable(q, b, m)
  }

  /** The simulator answers within the buffer and spoils no header before a final bad word. */
  ghost predicate Honest(sim: Simulator) {
    forall b: seq<Byte>, q: seq<Message> :: Encodes(b, q) ==> Proper(q, sim(b))
  }

  /** The simulator's window is there, but no request is ever answered. */
  ghost predicate NeverAnswers(sim: Simulator) {
    forall b :: !sim(b).Answered?
  }

  /** Which of the operating system's services succeed while opening. */
  datatype Services = Services(window: bool, wideWindow: bool, message: bool, atom: bool, mapping: bool, mapView: bool)

  /** Where the library keeps its version words. */
  const VERSION_AT: Address := 4
  const FS_VERSION_AT: Address := 8
  const LIB_VERSION_AT: Address := 12

  /** The numbers under which Reads are queued are in use, distinct, and lead to their destinations. */
  ghost predicate Routed(q: seq<Message>, iIndex: nat, dests: seq<Address>) {
    && iIndex <= |dests|
    && (forall k :: 0 <= k < |q| && q[k].Read? ==> q[k].iDest < iIndex && dests[q[k].iDest] == q[k].dest)
    && (forall j, k :: 0 <= j < k < |q| && q[j].Read? && q[k].Read? ==> q[j].iDest != q[k].iDest)
  }

  /** The used part of the buffer holds the queue, and there is room for the final zero word. */
  ghost predicate Queued(b: seq<Byte>, next: nat, q: seq<Message>) {
    && |b| == VIEW_SIZE && next + 4 <= MAX_SIZE && next == Start(q, |q|)
    && AllWellFormed(q) && b[..next] == Serialize(q)
  }

  /** A Read queued under the next number keeps the routing. */
  lemma RoutedRead(q: seq<Message>, iIndex: nat, dests: seq<Address>, m: Message)
    requires Routed(q, iIndex, dests) && iIndex < |dests| && m.Read? && m.iDest == iIndex
    ensures Routed(q + [m], iIndex + 1, dests[iIndex := m.dest])
  {
  }

  lemma RoutedWrite(q: seq<Message>, iIndex: nat, dests: seq<Address>, m: Message)
    requires Routed(q, iIndex, dests) && m.Write?
    ensures Routed(q + [m], iIndex, dests)
  {
  }

  /** The buffer after a message has been stored behind the others. */
  function Appended(b: seq<Byte>, next: nat, m: Message): seq<Byte>
    requires WellFormed(m) && next + Header(m) + Payload(m) <= |b|
  {
    Store(Store(b, next, HeaderBytes(m)), next + Header(m), if m.Read? then Zeros(m.size) else m.data)
  }

  /** Storing a message's bytes behind the others queues it. */
  lemma AppendedIsQueued(b: seq<Byte>, next: nat, q: seq<Message>, m: Message)
    requires Queued(b, next, q) && WellFormed(m) && next + Header(m) + Payload(m) + 4 <= MAX_SIZE
    ensures Queued(Appended(b, next, m), next + Header(m) + Payload(m), q + [m])
  {
    hide HeaderBytes, Start, Serialize;
    SerializeAppend(q, m);
    assert Appended(b, next, m)[..next + Header(m) + Payload(m)] == b[..next] + Bytes(m);
  }

  /** Everything that holds of an open link. */
  ghost predicate Linked(b: seq<Byte>, next: nat, q: seq<Message>, iIndex: nat, dests: seq<Address>, memory: nat,
                         clean: bool) {
    && Queued(b, next, q) && Routed(q, iIndex, dests) && Fits(q, memory)
    // numbers run out before room does only if some request was lost
    && (clean ==> 16 * iIndex <= next)
  }

  lemma LinkedAfterRead(b: seq<Byte>, next: nat, q: seq<Message>, iIndex: nat, dests: seq<Address>, memory: nat,
                        clean: bool, m: Message)
    requires Linked(b, next, q, iIndex, dests, memory, clean)
    requires WellFormed(m) && m.Read? && m.iDest == iIndex < |dests| && Fits([m], memory)
    requires next + READ_HEADER + m.size + 4 <= MAX_SIZE
    ensures Linked(Appended(b, next, m), next + READ_HEADER + m.size, q + [m], iIndex + 1, dests[iIndex := m.dest],
        memory, clean)
  {
    AppendedIsQueued(b, next, q, m);
    RoutedRead(q, iIndex, dests, m);
    assert m in [m];
  }

  lemma LinkedAfterWrite(b: seq<Byte>, next: nat, q: seq<Message>, iIndex: nat, dests: seq<Address>, memory: nat,
                         clean: bool, m: Message)
    requires Linked(b, next, q, iIndex, dests, memory, clean)
    requires WellFormed(m) && m.Write? && next + WRITE_HEADER + |m.data| + 4 <= MAX_SIZE
    ensures Linked(Appended(b, next, m), next + WRITE_HEADER + |m.data|, q + [m], iIndex, dests, memory, clean)
  {
    AppendedIsQueued(b, next, q, m);
    RoutedWrite(q, iIndex, dests, m);
  }

  class IpcUser {
    var view: array?<Byte>
    var next: nat
    var iIndex: nat
    const pDestArray: array<Address>
    const memory: array<Byte>

    /** The requests accumulated since the last Process. */
    ghost var queue: seq<Message>
    /** No request was lost since iIndex was last reset. */
    ghost var clean: bool

    ghost predicate Valid()
      reads this, pDestArray, view
    {
      && pDestArray.Length == MAX_MSGS && iIndex <= MAX_MSGS && memory.Length >= 16
      && (view != null ==>
            view != memory && view.Length == VIEW_SIZE && next + 4 <= MAX_SIZE
            && Linked(view[..], next, queue, iIndex, pDestArray[..], memory.Length, clean))
    }

    constructor (size: nat)
      requires size >= 16
      ensures Valid() && view == null && memory.Length == size && fresh(memory) && fresh(pDestArray)
    {
      view, next, iIndex := null, 0, 0;
      pDestArray := new Address[MAX_MSGS](_ => 0);
      memory := new Byte[size](_ => 0);
      queue, clean := [], true;
    }

    method FsuipcClose()
      requires Valid()
      modifies this`view
      ensures Valid() && view == null
    {
      view := null;
    }

    /** Remembers a destination under the next free number. */
    method SaveDestination(pDest: Address)
      requires iIndex < pDestArray.Length
      modifies `iIndex, pDestArray
      ensures iIndex == old(iIndex) + 1 && pDestArray[..] == old(pDestArray[..])[old(iIndex) := pDest]
    {
      pDestArray[iIndex] := pDest;
      iIndex := iIndex + 1;
    }

    /** Writes a Read's header and zeroed slot behind the others. */
    method StoreRead(dwOffset: nat, dwSize: nat, pDest: Address)
      requires Valid() && view != null && dwOffset < DWORD_LIMIT && dwSize < DWORD_LIMIT
      requires pDest != 0 ==> pDest + dwSize <= memory.Length
      requires next + 4 + dwSize + READ_HEADER <= MAX_SIZE && iIndex < MAX_MSGS
      modifies `next, `iIndex, `queue, view, pDestArray
      ensures Valid()
      ensures iIndex == old(iIndex) + 1 && queue == old(queue) + [Read(dwOffset, dwSize, old(iIndex), pDest)]
      ensures next == old(next) + READ_HEADER + dwSize
    {
      hide Linked, Store;
      ghost var message := Read(dwOffset, dwSize, iIndex, pDest);
      LinkedAfterRead(view[..], next, queue, iIndex, pDestArray[..], memory.Length, clean, message);
      PutBytes(view, next, Dword(READ_ID) + Dword(dwOffset) + Dword(dwSize) + Dword(iIndex));
      SaveDestination(pDest);
      PutBytes(view, next + READ_HEADER, Zeros(dwSize));
      assert view[..] == Appended(old(view[..]), next, message);
      next := next + READ_HEADER + dwSize;
      queue := queue + [message];
    }

    /** Queues a request to read `dwSize` bytes into `pDest`. */
    method FsuipcRead(dwOffset: nat, dwSize: nat, pDest: Address) returns (ok: bool, result: ErrorCode)
      requires Valid() && dwOffset < DWORD_LIMIT && dwSize < DWORD_LIMIT
      requires pDest != 0 ==> pDest + dwSize <= memory.Length
      modifies `next, `iIndex, `queue, view, pDestArray
      ensures Valid() && ok == (result == OK)
      ensures result == if view == null then NOTOPEN
                        else if old(next) + 4 + dwSize + READ_HEADER > MAX_SIZE || old(iIndex) == MAX_MSGS then SIZE
                        else OK
      // in numbers: the buffer holds 32512 bytes, and there are 2032 places for destinations
      ensures ok <==> view != null && old(next) + dwSize + 20 <= 32512 && old(iIndex) < 2032
      ensures clean && view != null && old(next) + 4 + dwSize + READ_HEADER <= MAX_SIZE ==> ok
      ensures ok ==> iIndex == old(iIndex) + 1 && queue == old(queue) + [Read(dwOffset, dwSize, old(iIndex), pDest)]
      ensures next == old(next) + if ok then READ_HEADER + dwSize else 0
      ensures !ok ==> iIndex == old(iIndex) && queue == old(queue)
    {
      if view == null {
        return false, NOTOPEN;
      }
      if next + 4 + dwSize + READ_HEADER > MAX_SIZE || iIndex == MAX_MSGS {
        return false, SIZE;
      }
      StoreRead(dwOffset, dwSize, pDest);
      return true, OK;
    }

    /** Queues a request to write `source`. */
    method FsuipcWrite(dwOffset: nat, source: seq<Byte>) returns (ok: bool, result: ErrorCode)
      requires Valid() && dwOffset < DWORD_LIMIT && |source| < DWORD_LIMIT
      modifies `next, `queue, view
      ensures Valid() && ok == (result == OK)
      ensures result == if view == null then NOTOPEN
                        else if old(next) + 4 + |source| + WRITE_HEADER > MAX_SIZE then SIZE
                        else OK
      ensures ok <==> view != null && old(next) + |source| + 16 <= 32512
      ensures ok ==> queue == old(queue) + [Write(dwOffset, source)]
      ensures next == old(next) + if ok then WRITE_HEADER + |source| else 0
      ensures !ok ==> queue == old(queue)
    {
      if view == null {
        return false, NOTOPEN;
      }
      if next + 4 + |source| + WRITE_HEADER > MAX_SIZE {
        return false, SIZE;
      }
      hide Linked, Store;
      ghost var message := Write(dwOffset, source);
      LinkedAfterWrite(view[..], next, queue, iIndex, pDestArray[..], memory.Length, clean, message);
      PutBytes(view, next, Dword(WRITE_ID) + Dword(dwOffset) + Dword(|source|));
      PutBytes(view, next + WRITE_HEADER, source);
      next := next + WRITE_HEADER + |source|;
      queue := queue + [message];
      return true, OK;
    }

    /** Puts the zero word behind the messages, which completes what is sent. */
    method Terminate()
      requires Valid() && view != null
      modifies view
      ensures Valid() && Encodes(view[..], queue)
    {
      ghost var b := view[..];
      PutBytes(view, next, Zeros(4));
      TerminatedEncodes(b, next, queue);
    }

    /** The scan has dealt with the first `k` messages, and possibly met the word that ends it. */
    ghost predicate Scanned(b: seq<Byte>, m: nat, k: nat, stopped: bool, start: seq<Byte>)
      reads this, view, memory, pDestArray
    {
      && view != null && view != memory && view.Length == VIEW_SIZE
      && ScanState(queue, b, m, iIndex, pDestArray[..], k, stopped, next, view[..], start, memory[..])
    }

    /** The Read case of the scan: copies the slot out, if it is wanted, and moves on. */
    method VisitRead(ghost b: seq<Byte>, ghost m: nat, ghost k: nat, ghost start: seq<Byte>)
      requires Scanned(b, m, k, false, start) && k < m <= |queue| && queue[k].Read?
      modifies `next, memory
      ensures Scanned(b, m, k + 1, false, start)
    {
      hide ScanState, DwordAt, Store;
      ScanRead(queue, b, m, iIndex, pDestArray[..], k, next, view[..], start, memory[..]);
      var nBytes, dest := WordAt(view, next + 8), pDestArray[WordAt(view, next + 12)];
      var slot := view[next + READ_HEADER..next + READ_HEADER + nBytes];
      if dest != 0 && nBytes != 0 {
        PutBytes(memory, dest, slot);
      }
      next := next + READ_HEADER + nBytes;
    }

    /** The Write case of the scan: nothing was returned, so it only moves on. */
    method VisitWrite(ghost b: seq<Byte>, ghost m: nat, ghost k: nat, ghost start: seq<Byte>)
      requires Scanned(b, m, k, false, start) && k < m <= |queue| && queue[k].Write?
      modifies `next
      ensures Scanned(b, m, k + 1, false, start)
    {
      hide ScanState, DwordAt, Store;
      ScanWrite(queue, b, m, iIndex, pDestArray[..], k, next, view[..], start, memory[..]);
      next := next + WRITE_HEADER + WordAt(view, next + 8);
    }

    /** An unknown word ends the scan, by being overwritten. */
    method StopScan(ghost b: seq<Byte>, ghost m: nat, ghost start: seq<Byte>)
      requires Scanned(b, m, m, false, start)
      modifies view
      ensures Scanned(b, m, m, true, start)
    {
      hide ScanState, DwordAt, Store;
      ScanStop(queue, b, m, iIndex, pDestArray[..], next, view[..], start, memory[..]);
      PutBytes(view, next, Zeros(4));
    }

    /** One round of the scan: the next readable message, or the word that ends it. */
    method VisitNext(ghost b: seq<Byte>, ghost m: nat, ghost k: nat,
                     ghost start: seq<Byte>) returns (ghost stopped: bool)
      requires Scanned(b, m, k, false, start)
      modifies `next, view, memory
      ensures (stopped <==> k == m) && Scanned(b, m, if stopped then k else k + 1, stopped, start)
    {
      hide ScanState, DwordAt, Store;
      ScanKind(queue, b, m, iIndex, pDestArray[..], k, next, view[..], start, memory[..]);
      stopped := k == m;
      var id := WordAt(view, next);
      if id == READ_ID {
        VisitRead(b, m, k, start);
      } else if id == WRITE_ID {
        VisitWrite(b, m, k, start);
      } else {
        StopScan(b, m, start);
      }
    }

    /** The scan of an answered buffer: visits the readable messages and copies out the slots. */
    method ScanAnswer(ghost b: seq<Byte>, ghost m: nat)
      requires view != null && view != memory && view.Length == VIEW_SIZE && view[..] == b
      requires Readable(queue, b, m) && Routed(queue, iIndex, pDestArray[..]) && Fits(queue, memory.Length)
      modifies `next, view, memory
      ensures SlotsInside(queue, b, m) && memory[..] == Deliver(old(memory[..]), queue, b, m)
    {
      hide ScanState, DwordAt, Store, Readable, Routed, Fits, Deliver;
      next := 0;
      ghost var k, stopped, start := 0, false, memory[..];
      ScanStart(queue, b, m, iIndex, pDestArray[..], start);
      while WordAt(view, next) != 0
        invariant Scanned(b, m, k, stopped, start) && next + 4 <= VIEW_SIZE
        invariant k <= m && (stopped ==> WordAt(view, next) == 0)
        decreases m - k, !stopped
      {
        stopped := VisitNext(b, m, k, start);
        k := if stopped then k else k + 1;
        ScanBounds(queue, b, m, iIndex, pDestArray[..], k, stopped, next, view[..], start, memory[..]);
      }
      ScanEnd(queue, b, m, iIndex, pDestArray[..], k, stopped, next, view[..], start, memory[..]);
    }

    /**
     Sends the accumulated requests and delivers the answers.  Whatever becomes of them,
     the queue is empty afterwards; only a delivered answer frees the Read numbers.
     */
    method FsuipcProcess(sim: Simulator) returns (ok: bool, result: ErrorCode, ghost sent: seq<Byte>, ghost m: nat)
      requires Valid() && Honest(sim)
      modifies `next, `iIndex, `queue, `clean, view, memory
      ensures Valid() && ok == (result == OK)
      ensures old(view) == null ==> result == NOTOPEN
      ensures old(view) != null && old(queue) == [] ==> result == NODATA
      ensures result == NOTOPEN || result == NODATA ==>
                queue == old(queue) && next == old(next) && iIndex == old(iIndex) && clean == old(clean)
      ensures !ok ==> iIndex == old(iIndex) && memory[..] == old(memory[..])
      ensures old(view) != null && old(queue) != [] ==>
                && queue == [] && Encodes(sent, old(queue)) && AsksFor(sent, old(queue), 0)
                && result == (match sim(sent)
                              case NoAnswer(zero) => if zero then TIMEOUT else SENDMSG
                              case Refused(_) => DATA
                              case Answered(_) => OK)
      ensures ok ==> iIndex == 0 && clean
      ensures ok ==> Delivered(old(queue), sim(sent), m, old(memory[..]), memory[..])
    {
      hide Deliver, Readable, Routed, Fits, SlotsInside, Serialize, AsksFor;
      sent, m := [], 0;
      if view == null {
        return false, NOTOPEN, sent, m;
      }
      StartIsZero(queue);
      if next == 0 {
        return false, NODATA, sent, m;
      }
      Terminate();
      var reply := sim(view[..]);
      sent := view[..];
      SentAsks(sent, queue);
      assert Proper(queue, reply);
      match reply {
        case NoAnswer(zero) =>
          Rewind(false);
          return false, if zero then TIMEOUT else SENDMSG, sent, m;
        case Refused(buffer) =>
          PutBytes(view, 0, buffer);
          Rewind(false);
          return false, DATA, sent, m;
        case Answered(buffer) =>
          PutBytes(view, 0, buffer);
          m :| Readable(queue, buffer, m);
          assert view[..] == buffer && memory[..] == old(memory[..]);
          ScanAnswer(buffer, m);
          Rewind(true);
          return true, OK, sent, m;
      }
    }

    /** Empties the queue; the Read numbers become free only if the requests were answered. */
    method Rewind(answered: bool)
      requires pDestArray.Length == MAX_MSGS && iIndex <= MAX_MSGS && memory.Length >= 16
      requires view != null && view.Length == VIEW_SIZE && view != memory
      modifies `next, `iIndex, `queue, `clean
      ensures Valid() && queue == [] && next == 0 && clean == answered
      ensures iIndex == if answered then 0 else old(iIndex)
    {
      next := 0;
      if answered {
        iIndex := 0;
      }
      queue, clean := [], answered;
    }

    lemma EmptyStartsAtZero()
      requires Valid() && view != null && queue == []
      ensures next == 0 && iIndex <= MAX_MSGS && memory.Length >= 16
    {
    }

    /** One try at learning the versions: two Reads, on the first try a Write, and a Process. */
    method TryVersions(first: bool, sim: Simulator) returns (ok: bool, result: ErrorCode, ghost asked: seq<Message>)
      requires Valid() && view != null && queue == [] && Honest(sim)
      modifies `next, `iIndex, `queue, `clean, view, memory, pDestArray
      ensures Valid() && ok == (result == OK)
      ensures ok ==> queue == [] && next == 0 && iIndex == 0 && clean
      ensures !ok && result != SIZE ==> iIndex == old(iIndex) + 2
      ensures result == SIZE <==> old(iIndex) + 2 > MAX_MSGS
      ensures result == SIZE ==> iIndex == MAX_MSGS
      ensures NeverAnswers(sim) ==> !ok
      ensures result != SIZE ==>
                asked == [Read(0x3304, 4, old(iIndex), VERSION_AT), Read(0x3308, 4, old(iIndex) + 1, FS_VERSION_AT)]
                         + if first then [Write(0x330a, old(memory[LIB_VERSION_AT..LIB_VERSION_AT + 2]))] else []
      ensures result in {OK, SIZE, TIMEOUT, SENDMSG, DATA}
    {
      hide Valid, Linked, Honest, Delivered, Encodes, AsksFor;
      asked := [];
      EmptyStartsAtZero();
      ok, result := FsuipcRead(0x3304, 4, VERSION_AT);
      if !ok {
        return;
      }
      ok, result := FsuipcRead(0x3308, 4, FS_VERSION_AT);
      if !ok {
        return;
      }
      if first {
        ok, result := FsuipcWrite(0x330a, memory[LIB_VERSION_AT..LIB_VERSION_AT + 2]);
        if !ok {
          return;
        }
      }
      assert queue != [];
      asked := queue;
      ghost var sent, m;
      ok, result, sent, m := FsuipcProcess(sim);
      EmptyStartsAtZero();
    }

    /** The numbers the version Reads brought back. */
    predicate VersionsKnown()
      reads memory
      requires memory.Length >= 16
    {
      WordAt(memory, VERSION_AT) != 0 && WordAt(memory, FS_VERSION_AT) != 0
    }

    /**
     Opens the link: services, then up to five tries at learning the versions.
     `sims` is the simulator as it behaves at each try.
     */
    method FsuipcOpen(dwFSReq: nat, services: Services, sims: seq<Simulator>)
      returns (ok: bool, result: ErrorCode, ghost fsWord: nat)
      requires Valid() && |sims| == 5 && forall sim <- sims :: Honest(sim)
      modifies this, view, memory, pDestArray
      ensures Valid() && ok == (result == OK)
      ensures old(view) != null ==> result == OPEN && view == old(view) && iIndex == old(iIndex) && queue == old(queue)
      ensures ok ==> view != null && fresh(view) && queue == [] && next == 0 && iIndex == 0 && clean
      ensures ok ==> WordAt(memory, VERSION_AT) >= 0x19980005 && WordAt(memory, FS_VERSION_AT) < 0x10000
      // the word read for the simulator's version has a check pattern in its upper half
      ensures ok ==> fsWord == 0xFADE * 0x10000 + WordAt(memory, FS_VERSION_AT)
      ensures result == RUNNING || result == VERSION ==>
                WordAt(memory, VERSION_AT) < 0x19980005 || fsWord / 0x10000 != 0xFADE
      ensures ok ==> dwFSReq == 0 || WordAt(memory, FS_VERSION_AT) == dwFSReq
      ensures result == WRONGFS ==> dwFSReq != 0 && WordAt(memory, FS_VERSION_AT) != dwFSReq
      ensures old(view) == null && !Available(services) ==> result == MissingService(services) && iIndex == old(iIndex)
      ensures (result == RUNNING ==> services.wideWindow) && (result == VERSION ==> !services.wideWindow)
      ensures old(view) == null && !ok ==> view == null && iIndex <= old(iIndex) + 2
      ensures result == SIZE <==> old(view) == null && Available(services) && old(iIndex) + 2 > MAX_MSGS
      ensures result == SIZE ==> iIndex == MAX_MSGS
      // an exchange that is not answered uses up two numbers
      ensures old(view) == null && Available(services) && NeverAnswers(sims[0]) && old(iIndex) + 2 <= MAX_MSGS ==>
                !ok && view == null && iIndex == old(iIndex) + 2
      // without free numbers a closed link can never be opened again
      ensures old(view) == null && old(iIndex) == MAX_MSGS ==> !ok && view == null && iIndex == MAX_MSGS
    {
      hide Linked, DwordAt, Store, NeverAnswers;
      fsWord := 0;
      if view != null {
        return false, OPEN, fsWord;
      }
      PutBytes(memory, VERSION_AT, Zeros(4));
      PutBytes(memory, FS_VERSION_AT, Zeros(4));
      result := OpenView(services);
      if result != OK {
        FsuipcClose();
        return false, result, fsWord;
      }
      var i := 0;
      while i < 5 && (i == 0 || !VersionsKnown())
        invariant 0 <= i <= 5 && Valid() && view != null && fresh(view) && queue == [] && next == 0
        invariant if i == 0 then iIndex == old(iIndex) else iIndex == 0 && clean && old(iIndex) + 2 <= MAX_MSGS
        invariant i > 0 ==> !NeverAnswers(sims[0])
      {
        ghost var asked;
        ok, result, asked := TryVersions(i == 0, sims[i]);
        if !ok {
          FsuipcClose();
          return;
        }
        i := i + 1;
      }
      fsWord := WordAt(memory, FS_VERSION_AT);
      if WordAt(memory, VERSION_AT) < 0x19980005 || WordAt(memory, FS_VERSION_AT) / 0x10000 != 0xFADE {
        FsuipcClose();
        return false, if services.wideWindow then RUNNING else VERSION, fsWord;
      }
      var fsVersion := WordAt(memory, FS_VERSION_AT) % 0x10000;
      StoredWord(memory[..], FS_VERSION_AT, fsVersion);
      PutBytes(memory, FS_VERSION_AT, Dword(fsVersion));
      if dwFSReq != 0 && dwFSReq != fsVersion {
        FsuipcClose();
        return false, WRONGFS, fsWord;
      }
      iIndex := 0;
      assert Linked(view[..], next, queue, iIndex, pDestArray[..], memory.Length, clean) by {
        EmptyQueueIsLinked(view[..], iIndex, pDestArray[..], memory.Length, clean);
      }
      return true, OK, fsWord;
    }

    /** Finds the simulator's window and maps a fresh buffer. */
    method OpenView(services: Services) returns (result: ErrorCode)
      requires Valid() && view == null
      modifies `view, `next, `queue, `clean
      ensures result == OK <==> Available(services)
      ensures result == MissingService(services)
      ensures Valid() && if result == OK then view != null && fresh(view) && queue == [] && next == 0 else view == null
    {
      if !services.window {
        return NOFS;
      }
      if !services.message {
        return REGMSG;
      }
      if !services.atom {
        return ATOM;
      }
      if !services.mapping {
        return MAP;
      }
      if !services.mapView {
        return VIEW;
      }
      view := new Byte[VIEW_SIZE](_ => 0);
      next := 0;
      // requests queued before a close are gone, though their numbers are not free again
      queue, clean := [], iIndex == 0;
      EmptyQueueIsLinked(view[..], iIndex, pDestArray[..], memory.Length, clean);
      return OK;
    }
  }

  /** How many attempts to open the link use up all numbers. */
  const ATTEMPTS: nat := 1016 // MAX_MSGS / 2

  /**
   Opening the link again and again while nobody answers, as the polling loop does: after a number of attempts
   every further one fails, even if the simulator would answer by then.
   */
  method WearOut(user: IpcUser, dwFSReq: nat, services: Services, silent: seq<Simulator>, helpful: seq<Simulator>)
    returns (ok: bool, result: ErrorCode)
    requires user.Valid() && user.view == null && user.iIndex == 0 && Available(services)
    requires |silent| == 5 && forall sim <- silent :: Honest(sim) && NeverAnswers(sim)
    requires |helpful| == 5 && forall sim <- helpful :: Honest(sim)
    modifies user, user.memory, user.pDestArray
    ensures user.Valid() && user.view == null && user.iIndex == MAX_MSGS && !ok && result == SIZE
  {
    for n := 0 to ATTEMPTS
      invariant user.Valid() && user.view == null && user.iIndex == 2 * n
    {
      ghost var word;
      ok, result, word := user.FsuipcOpen(dwFSReq, services, silent);
    }
    ghost var last;
    ok, result, last := user.FsuipcOpen(dwFSReq, services, helpful);
  }

  /** Everything the operating system has to provide. */
  predicate Available(services: Services) {
    services.window && services.message && services.atom && services.mapping && services.mapView
  }

  /** The error for the first service that is missing, in the order in which they are needed. */
  function MissingService(services: Services): (result: ErrorCode)
    ensures result == OK <==> Available(services)
  {
    if !services.window then NOFS
    else if !services.message then REGMSG
    else if !services.atom then ATOM
    else if !services.mapping then MAP
    else if !services.mapView then VIEW
    else OK
  }

  lemma EmptyQueueIsLinked(b: seq<Byte>, iIndex: nat, dests: seq<Address>, memory: nat, clean: bool)
    requires |b| == VIEW_SIZE && iIndex <= |dests| && (clean ==> iIndex == 0)
    ensures Linked(b, 0, [], iIndex, dests, memory, clean)
  {
  }

  lemma StoredWord(b: seq<Byte>, at: nat, n: nat)
    requires at + 4 <= |b| && n < DWORD_LIMIT
    ensures DwordAt(Store(b, at, Dword(n)), at) == n
    ensures forall i :: 0 <= i <= at - 4 ==> DwordAt(Store(b, at, Dword(n)), i) == DwordAt(b, i)
  {
    var z := Store(b, at, Dword(n));
    assert z[at..at + 4] == Dword(n);
    forall i | 0 <= i <= at - 4 ensures DwordAt(z, i) == DwordAt(b, i) {
      assert z[i..i + 4] == b[i..i + 4];
    }
    DwordRoundTrip(n, z, at);
  }

  /** What a delivered answer did to the client's memory: exactly the wanted slots of the readable messages. */
  ghost predicate Delivered(q: seq<Message>, r: Reply, m: nat, before: seq<Byte>, after: seq<Byte>) {
    && r.Answered? && Readable(q, r.buffer, m) && SlotsInside(q, r.buffer, m) && Fits(q, |before|)
    && after == Deliver(before, q, r.buffer, m)
  }

  /** There is one number of readable messages. */
  lemma ReadableIsUnique(q: seq<Message>, b: seq<Byte>, m: nat, n: nat)
    requires Readable(q, b, m) && Readable(q, b, n)
    ensures m == n
  {
    assert m < n ==> HeaderIntact(q, b, m);
    assert n < m ==> HeaderIntact(q, b, n);
  }

  /**
   The round trip: if the simulator only filled in slots, every queued message was visited,
   each byte of memory is what the last Read that covers it brought back, and the rest is untouched.
   */
  lemma AnswersComeBack(q: seq<Message>, sent: seq<Byte>, r: Reply, m: nat, before: seq<Byte>, after: seq<Byte>)
    requires Encodes(sent, q) && Delivered(q, r, m, before, after) && FillsSlots(q, sent, r.buffer)
    ensures m == |q| && |after| == |before|
    ensures forall a: Address :: a < |before| && NoneCovers(q, 0, |q|, a) ==> after[a] == before[a]
    ensures forall k: nat, a: Address :: k < |q| && a < |before| && Covers(q, k, a) && NoneCovers(q, k + 1, |q|, a) ==>
              && after[a] == Slot(q, r.buffer, k)[a - q[k].dest]
              && Start(q, k) + 16 + a - q[k].dest < |r.buffer|
              && after[a] == r.buffer[Start(q, k) + 16 + a - q[k].dest]
  {
    hide Encodes, FillsSlots, Readable, Deliver, Slot, Start, NoneCovers, Fits;
    FilledIsReadable(q, sent, r.buffer);
    ReadableIsUnique(q, r.buffer, m, |q|);
    forall a: Address | a < |before| && NoneCovers(q, 0, |q|, a) ensures after[a] == before[a] {
      UncoveredIsKept(before, q, r.buffer, m, a);
    }
    forall k: nat, a: Address | k < |q| && a < |before| && Covers(q, k, a) && NoneCovers(q, k + 1, |q|, a)
      ensures after[a] == Slot(q, r.buffer, k)[a - q[k].dest]
      ensures Start(q, k) + 16 + a - q[k].dest < |r.buffer|
      ensures after[a] == r.buffer[Start(q, k) + 16 + a - q[k].dest]
    {
      LastReadWins(before, q, r.buffer, m, a, k);
      SlotByte(q, r.buffer, k, a);
    }
  }

  lemma {:induction false} StartIsZero(q: seq<Message>)
    ensures Start(q, |q|) == 0 <==> q == []
  {
    if q != [] {
      StartGrows(q, 0, |q|);
    }
  }

  /** The word at the start of message `k` tells what it is; behind the readable ones it is neither kind. */
  ghost predicate KindAt(q: seq<Message>, b: seq<Byte>, m: nat, k: nat, at: nat) {
    && k <= m <= |q| && at + 4 <= |b|
    && (DwordAt(b, at) == READ_ID <==> k < m && q[k].Read?)
    && (DwordAt(b, at) == WRITE_ID <==> k < m && q[k].Write?)
    && (k < m ==> DwordAt(b, at) != 0)
  }

  /** The scan of buffer `b`: `k` messages dealt with, `next` the position, `view` and `mem` the contents. */
  ghost predicate ScanState(q: seq<Message>, b: seq<Byte>, m: nat, iIndex: nat, dests: seq<Address>, k: nat,
                            stopped: bool, next: nat, view: seq<Byte>, start: seq<Byte>, mem: seq<Byte>)
  {
    && |view| == |b| && |mem| == |start| && k <= m <= |q|
    && Readable(q, b, m) && Routed(q, iIndex, dests) && Fits(q, |start|) && SlotsInside(q, b, m)
    && next == Start(q, k) && next + 4 <= |b|
    && (if stopped then k == m && DwordAt(view, next) == 0 else view == b)
    && mem == Deliver(start, q, b, k)
  }

  lemma ScanStart(q: seq<Message>, b: seq<Byte>, m: nat, iIndex: nat, dests: seq<Address>, start: seq<Byte>)
    requires Readable(q, b, m) && Routed(q, iIndex, dests) && Fits(q, |start|)
    ensures ScanState(q, b, m, iIndex, dests, 0, false, 0, b, start, start) && 4 <= |b|
  {
    forall k | 0 <= k < m ensures Start(q, k) + Header(q[k]) + Payload(q[k]) + 4 <= |b| {
      assert HeaderIntact(q, b, k);
    }
  }

  lemma ScanBounds(q: seq<Message>, b: seq<Byte>, m: nat, iIndex: nat, dests: seq<Address>, k: nat, stopped: bool,
                   next: nat, view: seq<Byte>, start: seq<Byte>, mem: seq<Byte>)
    requires ScanState(q, b, m, iIndex, dests, k, stopped, next, view, start, mem)
    ensures k <= m && next + 4 <= |view| && (stopped ==> DwordAt(view, next) == 0)
  {
  }

  /** What the scan finds where it stands. */
  lemma ScanKind(q: seq<Message>, b: seq<Byte>, m: nat, iIndex: nat, dests: seq<Address>, k: nat,
                 next: nat, view: seq<Byte>, start: seq<Byte>, mem: seq<Byte>)
    requires ScanState(q, b, m, iIndex, dests, k, false, next, view, start, mem)
    ensures KindAt(q, view, m, k, next)
  {
    assert k < m ==> HeaderIntact(q, b, k);
  }

  lemma ScanHeader(q: seq<Message>, b: seq<Byte>, m: nat, k: nat)
    requires Readable(q, b, m) && k < m
    ensures Start(q, k) + Header(q[k]) + Payload(q[k]) + 4 <= |b| && DwordAt(b, Start(q, k) + 8) == Payload(q[k])
    ensures q[k].Read? ==> DwordAt(b, Start(q, k) + 12) == q[k].iDest
    ensures Start(q, k + 1) == Start(q, k) + Header(q[k]) + Payload(q[k])
  {
    assert HeaderIntact(q, b, k);
  }

  lemma ScanWrite(q: seq<Message>, b: seq<Byte>, m: nat, iIndex: nat, dests: seq<Address>, k: nat,
                  next: nat, view: seq<Byte>, start: seq<Byte>, mem: seq<Byte>)
    requires ScanState(q, b, m, iIndex, dests, k, false, next, view, start, mem)
    requires k < m && q[k].Write?
    ensures next + 12 <= |view|
    ensures ScanState(q, b, m, iIndex, dests, k + 1, false, next + WRITE_HEADER + DwordAt(view, next + 8), view,
        start, mem)
  {
    hide DwordAt, Start, Readable, Routed;
    ScanHeader(q, b, m, k);
  }

  lemma RouteOf(q: seq<Message>, iIndex: nat, dests: seq<Address>, memory: nat, k: nat)
    requires Routed(q, iIndex, dests) && Fits(q, memory) && k < |q| && q[k].Read?
    ensures q[k].iDest < |dests| && dests[q[k].iDest] == q[k].dest
    ensures Wanted(q[k]) ==> q[k].dest + q[k].size <= memory
  {
    assert q[k] in q;
  }

  /** The memory after a Read's slot has been dealt with. */
  function CopiedOut(mem: seq<Byte>, dest: Address, slot: seq<Byte>): seq<Byte>
    requires dest != 0 && |slot| != 0 ==> dest + |slot| <= |mem|
  {
    if dest != 0 && |slot| != 0 then Store(mem, dest, slot) else mem
  }

  lemma ScanRead(q: seq<Message>, b: seq<Byte>, m: nat, iIndex: nat, dests: seq<Address>, k: nat,
                 next: nat, view: seq<Byte>, start: seq<Byte>, mem: seq<Byte>)
    requires ScanState(q, b, m, iIndex, dests, k, false, next, view, start, mem)
    requires k < m && q[k].Read?
    ensures next + READ_HEADER <= |view|
    ensures var n, iDest := DwordAt(view, next + 8), DwordAt(view, next + 12);
            && next + READ_HEADER + n <= |view| && iDest < |dests|
            && (dests[iDest] != 0 && n != 0 ==> dests[iDest] + n <= |mem|)
            && ScanState(q, b, m, iIndex, dests, k + 1, false, next + READ_HEADER + n, view, start,
                         CopiedOut(mem, dests[iDest], view[next + READ_HEADER..next + READ_HEADER + n]))
  {
    hide DwordAt, Start, Readable, Routed;
    ScanHeader(q, b, m, k);
    RouteOf(q, iIndex, dests, |start|, k);
    assert view[next + READ_HEADER..next + READ_HEADER + q[k].size] == Slot(q, b, k);
    assert Deliver(start, q, b, k + 1) == CopiedOut(mem, q[k].dest, Slot(q, b, k));
  }

  lemma ScanStop(q: seq<Message>, b: seq<Byte>, m: nat, iIndex: nat, dests: seq<Address>,
                 next: nat, view: seq<Byte>, start: seq<Byte>, mem: seq<Byte>)
    requires ScanState(q, b, m, iIndex, dests, m, false, next, view, start, mem)
    ensures next + 4 <= |view|
    ensures ScanState(q, b, m, iIndex, dests, m, true, next, Store(view, next, Zeros(4)), start, mem)
  {
    ZeroedWord(view, next);
  }

  /** The scan comes to rest behind the last readable message, with every slot delivered. */
  lemma ScanEnd(q: seq<Message>, b: seq<Byte>, m: nat, iIndex: nat, dests: seq<Address>, k: nat, stopped: bool,
                next: nat, view: seq<Byte>, start: seq<Byte>, mem: seq<Byte>)
    requires ScanState(q, b, m, iIndex, dests, k, stopped, next, view, start, mem)
    requires next + 4 <= |view| && DwordAt(view, next) == 0
    ensures m <= |q| && Fits(q, |start|) && SlotsInside(q, b, m) && mem == Deliver(start, q, b, m)
  {
    if !stopped {
      ScanKind(q, b, m, iIndex, dests, k, next, view, start, mem);
    }
  }

  lemma ZeroedWord(b: seq<Byte>, at: nat)
    requires at + 4 <= |b|
    ensures DwordAt(Store(b, at, Zeros(4)), at) == 0
  {
    var z := Store(b, at, Zeros(4));
    assert z[at..at + 4] == Zeros(4) == Dword(0);
    DwordRoundTrip(0, z, at);
  }

  /** The double word at a position of the buffer. */
  function WordAt(a: array<Byte>, i: nat): nat
    requires i + 4 <= a.Length
    reads a
  {
    DwordAt(a[..], i)
  }

  lemma TerminatedEncodes(b: seq<Byte>, next: nat, q: seq<Message>)
    requires Queued(b, next, q)
    ensures Encodes(Store(b, next, Zeros(4)), q) && Queued(Store(b, next, Zeros(4)), next, q)
  {
    var sent := Store(b, next, Zeros(4));
    ZeroedWord(b, next);
    assert sent[..next] == b[..next];
  }

  /** Stores bytes in an array, as CopyMemory and ZeroMemory do. */
  method PutBytes(a: array<Byte>, at: nat, bytes: seq<Byte>)
    requires at + |bytes| <= a.Length
    modifies a
    ensures a[..] == Store(old(a[..]), at, bytes)
  {
    forall i | 0 <= i < |bytes| {
      a[at + i] := bytes[i];
    }
  }
}
