/** The disk driver (kern/dev/lamebus/lhd.c): any number of threads inside lhd_io, the device, and
    its completion interrupts, as a step system.  The two semaphores are counters that P waits on. */
module Disk {
  type Agent = int
  type Data = seq<int>

  const SECTSIZE: nat := 512
  const WORD: nat := 0x1_0000_0000

  // ----------------------------------------------------------------- the request

  /** C's division and remainder of a signed offset, which truncate toward zero. */
  function Quot(x: int, d: nat): int
    requires d > 0
  {
    if x >= 0 then x / d else 0 - (0 - x) / d
  }

  /** The test at the top of lhd_io, in 32-bit arithmetic. */
  function SectorOf(offset: int): nat {
    Quot(offset, SECTSIZE) % WORD
  }

  predicate Whole(offset: int) {
    offset - Quot(offset, SECTSIZE) * SECTSIZE == 0
  }

  predicate Admitted(offset: int, resid: nat, blocks: nat) {
    Whole(offset) && Whole(resid) && (SectorOf(offset) + SectorOf(resid)) % WORD <= blocks
  }

  /** The request is whole sectors of the disk. */
  predicate OnDisk(offset: int, resid: nat, blocks: nat) {
    Whole(offset) && Whole(resid) && offset >= 0 && offset / SECTSIZE + resid / SECTSIZE <= blocks
  }

  /** The number of the sector after the last one. */
  function End(offset: int, resid: nat): int {
    Quot(offset, SECTSIZE) + resid / SECTSIZE
  }

  /** For every signed offset, the test is right except where the sectors asked for, before sector 0
      or past what a word can number, wrap to an end on the disk. */
  lemma AdmittedIsOnDisk(offset: int, resid: nat, blocks: nat)
    requires blocks < WORD && resid < WORD
    ensures (Admitted(offset, resid, blocks) <==> OnDisk(offset, resid, blocks)) <==>
            !(Whole(offset) && Whole(resid) && (offset < 0 || End(offset, resid) >= WORD) && End(offset, resid) % WORD <= blocks)
  {
    var a, b := Quot(offset, SECTSIZE), resid / SECTSIZE;
    assert b < WORD && SectorOf(resid) == b;
    assert (a % WORD + b) % WORD == (a + b) % WORD;
    if offset >= 0 && a + b < WORD { assert (a + b) % WORD == a + b; }
  }

  /** One sector before the disk: sector number 2^32 - 1, whose end is taken for 0. */
  lemma WrapsBelow()
    ensures Admitted(-512, 512, 10) && !OnDisk(-512, 512, 10)
  {
    assert Quot(-512, SECTSIZE) == -1;
  }

  /** Two terabytes into a small disk: sector number 2^32, taken for sector 0. */
  lemma WrapsAround()
    ensures Admitted(0x200_0000_0000, 512, 10) && !OnDisk(0x200_0000_0000, 512, 10)
  {
    assert 0x200_0000_0000 / SECTSIZE == WORD;
  }

  // ----------------------------------------------------------------- the machine

  datatype Code = Ok | InvSect | Media

  /** 0, EINVAL or EIO of lhd_code_to_errno, or what uiomove returned. */
  datatype Result = Zero | EINVAL | EIO | Copy(err: int)

  function Errno(c: Code): Result {
    match c
    case Ok => Zero
    case InvSect => EINVAL
    case Media => EIO
  }

  datatype Status = Idle | Working(write: bool) | Finished(code: Code)

  /** Where the interrupt handler is: not running, status register cleared, result stored. */
  datatype Handler = Quiet | Cleared(code: Code) | Stored

  /** Between which statements of the loop a thread is. */
  datatype At =
    | Asking      // before P(lh_clear), or at the end of the loop
    | Inside      // after it
    | Loaded      // the buffer is filled for a write
    | Addressed   // the sector register is written
    | Started     // the status register is written; in P(lh_done)
    | Woken       // after P(lh_done)
    | Seen        // the result is read
    | Copied      // the data is copied out for a read
    | Returned

  /** A call: what was asked, how many operations the device had completed then, how many sectors are
      done, where it is, what it read, the result it saw, and which device operations were its own. */
  datatype Call = Call(
    write: bool, offset: int, resid: nat, data: seq<Data>, from: nat,
    i: nat, at: At, out: seq<Data>, res: Result, mine: seq<nat>)

  /** A completed device operation and what was written or read. */
  datatype Event = Event(write: bool, sector: nat, data: Data, code: Code)

  datatype State = State(
    media: seq<Data>, buf: Data, sect: nat, status: Status, handler: Handler,
    clear: nat, done: nat, result: Result, calls: map<Agent, Call>, holder: Agent, hist: seq<Event>)

  datatype Step =
    | Begin(a: Agent, write: bool, offset: int, resid: nat, data: seq<Data>)  // data are the sectors of a write
    | PClear(a: Agent)
    | Load(a: Agent)
    | LoadFails(a: Agent, err: int)
    | Address(a: Agent)
    | Start(a: Agent)
    | PDone(a: Agent)
    | See(a: Agent)
    | CopyOut(a: Agent)
    | CopyFails(a: Agent, err: int)
    | VClear(a: Agent)
    | Return(a: Agent)        // all sectors done: return 0
    | Device(code: Code)      // the device finishes
    | IrqClear                // lhd_irq reads a final status and clears it
    | IrqStore                // lhd_iodone: the result
    | IrqV                    // lhd_iodone: V(lh_done)

  predicate AtStep(s: State, a: Agent, at: At) {
    a in s.calls && s.calls[a].at == at
  }

  predicate Enabled(s: State, step: Step) {
    match step
    case Begin(a, write, offset, resid, data) =>
      a >= 0 && (a in s.calls ==> s.calls[a].at == Returned) && resid < WORD && |data| == resid / SECTSIZE
    case PClear(a) => AtStep(s, a, Asking) && s.calls[a].i < |s.calls[a].data| && s.clear > 0
    case Load(a) => AtStep(s, a, Inside) && s.calls[a].i < |s.calls[a].data|
    case LoadFails(a, err) => AtStep(s, a, Inside) && s.calls[a].write && err != 0
    case Address(a) => AtStep(s, a, Loaded)
    case Start(a) => AtStep(s, a, Addressed)
    case PDone(a) => AtStep(s, a, Started) && s.done > 0
    case See(a) => AtStep(s, a, Woken)
    case CopyOut(a) => AtStep(s, a, Seen)
    case CopyFails(a, err) => AtStep(s, a, Seen) && !s.calls[a].write && s.calls[a].res == Zero && err != 0
    case VClear(a) => AtStep(s, a, Copied)
    case Return(a) => AtStep(s, a, Asking) && s.calls[a].i == |s.calls[a].data|
    case Device(code) => s.status.Working? && (code == Ok ==> s.sect < |s.media|)
    case IrqClear => s.status.Finished? && s.handler == Quiet
    case IrqStore => s.handler.Cleared?
    case IrqV => s.handler == Stored
  }

  function Put(s: State, a: Agent, c: Call): State {
    s.(calls := s.calls[a := c])
  }

  /** The sector number the loop writes to the register. */
  function Target(offset: int, i: nat): nat {
    (SectorOf(offset) + i) % WORD
  }

  /** A call on entry: refused at once, or before its first sector. */
  function Opening(write: bool, offset: int, resid: nat, data: seq<Data>, from: nat, blocks: nat): Call {
    var admitted := Admitted(offset, resid, blocks);
    Call(write, offset, resid, data, from, 0, if admitted then Asking else Returned, [], if admitted then Zero else EINVAL, [])
  }

  function Apply(s: State, step: Step): State
    requires Enabled(s, step)
  {
    match step
    case Begin(a, write, offset, resid, data) => Put(s, a, Opening(write, offset, resid, data, |s.hist|, |s.media|))
    case PClear(a) => Put(s, a, s.calls[a].(at := Inside)).(clear := s.clear - 1, holder := a)
    case Load(a) =>
      var c := s.calls[a];
      Put(s, a, c.(at := Loaded)).(buf := if c.write then c.data[c.i] else s.buf)
    case LoadFails(a, err) =>
      Put(s, a, s.calls[a].(at := Returned, res := Copy(err))).(clear := s.clear + 1, holder := -1)
    case Address(a) => Put(s, a, s.calls[a].(at := Addressed)).(sect := Target(s.calls[a].offset, s.calls[a].i))
    case Start(a) => Put(s, a, s.calls[a].(at := Started)).(status := Working(s.calls[a].write))
    case PDone(a) => Put(s, a, s.calls[a].(at := Woken)).(done := s.done - 1)
    case See(a) => Put(s, a, s.calls[a].(at := Seen, res := s.result, mine := s.calls[a].mine + [LastEvent(s)]))
    case CopyOut(a) =>
      var c := s.calls[a];
      Put(s, a, c.(at := Copied, out := if !c.write && c.res == Zero then c.out + [s.buf] else c.out))
    case CopyFails(a, err) => Put(s, a, s.calls[a].(at := Copied, res := Copy(err)))
    case VClear(a) =>
      var c := s.calls[a];
      Put(s, a, if c.res == Zero then c.(at := Asking, i := c.i + 1) else c.(at := Returned)).(clear := s.clear + 1, holder := -1)
    case Return(a) => Put(s, a, s.calls[a].(at := Returned, res := Zero))
    case Device(code) =>
      var w := s.status.write;
      var data := if w || code != Ok then s.buf else s.media[s.sect];
      s.(status := Finished(code), buf := data,
         media := if w && code == Ok then s.media[s.sect := s.buf] else s.media,
         hist := s.hist + [Event(w, s.sect, data, code)])
    case IrqClear => s.(status := Idle, handler := Cleared(s.status.code))
    case IrqStore => s.(result := Errno(s.handler.code), handler := Stored)
    case IrqV => s.(done := s.done + 1, handler := Quiet)
  }

  function LastEvent(s: State): nat {
    if s.hist == [] then 0 else |s.hist| - 1
  }

  /** config_lhd: lh_clear starts at 1, lh_done at 0; a register gives the number of sectors. */
  predicate Initial(s: State) {
    && |s.media| < WORD && s.status == Idle && s.handler == Quiet && s.clear == 1 && s.done == 0
    && s.calls == map[] && s.holder == -1 && s.hist == []
  }

  ghost predicate Reaches(init: State, s: State, n: nat)
    decreases n
  {
    if n == 0 then Initial(init) && s == init
    else exists p, step :: Reaches(init, p, n - 1) && Enabled(p, step) && s == Apply(p, step)
  }

  // ------------------------------------------------------------------ invariants

  /** Between P(lh_clear) and V(lh_clear). */
  predicate Busy(at: At) {
    at != Asking && at != Returned
  }

  function After(media: seq<Data>, e: Event): seq<Data> {
    if e.write && e.code == Ok && e.sector < |media| then media[e.sector := e.data] else media
  }

  /** What the disk holds after these operations, one after the other. */
  function Replay(media: seq<Data>, hist: seq<Event>): seq<Data> {
    if hist == [] then media else After(Replay(media, hist[..|hist| - 1]), hist[|hist| - 1])
  }

  /** Each successful read saw what the disk held then. */
  predicate ReadsRight(media: seq<Data>, hist: seq<Event>) {
    forall k :: 0 <= k < |hist| && !hist[k].write && hist[k].code == Ok ==>
                  hist[k].sector < |Replay(media, hist[..k])| && hist[k].data == Replay(media, hist[..k])[hist[k].sector]
  }

  /** Nothing is going on in the device. */
  predicate Still(s: State) {
    s.status == Idle && s.handler == Quiet && s.done == 0
  }

  /** The last completed operation is the one call c has started for its current sector. */
  predicate Own(hist: seq<Event>, buf: Data, c: Call, r: Result) {
    && c.from < |hist| && c.i < |c.data|
    && var e := hist[|hist| - 1];
      && e.write == c.write && e.sector == Target(c.offset, c.i) && Errno(e.code) == r && e.data == buf
      && (c.write ==> e.data == c.data[c.i])
  }

  /** The buffer holds what call c writes to its current sector. */
  predicate Filled(buf: Data, c: Call) {
    c.i < |c.data| && (c.write ==> buf == c.data[c.i])
  }

  /** An operation is under way for call c: working, finished, or being reported. */
  predicate UnderWay(s: State, c: Call) {
    match s.status
    case Working(w) => w == c.write && s.sect == Target(c.offset, c.i) && s.handler == Quiet && s.done == 0 && Filled(s.buf, c)
    case Finished(code) => s.handler == Quiet && s.done == 0 && Own(s.hist, s.buf, c, Errno(code))
    case Idle =>
      match s.handler
      case Cleared(code) => s.done == 0 && Own(s.hist, s.buf, c, Errno(code))
      case Stored => s.done == 0 && Own(s.hist, s.buf, c, s.result)
      case Quiet => s.done == 1 && Own(s.hist, s.buf, c, s.result)
  }

  /** The stage of the call that holds lh_clear, and of the device with it. */
  predicate Stage(s: State, c: Call) {
    match c.at
    case Inside => Still(s) && c.i < |c.data|
    case Loaded => Still(s) && Filled(s.buf, c)
    case Addressed => Still(s) && Filled(s.buf, c) && s.sect == Target(c.offset, c.i)
    case Started => UnderWay(s, c)
    case Woken => Still(s) && Own(s.hist, s.buf, c, s.result)
    case Seen => Still(s) && Own(s.hist, s.buf, c, c.res) && |c.mine| == c.i + 1 && c.mine[c.i] == |s.hist| - 1
    case Copied => Still(s) && c.i < |c.data|
    case Asking => false
    case Returned => false
  }

  /** A completed operation was call c's for its j-th sector: the right direction and sector, and the
      data given or delivered. */
  predicate Matches(e: Event, c: Call, j: nat) {
    && j < |c.data| && e.write == c.write && e.sector == Target(c.offset, j)
    && (c.write ==> e.data == c.data[j])
    && (j < |c.out| ==> c.out[j] == e.data)
    && (j < c.i || j < |c.out| ==> e.code == Ok)
  }

  /** How many operations the call counts as its own, and how many it has delivered. */
  predicate Books(c: Call) {
    && c.i <= |c.data| && (c.write ==> c.out == [])
    && (match c.at
        case Seen => |c.mine| == c.i + 1 && (!c.write ==> |c.out| == c.i)
        case Copied => |c.mine| == c.i + 1 && (!c.write ==> |c.out| == if c.res == Zero then c.i + 1 else c.i)
        case Returned =>
          && c.i <= |c.mine| <= c.i + 1 && (!c.write ==> |c.out| == c.i)
          && (c.res == Zero ==> |c.mine| == c.i == |c.data|)
        case _ => |c.mine| == c.i && (!c.write ==> |c.out| == c.i))
  }

  predicate CallOk(hist: seq<Event>, c: Call) {
    && Books(c)
    && c.from <= |hist| && (forall j :: 0 <= j < |c.mine| ==> c.from <= c.mine[j] < |hist| && Matches(hist[c.mine[j]], c, j))
    && (forall j, k :: 0 <= j < k < |c.mine| ==> c.mine[j] < c.mine[k])
    && (c.at == Copied || c.at == Returned ==> |c.mine| == c.i + 1 ==> c.res.Copy? || c.res == Errno(hist[c.mine[c.i]].code))
  }

  /** The last completed operation is not yet in any call's books. */
  predicate Fresh(s: State) {
    s.holder in s.calls && (s.calls[s.holder].at == Woken || (s.calls[s.holder].at == Started && !s.status.Working?))
  }

  predicate Before(c: Call, n: int) {
    forall j :: 0 <= j < |c.mine| ==> c.mine[j] < n
  }

  predicate Shared(c: Call, d: Call) {
    exists j, k :: 0 <= j < |c.mine| && 0 <= k < |d.mine| && c.mine[j] == d.mine[k]
  }

  ghost predicate CallsOk(s: State) {
    && (forall a :: a in s.calls ==> a >= 0 && CallOk(s.hist, s.calls[a]) && (Busy(s.calls[a].at) ==> a == s.holder))
    && (Fresh(s) ==> forall a :: a in s.calls ==> Before(s.calls[a], |s.hist| - 1))
    && (forall a, b :: a in s.calls && b in s.calls && a != b ==> !Shared(s.calls[a], s.calls[b]))
  }

  /** lh_clear is 1 and the device is still, or it is 0 and one call is at its stage. */
  predicate Excl(s: State) {
    if s.holder < 0 then s.clear == 1 && Still(s)
    else s.clear == 0 && s.holder in s.calls && Busy(s.calls[s.holder].at) && Stage(s, s.calls[s.holder])
  }

  predicate History(media0: seq<Data>, media: seq<Data>, hist: seq<Event>) {
    media == Replay(media0, hist) && ReadsRight(media0, hist)
  }

  ghost predicate Inv(init: State, s: State) {
    Excl(s) && CallsOk(s) && History(init.media, s.media, s.hist)
  }

  // ---------------------------------------------------------------- preservation

  /** A step of one call leaves the other calls' books as they are. */
  lemma Others(s: State, s': State, a: Agent)
    requires CallsOk(s) && s'.hist == s.hist && a in s'.calls && a >= 0
    requires s'.calls == s.calls[a := s'.calls[a]]
    requires CallOk(s'.hist, s'.calls[a]) && (Busy(s'.calls[a].at) ==> a == s'.holder)
    requires s'.holder == s.holder || s.holder < 0 || s.holder == a
    requires s'.calls[a].mine == [] || (a in s.calls && s'.calls[a].mine == s.calls[a].mine)
    requires Fresh(s') ==> Fresh(s)
    ensures CallsOk(s')
  {
    hide CallOk, Fresh;
    forall b, c | b in s'.calls && c in s'.calls && b != c ensures !Shared(s'.calls[b], s'.calls[c]) {
      if b in s.calls && c in s.calls { assert !Shared(s.calls[b], s.calls[c]); }
    }
    forall b | b in s'.calls && Fresh(s') ensures Before(s'.calls[b], |s'.hist| - 1) {
      if b in s.calls { assert Before(s.calls[b], |s.hist| - 1); }
    }
  }

  /** What the invariant says of a call. */
  lemma Holds(init: State, s: State, a: Agent)
    requires Inv(init, s) && a in s.calls
    ensures a >= 0 && CallOk(s.hist, s.calls[a])
    ensures Busy(s.calls[a].at) ==> a == s.holder && Stage(s, s.calls[a]) && s.clear == 0
  {
    hide CallOk, Stage;
  }

  lemma BeginKeeps(init: State, s: State, a: Agent, write: bool, offset: int, resid: nat, data: seq<Data>)
    requires Inv(init, s) && Enabled(s, Begin(a, write, offset, resid, data))
    ensures Inv(init, Apply(s, Begin(a, write, offset, resid, data)))
  {
    hide History, CallOk, Stage;
    var s' := Apply(s, Begin(a, write, offset, resid, data));
    if a in s.calls { Holds(init, s, a); }
    if s.holder in s.calls { SameStage(s, s', s.calls[s.holder]); }
    Opened(s.hist, write, offset, resid, data, |s.media|);
    Others(s, s', a);
  }

  /** The stage is a matter of the device and the call alone. */
  lemma SameStage(s: State, s': State, c: Call)
    requires s' == s.(calls := s'.calls)
    ensures Stage(s', c) <==> Stage(s, c)
  {
    hide Own, Filled;
  }

  lemma Opened(hist: seq<Event>, write: bool, offset: int, resid: nat, data: seq<Data>, blocks: nat)
    ensures CallOk(hist, Opening(write, offset, resid, data, |hist|, blocks))
  {
  }

  lemma PClearKeeps(init: State, s: State, a: Agent)
    requires Inv(init, s) && Enabled(s, PClear(a))
    ensures Inv(init, Apply(s, PClear(a)))
  {
    hide Own, History, CallOk, UnderWay;
    Holds(init, s, a);
    SameBooks(s.hist, s.calls[a], Apply(s, PClear(a)).calls[a].at);
    Others(s, Apply(s, PClear(a)), a);
  }

  lemma LoadKeeps(init: State, s: State, a: Agent)
    requires Inv(init, s) && Enabled(s, Load(a))
    ensures Inv(init, Apply(s, Load(a)))
  {
    hide Own, History, CallOk, UnderWay;
    Holds(init, s, a);
    SameBooks(s.hist, s.calls[a], Apply(s, Load(a)).calls[a].at);
    Others(s, Apply(s, Load(a)), a);
  }

  lemma LoadFailsKeeps(init: State, s: State, a: Agent, err: int)
    requires Inv(init, s) && Enabled(s, LoadFails(a, err))
    ensures Inv(init, Apply(s, LoadFails(a, err)))
  {
    hide Own, Filled, History;
    Holds(init, s, a);
    Others(s, Apply(s, LoadFails(a, err)), a);
  }

  lemma AddressKeeps(init: State, s: State, a: Agent)
    requires Inv(init, s) && Enabled(s, Address(a))
    ensures Inv(init, Apply(s, Address(a)))
  {
    hide History, Target, Matches;
    Holds(init, s, a);
    SameBooks(s.hist, s.calls[a], Apply(s, Address(a)).calls[a].at);
    Others(s, Apply(s, Address(a)), a);
  }

  lemma StartKeeps(init: State, s: State, a: Agent)
    requires Inv(init, s) && Enabled(s, Start(a))
    ensures Inv(init, Apply(s, Start(a)))
  {
    hide History, Target, Matches;
    Holds(init, s, a);
    SameBooks(s.hist, s.calls[a], Apply(s, Start(a)).calls[a].at);
    Others(s, Apply(s, Start(a)), a);
  }

  lemma PDoneKeeps(init: State, s: State, a: Agent)
    requires Inv(init, s) && Enabled(s, PDone(a))
    ensures Inv(init, Apply(s, PDone(a)))
  {
    hide History, CallOk, UnderWay, Own;
    Holds(init, s, a);
    WakesUp(s, s.calls[a]);
    BooksOf(s.hist, s.calls[a]);
    SameBooks(s.hist, s.calls[a], Woken);
    Others(s, Apply(s, PDone(a)), a);
  }

  /** Once lh_done is up, the operation has been reported. */
  lemma WakesUp(s: State, c: Call)
    requires UnderWay(s, c) && s.done > 0
    ensures s.status == Idle && s.handler == Quiet && s.done == 1 && Own(s.hist, s.buf, c.(at := Woken), s.result)
  {
    hide Target;
  }

  /** Between Asking and Woken the books do not change. */
  lemma SameBooks(hist: seq<Event>, c: Call, at: At)
    requires CallOk(hist, c) && c.at != Seen && c.at != Copied && c.at != Returned
    requires at != Seen && at != Copied && at != Returned
    ensures CallOk(hist, c.(at := at))
  {
    hide Target;
    forall j | 0 <= j < |c.mine| ensures Matches(hist[c.mine[j]], c.(at := at), j) {
      assert Matches(hist[c.mine[j]], c, j);
    }
  }

  lemma SeeKeeps(init: State, s: State, a: Agent)
    requires Inv(init, s) && Enabled(s, See(a))
    ensures Inv(init, Apply(s, See(a)))
  {
    hide History, Target, CallOk;
    Holds(init, s, a);
    var s', n := Apply(s, See(a)), |s.hist| - 1;
    var c, c' := s.calls[a], s'.calls[a];
    assert Fresh(s) && Before(c, n);
    BooksOf(s.hist, c);
    Claims(s.hist, s.buf, s.result, c, c');
    NoSharing(s, s', a, n);
  }

  lemma NoSharing(s: State, s': State, a: Agent, n: nat)
    requires CallsOk(s) && Fresh(s) && n == |s.hist| - 1 && a in s.calls && a in s'.calls
    requires s'.calls == s.calls[a := s'.calls[a]] && s'.calls[a].mine == s.calls[a].mine + [n]
    ensures forall b, d :: b in s'.calls && d in s'.calls && b != d ==> !Shared(s'.calls[b], s'.calls[d])
  {
    hide CallOk, Fresh;
    forall b, d | b in s'.calls && d in s'.calls && b != d ensures !Shared(s'.calls[b], s'.calls[d]) {
      assert !Shared(s.calls[b], s.calls[d]) && Before(s.calls[b], n) && Before(s.calls[d], n);
    }
  }

  /** The operation just reported goes into the books. */
  lemma Claims(hist: seq<Event>, buf: Data, r: Result, c: Call, c': Call)
    requires CallOk(hist, c) && c.at == Woken && Before(c, |hist| - 1) && Own(hist, buf, c, r)
    requires c' == c.(at := Seen, res := c'.res, mine := c.mine + [|hist| - 1])
    ensures CallOk(hist, c')
  {
    hide Target;
    forall j | 0 <= j < |c'.mine| ensures c'.mine[j] < |hist| && Matches(hist[c'.mine[j]], c', j) {
      if j < c.i { assert Matches(hist[c.mine[j]], c, j); }
    }
  }

  /** What is copied out is what the own operation read. */
  lemma Delivers(hist: seq<Event>, buf: Data, c: Call, c': Call)
    requires CallOk(hist, c) && c.at == Seen && Own(hist, buf, c, c.res) && c.mine[c.i] == |hist| - 1
    requires c' == c.(at := Copied, res := c'.res, out := c'.out)
    requires c'.out == (if !c.write && c'.res == Zero then c.out + [buf] else c.out) && (c'.res == c.res || c'.res.Copy?)
    ensures CallOk(hist, c')
  {
    hide Target;
    forall j | 0 <= j < |c'.mine| ensures c'.mine[j] < |hist| && Matches(hist[c'.mine[j]], c', j) {
      assert Matches(hist[c.mine[j]], c, j);
    }
  }

  lemma CopyKeeps(init: State, s: State, a: Agent, step: Step)
    requires Inv(init, s) && Enabled(s, step) && (step == CopyOut(a) || (step.CopyFails? && step.a == a))
    ensures Inv(init, Apply(s, step))
  {
    hide History, Target, CallOk;
    Holds(init, s, a);
    BooksOf(s.hist, s.calls[a]);
    Delivers(s.hist, s.buf, s.calls[a], Apply(s, step).calls[a]);
    Others(s, Apply(s, step), a);
  }

  lemma BooksOf(hist: seq<Event>, c: Call)
    requires CallOk(hist, c)
    ensures Books(c) && c.from <= |hist|
  {
  }

  lemma VClearKeeps(init: State, s: State, a: Agent)
    requires Inv(init, s) && Enabled(s, VClear(a))
    ensures Inv(init, Apply(s, VClear(a)))
  {
    hide Own, Filled, History;
    Holds(init, s, a);
    Others(s, Apply(s, VClear(a)), a);
  }

  lemma ReturnKeeps(init: State, s: State, a: Agent)
    requires Inv(init, s) && Enabled(s, Return(a))
    ensures Inv(init, Apply(s, Return(a)))
  {
    hide History, CallOk, Stage;
    Holds(init, s, a);
    Closed(s.hist, s.calls[a]);
    if s.holder in s.calls { SameStage(s, Apply(s, Return(a)), s.calls[s.holder]); }
    Others(s, Apply(s, Return(a)), a);
  }

  lemma Closed(hist: seq<Event>, c: Call)
    requires CallOk(hist, c) && c.at == Asking && c.i == |c.data|
    ensures CallOk(hist, c.(at := Returned, res := Zero))
  {
    hide Target;
    forall j | 0 <= j < |c.mine| ensures Matches(hist[c.mine[j]], c.(at := Returned, res := Zero), j) {
      assert Matches(hist[c.mine[j]], c, j);
    }
  }

  /** One more completed operation; the books stay. */
  lemma Longer(hist: seq<Event>, e: Event, c: Call)
    requires CallOk(hist, c)
    ensures CallOk(hist + [e], c) && Before(c, |hist|)
  {
    hide Matches;
  }

  lemma ReplaySnoc(media0: seq<Data>, hist: seq<Event>, e: Event)
    ensures Replay(media0, hist + [e]) == After(Replay(media0, hist), e)
  {
    assert (hist + [e])[..|hist + [e]| - 1] == hist;
  }

  lemma Replayed(media0: seq<Data>, media: seq<Data>, hist: seq<Event>, e: Event)
    requires History(media0, media, hist)
    requires !e.write && e.code == Ok ==> e.sector < |media| && e.data == media[e.sector]
    ensures History(media0, After(media, e), hist + [e])
  {
    hide Replay, After;
    ReplaySnoc(media0, hist, e);
    var h := hist + [e];
    forall k | 0 <= k < |h| && !h[k].write && h[k].code == Ok
      ensures h[k].sector < |Replay(media0, h[..k])| && h[k].data == Replay(media0, h[..k])[h[k].sector]
    {
      if k < |hist| { assert h[..k] == hist[..k]; } else { assert h[..k] == hist; }
    }
  }

  lemma DeviceKeeps(init: State, s: State, code: Code)
    requires Inv(init, s) && Enabled(s, Device(code))
    ensures Inv(init, Apply(s, Device(code)))
  {
    hide History, Target, CallOk;
    var s', c := Apply(s, Device(code)), s.calls[s.holder];
    BooksOf(s.hist, c);
    var e := s'.hist[|s.hist|];
    Replayed(init.media, s.media, s.hist, e);
    assert After(s.media, e) == s'.media;
    forall a | a in s.calls ensures CallOk(s'.hist, s.calls[a]) && Before(s.calls[a], |s.hist|) { Longer(s.hist, e, s.calls[a]); }
  }

  lemma IrqKeeps(init: State, s: State, step: Step)
    requires Inv(init, s) && Enabled(s, step) && (step == IrqClear || step == IrqStore || step == IrqV)
    ensures Inv(init, Apply(s, step))
  {
    hide History, Target, CallOk, Own, Filled;
  }

  lemma StepKeeps(init: State, s: State, step: Step)
    requires Inv(init, s) && Enabled(s, step)
    ensures Inv(init, Apply(s, step))
  {
    hide Inv;
    match step {
      case Begin(a, write, offset, resid, data) => BeginKeeps(init, s, a, write, offset, resid, data);
      case PClear(a) => PClearKeeps(init, s, a);
      case Load(a) => LoadKeeps(init, s, a);
      case LoadFails(a, err) => LoadFailsKeeps(init, s, a, err);
      case Address(a) => AddressKeeps(init, s, a);
      case Start(a) => StartKeeps(init, s, a);
      case PDone(a) => PDoneKeeps(init, s, a);
      case See(a) => SeeKeeps(init, s, a);
      case CopyOut(a) => CopyKeeps(init, s, a, step);
      case CopyFails(a, err) => CopyKeeps(init, s, a, step);
      case VClear(a) => VClearKeeps(init, s, a);
      case Return(a) => ReturnKeeps(init, s, a);
      case Device(code) => DeviceKeeps(init, s, code);
      case IrqClear => IrqKeeps(init, s, step);
      case IrqStore => IrqKeeps(init, s, step);
      case IrqV => IrqKeeps(init, s, step);
    }
  }

  lemma {:induction false} EveryRun(init: State, s: State, n: nat)
    requires Reaches(init, s, n)
    ensures Inv(init, s) && Initial(init)
    decreases n
  {
    hide Enabled, Apply, Excl, CallsOk;
    if n == 0 {
      Starts(init);
    } else {
      var p, step :| Reaches(init, p, n - 1) && Enabled(p, step) && s == Apply(p, step);
      EveryRun(init, p, n - 1);
      StepKeeps(init, p, step);
    }
  }

  lemma Starts(init: State)
    requires Initial(init)
    ensures Inv(init, init)
  {
  }

  // ----------------------------------------------------------------- what follows

  /** At most one thread is between P(lh_clear) and V(lh_clear), and the semaphores stay in bounds. */
  lemma MutualExclusion(init: State, s: State, n: nat, a: Agent, b: Agent)
    requires Reaches(init, s, n)
    ensures a in s.calls && b in s.calls && Busy(s.calls[a].at) && Busy(s.calls[b].at) ==> a == b
    ensures s.clear <= 1 && s.done <= 1
    ensures a in s.calls && Busy(s.calls[a].at) ==> s.clear == 0
    ensures s.done == 1 ==> s.holder in s.calls && s.calls[s.holder].at == Started
  {
    hide CallOk, Own, Filled, History;
    EveryRun(init, s, n);
  }

  /** When a thread has read the result, the last completed operation is the one it started: in its
      direction, on the sector its offset says, with its data; the result and the buffer are that
      operation's. */
  lemma ResultIsOwn(init: State, s: State, n: nat, a: Agent)
    requires Reaches(init, s, n) && a in s.calls && s.calls[a].at == Seen
    ensures var c := s.calls[a];
      && c.mine != [] && c.mine[|c.mine| - 1] == |s.hist| - 1 && c.i < |c.data|
      && var e := s.hist[|s.hist| - 1];
        && e.write == c.write && e.sector == (Quot(c.offset, SECTSIZE) + c.i) % WORD && e.data == s.buf
        && (c.res == Zero <==> e.code == Ok) && (c.res == EINVAL <==> e.code == InvSect) && (c.res == EIO <==> e.code == Media)
        && (c.write ==> e.data == c.data[c.i])
  {
    hide CallOk, Own, Inv, Reaches;
    EveryRun(init, s, n);
    Holds(init, s, a);
    OwnSays(s.hist, s.buf, s.calls[a], s.calls[a].res);
  }

  lemma OwnSays(hist: seq<Event>, buf: Data, c: Call, r: Result)
    requires Own(hist, buf, c, r)
    ensures c.i < |c.data| && hist != []
    ensures var e := hist[|hist| - 1];
      && e.write == c.write && e.sector == (Quot(c.offset, SECTSIZE) + c.i) % WORD && e.data == buf
      && r == Errno(e.code) && (c.write ==> e.data == c.data[c.i])
  {
    TargetIs(c.offset, c.i);
  }

  /** Counting on from the wrapped sector number and wrapping again. */
  lemma TargetIs(offset: int, j: nat)
    ensures Target(offset, j) == (Quot(offset, SECTSIZE) + j) % WORD
  {
    var q := Quot(offset, SECTSIZE);
    assert (q % WORD + j) % WORD == (q + j) % WORD;
  }

  /** The j-th sector of call c was completed, during the call, by a device operation of its own, on the
      sector its offset says and with its data; what a read delivered is what the disk held after all
      operations before it. */
  predicate Served(media0: seq<Data>, hist: seq<Event>, c: Call, j: nat) {
    && j < |c.mine| && c.from <= c.mine[j] < |hist| && j < |c.data|
    && var e, before := hist[c.mine[j]], Replay(media0, hist[..c.mine[j]]);
      && e.code == Ok && e.write == c.write && e.sector == (Quot(c.offset, SECTSIZE) + j) % WORD
      && (c.write ==> e.data == c.data[j])
      && (!c.write ==> j < |c.out| && e.sector < |before| && c.out[j] == before[e.sector])
  }

  /** A call that returned 0 was served all its sectors, in order. */
  lemma CallIsRight(init: State, s: State, n: nat, a: Agent, j: nat)
    requires Reaches(init, s, n) && a in s.calls
    requires s.calls[a].at == Returned && s.calls[a].res == Zero && j < |s.calls[a].data|
    ensures |s.calls[a].mine| == |s.calls[a].data| && Served(init.media, s.hist, s.calls[a], j)
    ensures forall k :: j < k < |s.calls[a].data| ==> s.calls[a].mine[j] < s.calls[a].mine[k]
  {
    hide Reaches, Replay, CallOk, Served, Excl, ReadsRight;
    EveryRun(init, s, n);
    assert CallOk(s.hist, s.calls[a]);
    IsServed(init.media, s.hist, s.calls[a], j);
  }

  lemma IsServed(media0: seq<Data>, hist: seq<Event>, c: Call, j: nat)
    requires CallOk(hist, c) && ReadsRight(media0, hist) && c.at == Returned && c.res == Zero && j < |c.data|
    ensures |c.mine| == |c.data| && Served(media0, hist, c, j)
    ensures forall k :: j < k < |c.data| ==> c.mine[j] < c.mine[k]
  {
    hide Replay, Target;
    assert Matches(hist[c.mine[j]], c, j);
    TargetIs(c.offset, j);
  }

  lemma {:induction false} ReplayLength(media: seq<Data>, hist: seq<Event>)
    ensures |Replay(media, hist)| == |media|
  {
    if hist == [] {
    } else {
      ReplayLength(media, hist[..|hist| - 1]);
    }
  }

  /** What the number of sectors asked for, and the test on entry, have to do with how a call ends. */
  predicate Gate(c: Call, blocks: nat) {
    && |c.data| == c.resid / SECTSIZE
    && if Admitted(c.offset, c.resid, blocks) then c.at == Returned && |c.mine| == c.i ==> c.res == Zero || c.res.Copy?
       else c.at == Returned && c.res == EINVAL && c.mine == [] && c.out == []
  }

  lemma GateStep(s: State, step: Step, a: Agent)
    requires Enabled(s, step) && a in Apply(s, step).calls
    requires a in s.calls ==> Gate(s.calls[a], |s.media|) && Books(s.calls[a])
    ensures |Apply(s, step).media| == |s.media| && Gate(Apply(s, step).calls[a], |s.media|)
  {
    hide Admitted, Errno, Target;
  }

  lemma {:induction false} EveryGate(init: State, s: State, n: nat, a: Agent)
    requires Reaches(init, s, n)
    ensures |s.media| == |init.media| && (a in s.calls ==> Gate(s.calls[a], |init.media|))
    decreases n
  {
    hide Inv, Enabled, Apply, Gate, CallOk, Stage;
    if n == 0 {
    } else {
      var p, step :| Reaches(init, p, n - 1) && Enabled(p, step) && s == Apply(p, step);
      EveryGate(init, p, n - 1, a);
      EveryRun(init, p, n - 1);
      if a in p.calls { Holds(init, p, a); BooksOf(p.hist, p.calls[a]); }
      if a in s.calls { GateStep(p, step, a); } else { SameLength(p, step); }
    }
  }

  lemma SameLength(s: State, step: Step)
    requires Enabled(s, step)
    ensures |Apply(s, step).media| == |s.media|
  {
  }

  /** The central promise.  For a request within the disk, a read that returned 0 delivered, sector by
      sector from offset / 512 on, what the disk held there at some moment of the call, and a write that
      returned 0 put its data there: right after the operation in question the disk holds it. */
  lemma DiskIsRight(init: State, s: State, n: nat, a: Agent, j: nat)
    requires Reaches(init, s, n) && a in s.calls && s.calls[a].at == Returned && s.calls[a].res == Zero
    requires OnDisk(s.calls[a].offset, s.calls[a].resid, |init.media|) && j < s.calls[a].resid / SECTSIZE
    ensures var c := s.calls[a]; var x := c.offset / SECTSIZE + j;
      && |c.data| == c.resid / SECTSIZE && j < |c.mine| && c.from <= c.mine[j] < |s.hist| && 0 <= x < |init.media|
      && var k := c.mine[j];
        && |Replay(init.media, s.hist[..k])| == |Replay(init.media, s.hist[..k + 1])| == |init.media|
        && (c.write ==> Replay(init.media, s.hist[..k + 1])[x] == c.data[j])
        && (!c.write ==> |c.out| == c.resid / SECTSIZE && c.out[j] == Replay(init.media, s.hist[..k])[x])
  {
    hide Inv, Reaches, Replay, After;
    EveryRun(init, s, n);
    EveryGate(init, s, n, a);
    CallIsRight(init, s, n, a, j);
    Holds(init, s, a);
    var c := s.calls[a];
    var k, x := c.mine[j], c.offset / SECTSIZE + j;
    ReplayLength(init.media, s.hist[..k]);
    ReplayLength(init.media, s.hist[..k + 1]);
    assert s.hist[..k + 1] == s.hist[..k] + [s.hist[k]];
    ReplaySnoc(init.media, s.hist[..k], s.hist[k]);
    assert x < |init.media| < WORD && x % WORD == x;
    if c.write { Lands(Replay(init.media, s.hist[..k]), s.hist[k], x); }
  }

  lemma Lands(media: seq<Data>, e: Event, x: nat)
    requires x < |media| && e.write && e.code == Ok && e.sector == x
    ensures |After(media, e)| == |media| && After(media, e)[x] == e.data
  {
  }

  /** A call that returned an error: EINVAL without an operation exactly when the test on entry failed;
      otherwise the error of uiomove, or of the last operation it started itself. */
  lemma ErrorIsOwn(init: State, s: State, n: nat, a: Agent)
    requires Reaches(init, s, n) && a in s.calls && s.calls[a].at == Returned && s.calls[a].res != Zero
    ensures var c := s.calls[a];
      if !Admitted(c.offset, c.resid, |init.media|) then c.res == EINVAL && c.mine == [] && c.out == []
      else
        || c.res.Copy?
        || (c.mine != [] && c.mine[|c.mine| - 1] < |s.hist| &&
            s.hist[c.mine[|c.mine| - 1]].code == if c.res == EINVAL then InvSect else Media)
  {
    hide Inv, Reaches, Admitted;
    EveryRun(init, s, n);
    EveryGate(init, s, n, a);
    Holds(init, s, a);
  }

  /** No device operation is in two calls' books, and the disk holds what the operations made of it. */
  lemma OneOwner(init: State, s: State, n: nat, a: Agent, b: Agent, j: nat, k: nat)
    requires Reaches(init, s, n) && a in s.calls && b in s.calls && j < |s.calls[a].mine| && k < |s.calls[b].mine|
    requires s.calls[a].mine[j] == s.calls[b].mine[k]
    ensures a == b && j == k && s.media == Replay(init.media, s.hist)
  {
    EveryRun(init, s, n);
    assert a != b ==> !Shared(s.calls[a], s.calls[b]);
    assert CallOk(s.hist, s.calls[a]);
  }

  /** The driver never deadlocks and no completion is lost: while some call has not returned, a call, the
      device or its interrupt handler has a next step, whatever code the device finishes with. */
  lemma NeverStuck(init: State, s: State, n: nat, a: Agent) returns (step: Step)
    requires Reaches(init, s, n) && a in s.calls && s.calls[a].at != Returned
    ensures Enabled(s, step) && !step.Begin?
  {
    hide Reaches;
    EveryRun(init, s, n);
    Holds(init, s, a);
    BooksOf(s.hist, s.calls[a]);
    if s.holder < 0 {
      step := if s.calls[a].i < |s.calls[a].data| then PClear(a) else Return(a);
    } else {
      step := HolderGoesOn(init, s);
    }
  }

  lemma HolderGoesOn(init: State, s: State) returns (step: Step)
    requires Inv(init, s) && s.holder >= 0
    ensures Enabled(s, step) && !step.Begin?
  {
    hide CallOk, Own, History;
    var h := s.holder;
    match s.calls[h].at {
      case Inside => step := Load(h);
      case Loaded => step := Address(h);
      case Addressed => step := Start(h);
      case Started =>
        step := if s.status.Working? then Device(Media) else if s.status.Finished? then IrqClear
                else if s.handler.Cleared? then IrqStore else if s.handler == Stored then IrqV else PDone(h);
      case Woken => step := See(h);
      case Seen => step := CopyOut(h);
      case Copied => step := VClear(h);
    }
  }

  /** k calls have begun. */
  ghost predicate Begun(s: State, k: nat) {
    (forall a :: a in s.calls <==> 0 <= a < k) && forall a :: a in s.calls ==> s.calls[a].at == Asking
  }

  lemma OneBegins(s: State, k: nat)
    requires Begun(s, k)
    ensures Enabled(s, Begin(k, false, 0, 0, [])) && Begun(Apply(s, Begin(k, false, 0, 0, [])), k + 1)
  {
    assert Admitted(0, 0, |s.media|);
    hide Admitted;
  }

  lemma NoneBegun(init: State)
    requires Initial(init)
    ensures Reaches(init, init, 0) && Begun(init, 0)
  {
  }

  lemma OneMore(init: State, s: State, n: nat, step: Step)
    requires Reaches(init, s, n) && Enabled(s, step)
    ensures Reaches(init, Apply(s, step), n + 1)
  {
    hide Enabled, Apply;
  }

  /** Any number of calls can be under way. */
  lemma {:induction false} AnyNumber(init: State, k: nat) returns (s: State)
    requires Initial(init)
    ensures Reaches(init, s, k) && Begun(s, k)
  {
    hide Enabled, Apply, Begun, Reaches;
    if k == 0 {
      s := init;
      NoneBegun(init);
    } else {
      var p := AnyNumber(init, k - 1);
      OneBegins(p, k - 1);
      s := Apply(p, Begin(k - 1, false, 0, 0, []));
      OneMore(init, p, k - 1, Begin(k - 1, false, 0, 0, []));
    }
  }

  /** uiomove can fail while the data of a write is loaded, or while that of a read is copied out: then the
      call returns that error and lh_clear is up again. */
  lemma CopyErrors(init: State, s: State, n: nat, a: Agent, err: int)
    requires Reaches(init, s, n) && a in s.calls && err != 0
    ensures s.calls[a].at == Inside && s.calls[a].write ==>
      && Enabled(s, LoadFails(a, err))
      && var s' := Apply(s, LoadFails(a, err));
        a in s'.calls && s'.calls[a].at == Returned && s'.calls[a].res == Copy(err) && s'.clear == 1
    ensures s.calls[a].at == Seen && !s.calls[a].write && s.calls[a].res == Zero ==>
      && Enabled(s, CopyFails(a, err)) && Enabled(Apply(s, CopyFails(a, err)), VClear(a))
      && var s' := Apply(Apply(s, CopyFails(a, err)), VClear(a));
        a in s'.calls && s'.calls[a].at == Returned && s'.calls[a].res == Copy(err) && s'.clear == 1
  {
    hide Inv, Reaches, CallOk, Stage;
    EveryRun(init, s, n);
    Holds(init, s, a);
  }
}
