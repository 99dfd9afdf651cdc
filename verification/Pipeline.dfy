/** The memory controller and its device as one state machine.

    A state gathers the fields of the request queues, the request scheduler, the command generator, the
    command queues, the command scheduler, the controller and the device.  The device's timing tree is
    represented by the history of issued commands, which is all it stores.  Each function below is what
    one part of a cycle does; the class `MemorySystem` performs them in place.
  */
module Pipeline {
  import opened Options
  import opened DramTiming
  import opened DramTree
  import opened Packets
  import D = Ddr3

  datatype Config = Config(
    dataBus: nat,
    speed: D.Speed, ranks: nat, banks: nat, rows: nat, columns: nat,
    place: nat -> Place,
    requestQueues: nat, requestQueueOf: Place -> nat,
    commandQueues: nat, commandQueueOf: nat -> nat)
  {
    ghost predicate Valid() {
      && 0 < dataBus < WORD
      && 0 < ranks
      && speed.nCWL <= speed.nCL + speed.nBL + 2
      && (forall a: nat :: place(a).bank < 8 && place(a).bank < banks)
      && (forall p: Place :: requestQueueOf(p) < requestQueues)
      && (forall b: nat :: commandQueueOf(b) < commandQueues)
    }

    ghost function Device(): (d: Standard)
      ensures d.WellFormed()
    {
      D.DeviceOk(speed, ranks, banks, rows, columns);
      D.Device(speed, ranks, banks, rows, columns)
    }
  }

  /** A command as it was issued: from which queue, and when. */
  datatype Issue = Issue(queue: nat, packet: Packet, clk: nat)

  datatype State = State(
    clock: nat,
    sizes: map<nat, nat>,                 // remaining size, by serial
    queues: seq<seq<Request>>,
    bankTable: map<nat, nat>,             // the open row of each bank of rank 0
    first: seq<bool>,
    buffer: seq<Packet>,
    cmds: seq<seq<Packet>>,
    timers: seq<map<PacketType, nat>>,
    history: seq<Issue>,
    reading: seq<Packet>, readCycles: seq<nat>,
    writing: seq<Packet>, writeCounters: seq<nat>,
    pendingRead: seq<Request>, pendingWrite: seq<Request>,
    accepted: seq<Request>,               // every request ever added
    delivered: seq<Packet>,               // every data packet that reached its end, tagged RD or WR
    done: seq<Request>)                   // every request called back

  ghost function Start(c: Config): State {
    State(0, map[], seq(c.requestQueues, _ => []), map[], seq(8, _ => true), [],
          seq(c.commandQueues, _ => []), seq(c.commandQueues, _ => map[]), [], [], [], [], [], [], [], [], [], [])
  }

  ghost predicate Shape(c: Config, s: State) {
    && |s.queues| == c.requestQueues
    && |s.first| == 8
    && |s.cmds| == |s.timers| == c.commandQueues
    && |s.reading| == |s.readCycles|
    && |s.writing| == |s.writeCounters|
    && IssuesOk(c, s.history)
    && CommandsOk(c, s.cmds)
    && BufferOk(c, s.buffer)
    && RequestsOk(c, s.queues, s.sizes)
  }

  ghost predicate CommandsOk(c: Config, cmds: seq<seq<Packet>>) {
    forall j, p | 0 <= j < |cmds| && p in cmds[j] :: PacketOk(c, p)
  }

  ghost predicate BufferOk(c: Config, buffer: seq<Packet>) {
    forall p | p in buffer :: PacketOk(c, p)
  }

  ghost predicate RequestsOk(c: Config, queues: seq<seq<Request>>, sizes: map<nat, nat>) {
    forall i, r | 0 <= i < |queues| && r in queues[i] :: r.place == c.place(r.address) && r.serial in sizes
  }

  /** Every command is in the queue that its bank selects. */
  ghost predicate Routed(c: Config, cmds: seq<seq<Packet>>) {
    forall j, p | 0 <= j < |cmds| && p in cmds[j] :: c.commandQueueOf(p.bank) == j
  }

  ghost predicate Tracked(s: State) {
    && (forall r | r in s.pendingRead :: r.serial in s.sizes)
    && (forall r | r in s.pendingWrite :: r.serial in s.sizes)
  }

  /** The state is well formed: what the functions below need, and keep. */
  ghost predicate Good(c: Config, s: State) {
    Shape(c, s) && Tracked(s)
  }

  predicate PacketOk(c: Config, p: Packet) {
    p.bank < c.banks && p.bank < 8 && (p.kind == PRE || p.kind == ACT || p.kind == RD || p.kind == WR)
  }

  ghost predicate IssuesOk(c: Config, h: seq<Issue>) {
    forall i {:trigger h[i]} | 0 <= i < |h| :: PacketOk(c, h[i].packet)
  }

  function AddrOf(p: Packet): seq<int> {
    [0, 0, p.bank, p.row, p.column]
  }

  function ToEvent(e: Issue): Event
    requires Convertible(e.packet.kind)
  {
    Event(Convert(e.packet.kind), AddrOf(e.packet), e.clk)
  }

  /** What the timing tree has been told. */
  ghost function Events(c: Config, h: seq<Issue>): (r: seq<Event>)
    requires IssuesOk(c, h)
    ensures |r| == |h| && forall i | 0 <= i < |h| :: r[i] == ToEvent(h[i])
  {
    seq(|h|, i requires 0 <= i < |h| => ToEvent(h[i]))
  }

  // ---------- a new request ----------

  ghost function AddRequest(c: Config, s: State, requestor: nat, address: nat, isRead: bool, size: nat): State
    requires c.Valid() && Shape(c, s)
  {
    var r := Request(|s.accepted|, requestor, address, isRead, size, c.place(address));
    var i := c.requestQueueOf(r.place);
    s.(sizes := s.sizes[r.serial := size],
       queues := s.queues[i := s.queues[i] + [r]],
       pendingRead := if isRead then s.pendingRead + [r] else s.pendingRead,
       pendingWrite := if isRead then s.pendingWrite else s.pendingWrite + [r],
       accepted := s.accepted + [r])
  }

  // ---------- request scheduling and command generation ----------

  predicate IsRowHit(table: map<nat, nat>, r: Request) {
    r.place.bank in table && table[r.place.bank] == r.place.row
  }

  /** First ready: the first request to an open row, otherwise the first request. */
  function FirstReady(table: map<nat, nat>, q: seq<Request>, from: nat): (k: nat)
    requires q != [] && from <= |q|
    ensures k < |q|
    decreases |q| - from
  {
    if from == |q| then 0
    else if IsRowHit(table, q[from]) then from
    else FirstReady(table, q, from + 1)
  }

  function CommandFor(r: Request, kind: PacketType, column: nat): Packet {
    Packet(kind, r.requestor, r.address, column, r.place.row, r.place.bank, r.place.subArray, 0)
  }

  function Cas(r: Request): PacketType {
    if r.isRead then RD else WR
  }

  function Opening(r: Request, open: bool, first: bool): seq<Packet> {
    if open then []
    else if first then [CommandFor(r, ACT, r.place.col)]
    else [CommandFor(r, PRE, r.place.col), CommandFor(r, ACT, r.place.col)]
  }

  function Bursts(r: Request, n: nat): (ps: seq<Packet>)
    ensures |ps| == n && forall x | 0 <= x < n :: ps[x] == CommandFor(r, Cas(r), r.place.col + x)
  {
    seq(n, x requires 0 <= x < n => CommandFor(r, Cas(r), r.place.col + x))
  }

  /** The commands that a request is cracked into. */
  function Crack(r: Request, open: bool, first: bool, n: nat): seq<Packet> {
    Opening(r, open, first) + Bursts(r, n)
  }

  function Without<T>(q: seq<T>, k: nat): seq<T>
    requires k < |q|
  {
    q[..k] + q[k + 1..]
  }

  function CasCount(size: nat, width: nat): nat
    requires 0 < width
  {
    size / width
  }

  /** Request `k` of queue `i` is scheduled: its commands are generated and the row table follows. */
  ghost function Expand(c: Config, s: State, i: nat, k: nat): State
    requires i < |s.queues| && k < |s.queues[i]| && 0 < c.dataBus
    requires s.queues[i][k].place.bank < |s.first| && s.queues[i][k].serial in s.sizes
  {
    var r := s.queues[i][k];
    var bank, open := r.place.bank, IsRowHit(s.bankTable, r);
    var commands := Crack(r, open, s.first[bank], CasCount(s.sizes[r.serial], c.dataBus));
    s.(queues := s.queues[i := Without(s.queues[i], k)],
       bankTable := s.bankTable[bank := r.place.row],
       first := if open then s.first else s.first[bank := false],
       buffer := s.buffer + commands)
  }

  lemma InQueue(c: Config, s: State, i: nat, k: nat)
    requires c.Valid() && Shape(c, s) && i < |s.queues| && k < |s.queues[i]|
    ensures var r := s.queues[i][k];
            r.place == c.place(r.address) && r.place.bank < 8 && r.place.bank < c.banks && r.serial in s.sizes
  {
    assert s.queues[i][k] in s.queues[i];
  }

  ghost function Schedule(c: Config, s: State, i: nat): State
    requires c.Valid() && Shape(c, s) && i < |s.queues|
  {
    if s.queues[i] == [] then s
    else
      var k := FirstReady(s.bankTable, s.queues[i], 0);
      InQueue(c, s, i, k);
      Expand(c, s, i, k)
  }

  // ---------- commands into their queues ----------

  ghost function Enqueue(c: Config, s: State): State
    requires c.Valid() && Shape(c, s) && s.buffer != []
  {
    var p := s.buffer[0];
    var j := c.commandQueueOf(p.bank);
    s.(buffer := s.buffer[1..], cmds := s.cmds[j := s.cmds[j] + [p.(arriveTime := s.clock)]])
  }

  // ---------- command scheduling ----------

  function Timer(m: map<PacketType, nat>, t: PacketType): nat {
    if t in m then m[t] else 0
  }

  /** The head of queue `j` may be issued: its timer has run out and the device accepts it. */
  ghost predicate Ready(c: Config, s: State, j: nat)
    requires c.Valid() && Shape(c, s)
  {
    && j < |s.cmds|
    && s.cmds[j] != []
    && var p := s.cmds[j][0];
       Timer(s.timers[j], p.kind) == 0 && DeviceAllows(c, s.history, p, s.clock)
  }

  ghost predicate DeviceAllows(c: Config, h: seq<Issue>, p: Packet, clk: nat)
    requires c.Valid() && PacketOk(c, p) && IssuesOk(c, h)
  {
    AddressesOk(c, h, p);
    Allowed(c.Device(), Events(c, h), Convert(p.kind), AddrOf(p), clk)
  }

  lemma AddressesOk(c: Config, h: seq<Issue>, p: Packet)
    requires c.Valid() && PacketOk(c, p) && IssuesOk(c, h)
    ensures HistoryOk(c.Device(), Events(c, h)) && AddrOk(c.Device(), AddrOf(p))
  {
  }

  function Raise(s: D.Speed, m: map<PacketType, nat>, k: PacketType): map<PacketType, nat>
    requires s.nCWL <= s.nCL + s.nBL + 2
  {
    RaiseFirst(s, m, k, |TIMED|)
  }

  /** The timers of the first `n` timed types are raised to the spacing that a `k` imposes. */
  function RaiseFirst(s: D.Speed, m: map<PacketType, nat>, k: PacketType, n: nat): map<PacketType, nat>
    requires s.nCWL <= s.nCL + s.nBL + 2 && n <= |TIMED|
  {
    RaiseAll(s, m, k, TIMED[..n])
  }

  function RaiseAll(s: D.Speed, m: map<PacketType, nat>, k: PacketType, ts: seq<PacketType>): map<PacketType, nat>
    requires s.nCWL <= s.nCL + s.nBL + 2
  {
    m + map t | t in ts :: if Timer(m, t) < CommandTiming(s, k, t) then CommandTiming(s, k, t) else Timer(m, t)
  }

  /** The queues whose heads may be issued. */
  ghost function ReadyQueues(c: Config, s: State): set<nat>
    requires c.Valid() && Shape(c, s)
  {
    set j: nat | j < |s.cmds| && Ready(c, s, j)
  }

  /** The head of queue `j` is older than that of `i`; the later queue counts as older in a tie. */
  predicate Older(cmds: seq<seq<Packet>>, j: nat, i: nat) {
    && j < |cmds| && i < |cmds| && cmds[j] != [] && cmds[i] != []
    && (cmds[j][0].arriveTime < cmds[i][0].arriveTime
        || (cmds[j][0].arriveTime == cmds[i][0].arriveTime && i <= j))
  }

  /** `pick` is the oldest of the queues in `ready`. */
  ghost predicate OldestIn(cmds: seq<seq<Packet>>, ready: set<nat>, pick: Option<nat>) {
    match pick
    case None => ready == {}
    case Some(j) => j in ready && forall i | i in ready :: Older(cmds, j, i)
  }

  ghost predicate Oldest(c: Config, s: State, pick: Option<nat>)
    requires c.Valid() && Shape(c, s)
  {
    OldestIn(s.cmds, ReadyQueues(c, s), pick)
  }

  /** Issuing in two halves: what the controller does, and what the device does. */
  ghost function TakeHead(s: State, speed: D.Speed, j: nat): State
    requires j < |s.cmds| && j < |s.timers| && s.cmds[j] != [] && speed.nCWL <= speed.nCL + speed.nBL + 2
  {
    var p := s.cmds[j][0];
    s.(cmds := s.cmds[j := s.cmds[j][1..]],
       timers := s.timers[j := Raise(speed, s.timers[j], p.kind)],
       writing := s.writing + (if p.kind == WR then [p.(kind := DATA)] else []),
       writeCounters := s.writeCounters + (if p.kind == WR then [speed.nCWL + speed.nBL] else []))
  }

  ghost function Receive(s: State, speed: D.Speed, j: nat, p: Packet): State {
    s.(history := s.history + [Issue(j, p, s.clock)],
       reading := s.reading + (if p.kind == RD then [p.(kind := DATA)] else []),
       readCycles := s.readCycles + (if p.kind == RD then [speed.nCL + speed.nBL] else []))
  }

  /** The head of queue `j` is issued. */
  ghost function IssueHead(c: Config, s: State, j: nat): State
    requires c.Valid() && Shape(c, s) && j < |s.cmds| && s.cmds[j] != []
  {
    Receive(TakeHead(s, c.speed, j), c.speed, j, s.cmds[j][0])
  }

  // ---------- data ----------

  predicate Answers(p: Packet, r: Request) {
    p.requestor == r.requestor && p.address == r.address
  }

  /** The first pending request that a data packet belongs to, or the length of the list. */
  function FirstMatch(pending: seq<Request>, p: Packet, from: nat): (k: nat)
    requires from <= |pending|
    ensures from <= k <= |pending|
    ensures forall i | from <= i < k :: !Answers(p, pending[i])
    ensures k < |pending| ==> Answers(p, pending[k])
    decreases |pending| - from
  {
    if from == |pending| || Answers(p, pending[from]) then from else FirstMatch(pending, p, from + 1)
  }

  /** What a data packet does to a pending list; unsigned sizes wrap. */
  datatype Absorbed = Absorbed(sizes: map<nat, nat>, pending: seq<Request>, completed: seq<Request>)

  function Absorb(width: nat, sizes: map<nat, nat>, pending: seq<Request>, p: Packet): Absorbed
    requires forall r | r in pending :: r.serial in sizes
    requires width < WORD
  {
    var k := FirstMatch(pending, p, 0);
    if k == |pending| then Absorbed(sizes, pending, [])
    else
      var r := pending[k];
      if sizes[r.serial] == width then Absorbed(sizes, Without(pending, k), [r])
      else Absorbed(sizes[r.serial := (sizes[r.serial] + WORD - width) % WORD], pending, [])
  }

  ghost function ReceiveData(c: Config, s: State, p: Packet): State
    requires c.Valid() && Tracked(s)
  {
    var a := Absorb(c.dataBus, s.sizes, s.pendingRead, p);
    s.(sizes := a.sizes, pendingRead := a.pending, done := s.done + a.completed,
       delivered := s.delivered + [p.(kind := RD)])
  }

  ghost function SendData(c: Config, s: State, p: Packet): State
    requires c.Valid() && Tracked(s)
  {
    var a := Absorb(c.dataBus, s.sizes, s.pendingWrite, p);
    s.(sizes := a.sizes, pendingWrite := a.pending, done := s.done + a.completed,
       delivered := s.delivered + [p.(kind := WR)])
  }

  function Decrement(n: nat): nat {
    if n == 0 then WORD - 1 else n - 1
  }

  function CountDown(n: nat): nat {
    if n == 0 then 0 else n - 1
  }

  function Each(f: nat -> nat, q: seq<nat>): (r: seq<nat>)
    ensures |r| == |q| && forall i | 0 <= i < |q| :: r[i] == f(q[i])
  {
    seq(|q|, i requires 0 <= i < |q| => f(q[i]))
  }

  /** Write data whose countdown is over goes to the device; the other countdowns go on. */
  ghost function WriteStage(c: Config, s: State): State
    requires c.Valid() && Good(c, s)
  {
    if s.writing == [] then s
    else if s.writeCounters[0] == 0 then
      SendData(c, s.(writing := s.writing[1..], writeCounters := Each(Decrement, s.writeCounters[1..])), s.writing[0])
    else s.(writeCounters := Each(Decrement, s.writeCounters))
  }

  /** Read data whose latency is over comes back to the controller. */
  ghost function ReadStage(c: Config, s: State): State
    requires c.Valid() && Good(c, s)
  {
    if s.reading == [] then s
    else
      var cycles := Each(CountDown, s.readCycles);
      if cycles[0] == 0 then
        ReceiveData(c, s.(reading := s.reading[1..], readCycles := cycles[1..]), s.reading[0])
      else s.(readCycles := cycles)
  }

  function TickTimer(m: map<PacketType, nat>): map<PacketType, nat> {
    map t | t in m :: CountDown(m[t])
  }

  ghost function Tick(s: State): State {
    s.(clock := s.clock + 1,
       timers := seq(|s.timers|, j requires 0 <= j < |s.timers| => TickTimer(s.timers[j])))
  }

  // ---------- one cycle ----------

  /** Nothing has been issued between `s` and `t`. */
  ghost predicate NothingIssued(s: State, t: State) {
    t.timers == s.timers && t.history == s.history && t.clock == s.clock
  }

  ghost function ScheduleAll(c: Config, s: State, n: nat): State
    requires c.Valid() && Good(c, s) && n <= |s.queues|
    ensures Good(c, ScheduleAll(c, s, n)) && NothingIssued(s, ScheduleAll(c, s, n))
    ensures |ScheduleAll(c, s, n).queues| == |s.queues|
  {
    if n == 0 then s
    else
      var t := ScheduleAll(c, s, n - 1);
      ScheduleGood(c, t, n - 1);
      Schedule(c, t, n - 1)
  }

  ghost function EnqueueAll(c: Config, s: State): (t: State)
    requires c.Valid() && Good(c, s)
    ensures Good(c, t) && t.buffer == [] && NothingIssued(s, t)
    decreases |s.buffer|
  {
    if s.buffer == [] then s
    else
      EnqueueGood(c, s);
      EnqueueAll(c, Enqueue(c, s))
  }

  /** The state in which the command scheduler looks for a command. */
  ghost function Offered(c: Config, s: State): (t: State)
    requires c.Valid() && Good(c, s)
    ensures Good(c, t) && NothingIssued(s, t)
  {
    EnqueueAll(c, ScheduleAll(c, s, |s.queues|))
  }

  ghost function IssuePicked(c: Config, s: State, pick: Option<nat>): (t: State)
    requires c.Valid() && Good(c, s) && (pick.Some? ==> Ready(c, s, pick.value))
    ensures Good(c, t)
  {
    match pick
    case None => s
    case Some(j) =>
      IssueGood(c, s, j);
      IssueHead(c, s, j)
  }

  /** The rest of a cycle once a command has been picked: issue it, move data, count down. */
  ghost function Finish(c: Config, s: State, pick: Option<nat>): (t: State)
    requires c.Valid() && Good(c, s) && (pick.Some? ==> Ready(c, s, pick.value))
    ensures Good(c, t)
  {
    var issued := IssuePicked(c, s, pick);
    WriteStageGood(c, issued);
    var ticked := Tick(WriteStage(c, issued));
    ReadStageGood(c, ticked);
    ReadStage(c, ticked)
  }

  // ---------- every part of a cycle keeps the state well formed ----------

  lemma StartGood(c: Config)
    requires c.Valid()
    ensures Good(c, Start(c))
  {
    assert forall r: Request | r in Start(c).pendingRead :: false;
  }

  lemma AddGood(c: Config, s: State, requestor: nat, address: nat, isRead: bool, size: nat)
    requires c.Valid() && Good(c, s)
    ensures Good(c, AddRequest(c, s, requestor, address, isRead, size))
  {
    assert c.requestQueueOf(c.place(address)) < c.requestQueues;
  }

  lemma ExpandGood(c: Config, s: State, i: nat, k: nat)
    requires c.Valid() && Good(c, s) && i < |s.queues| && k < |s.queues[i]|
    requires s.queues[i][k].place.bank < 8 && s.queues[i][k].place.bank < c.banks && s.queues[i][k].serial in s.sizes
    ensures Good(c, Expand(c, s, i, k))
  {
    var r := s.queues[i][k];
    var t := Expand(c, s, i, k);
    var bank, open := r.place.bank, IsRowHit(s.bankTable, r);
    var commands := Crack(r, open, s.first[bank], CasCount(s.sizes[r.serial], c.dataBus));
    forall p | p in t.buffer ensures PacketOk(c, p) {
      if p !in s.buffer {
        assert p in commands;
      }
    }
  }

  lemma ScheduleGood(c: Config, s: State, i: nat)
    requires c.Valid() && Good(c, s) && i < |s.queues|
    ensures Good(c, Schedule(c, s, i)) && NothingIssued(s, Schedule(c, s, i))
  {
    if s.queues[i] != [] {
      var k := FirstReady(s.bankTable, s.queues[i], 0);
      InQueue(c, s, i, k);
      ExpandGood(c, s, i, k);
    }
  }

  lemma EnqueueGood(c: Config, s: State)
    requires c.Valid() && Good(c, s) && s.buffer != []
    ensures Good(c, Enqueue(c, s)) && NothingIssued(s, Enqueue(c, s))
  {
    var p := s.buffer[0];
    assert PacketOk(c, p);
    assert c.commandQueueOf(p.bank) < c.commandQueues;
  }

  lemma IssueGood(c: Config, s: State, j: nat)
    requires c.Valid() && Good(c, s) && j < |s.cmds| && s.cmds[j] != []
    ensures Good(c, IssueHead(c, s, j))
  {
    assert PacketOk(c, s.cmds[j][0]);
  }

  lemma WriteStageGood(c: Config, s: State)
    requires c.Valid() && Good(c, s)
    ensures Good(c, WriteStage(c, s))
  {
  }

  lemma ReadStageGood(c: Config, s: State)
    requires c.Valid() && Good(c, s)
    ensures Good(c, ReadStage(c, s))
  {
  }

  ghost predicate SameCommands(s: State, t: State) {
    && t.history == s.history && t.cmds == s.cmds && t.buffer == s.buffer && t.queues == s.queues
    && t.bankTable == s.bankTable && t.first == s.first && t.accepted == s.accepted
  }

  lemma WriteStageKeeps(c: Config, s: State)
    requires c.Valid() && Good(c, s)
    ensures SameCommands(s, WriteStage(c, s))
    ensures WriteStage(c, s).timers == s.timers && WriteStage(c, s).clock == s.clock
  {
  }

  lemma ReadStageKeeps(c: Config, s: State)
    requires c.Valid() && Good(c, s)
    ensures SameCommands(s, ReadStage(c, s))
    ensures ReadStage(c, s).timers == s.timers && ReadStage(c, s).clock == s.clock
  {
  }

  /** Moving data and counting down leave commands, the row table and the flags alone. */
  lemma FinishKeepsCommands(c: Config, s: State, pick: Option<nat>)
    requires c.Valid() && Good(c, s) && (pick.Some? ==> Ready(c, s, pick.value))
    ensures SameCommands(IssuePicked(c, s, pick), Finish(c, s, pick))
    ensures Finish(c, s, pick).timers == Tick(IssuePicked(c, s, pick)).timers
    ensures Finish(c, s, pick).clock == s.clock + 1
  {
    var t := IssuePicked(c, s, pick);
    WriteStageGood(c, t);
    WriteStageKeeps(c, t);
    ReadStageKeeps(c, Tick(WriteStage(c, t)));
  }
}
