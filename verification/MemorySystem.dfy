/** The controller and its device, updated in place.

    The request queues, the schedulers and the generator each belong to one controller and share its
    queues by reference, so their fields are gathered in one object; the device keeps its own.  Every
    method is specified by the function of `Pipeline` that it performs.
  */
module MemorySystem {
  import opened Options
  import opened DramTiming
  import opened DramTree
  import opened Packets
  import opened Pipeline
  import opened QueueTimers
  import L = PipelineLaws
  import D = Ddr3

  class MemoryDevice {
    const c: Config
    const channel: Node
    var clockCycle: nat
    var dataCycles: seq<nat>
    var pendingReadData: seq<Packet>
    ghost var history: seq<Issue>

    ghost predicate Valid()
      reads this, channel.Nodes
    {
      && c.Valid()
      && channel.Valid() && channel.spec == c.Device() && channel.level == 0 && channel.id == 0
      && IssuesOk(c, history)
      && HistoryOk(c.Device(), Events(c, history))
      && channel.Reflects(Events(c, history))
    }

    constructor (c: Config)
      requires c.Valid()
      ensures Valid() && this.c == c && fresh(channel.Nodes)
      ensures clockCycle == 0 && dataCycles == [] && pendingReadData == [] && history == []
    {
      var spec := D.Device(c.speed, c.ranks, c.banks, c.rows, c.columns);
      D.DeviceOk(c.speed, c.ranks, c.banks, c.rows, c.columns);
      this.c := c;
      channel := new Node(spec, 0, 0, []);
      clockCycle, dataCycles, pendingReadData, history := 0, [], [], [];
    }

    method CommandCheck(p: Packet) returns (ok: bool)
      requires Valid() && PacketOk(c, p)
      ensures ok <==> DeviceAllows(c, history, p, clockCycle)
      ensures ok <==> AllGaps(c, history, p, clockCycle) && (p.kind == ACT ==> WindowGap(c.speed, history, clockCycle))
    {
      DeviceAllowsGaps(c, history, p, clockCycle);
      ok := CheckTree(p);
    }

    method CheckTree(p: Packet) returns (ok: bool)
      requires Valid() && PacketOk(c, p)
      ensures ok <==> DeviceAllows(c, history, p, clockCycle)
    {
      AddressesOk(c, history, p);
      CheckIsExact(channel, Events(c, history), Convert(p.kind), AddrOf(p), clockCycle);
      ok := channel.Check(Convert(p.kind), AddrOf(p), clockCycle);
    }

    /** A command reaches the device; `queue` is where it came from. */
    method ReceiveFromBus(p: Packet, ghost queue: nat)
      requires Valid() && PacketOk(c, p)
      modifies this, channel.Nodes
      ensures Valid() && clockCycle == old(clockCycle)
      ensures history == old(history) + [Issue(queue, p, clockCycle)]
      ensures pendingReadData == old(pendingReadData) + if p.kind == RD then [p.(kind := DATA)] else []
      ensures dataCycles == old(dataCycles) + if p.kind == RD then [c.speed.nCL + c.speed.nBL] else []
    {
      AddressesOk(c, history, p);
      EventsNext(c, history, Issue(queue, p, clockCycle));
      channel.Update(Convert(p.kind), AddrOf(p), clockCycle, Events(c, history));
      history := history + [Issue(queue, p, clockCycle)];
      if p.kind == RD || p.kind == RDA {
        pendingReadData := pendingReadData + [p.(kind := DATA)];
        dataCycles := dataCycles + [c.speed.nCL + c.speed.nBL];
      }
    }

    method CountReadsDown()
      modifies this`dataCycles
      ensures dataCycles == Each(CountDown, old(dataCycles))
    {
      ghost var before := dataCycles;
      for i := 0 to |dataCycles|
        invariant |dataCycles| == |before|
        invariant forall n | 0 <= n < |before| :: dataCycles[n] == if n < i then CountDown(before[n]) else before[n]
      {
        if dataCycles[i] > 0 {
          dataCycles := dataCycles[i := dataCycles[i] - 1];
        }
      }
    }
  }

  /** The controller with everything it owns. */
  class MemorySystem {
    const c: Config
    const device: MemoryDevice
    var clockCycle: nat
    var requestSize: map<nat, nat>
    var requestQueue: seq<seq<Request>>
    var bankTable: map<nat, nat>
    var first: seq<bool>
    var commandBuffer: seq<Packet>
    var commandQueue: seq<seq<Packet>>
    var cmdQueueTimer: seq<map<PacketType, nat>>
    var sendDataBuffer: seq<Packet>
    var sendDataCounter: seq<nat>
    var pendingReadRequest: seq<Request>
    var pendingWriteRequest: seq<Request>
    var serials: nat
    ghost var accepted: seq<Request>
    ghost var delivered: seq<Packet>
    ghost var done: seq<Request>

    ghost function Model(): State
      reads this, device
    {
      State(clockCycle, requestSize, requestQueue, bankTable, first, commandBuffer, commandQueue, cmdQueueTimer,
            device.history, device.pendingReadData, device.dataCycles, sendDataBuffer, sendDataCounter,
            pendingReadRequest, pendingWriteRequest, accepted, delivered, done)
    }

    ghost predicate DeviceValid()
      reads device, device.channel.Nodes
    {
      c.Valid() && device.c == c && device.Valid()
    }

    /** The controller's clock is `ahead` of the device's: by one between their two updates. */
    ghost predicate ValidAt(ahead: nat)
      reads this, device, device.channel.Nodes
    {
      && DeviceValid()
      && Good(c, Model())
      && clockCycle == device.clockCycle + ahead
      && serials == |accepted|
    }

    ghost predicate Valid()
      reads this, device, device.channel.Nodes
    {
      ValidAt(0)
    }

    constructor (c: Config)
      requires c.Valid()
      ensures Valid() && this.c == c && Model() == Start(c) && fresh(device) && fresh(device.channel.Nodes)
    {
      this.c := c;
      device := new MemoryDevice(c);
      clockCycle, serials := 0, 0;
      requestSize, bankTable := map[], map[];
      requestQueue := seq(c.requestQueues, _ => []);
      first := seq(8, _ => true);
      commandBuffer := [];
      commandQueue := seq(c.commandQueues, _ => []);
      cmdQueueTimer := seq(c.commandQueues, _ => map[]);
      sendDataBuffer, sendDataCounter := [], [];
      pendingReadRequest, pendingWriteRequest := [], [];
      accepted, delivered, done := [], [], [];
      new;
      StartGood(c);
      assert Model() == Start(c);
    }

    method AddRequest(requestor: nat, address: nat, isRead: bool, size: nat)
      requires Valid()
      modifies this
      ensures Valid() && Model() == Pipeline.AddRequest(c, old(Model()), requestor, address, isRead, size)
      ensures Entered(old(Model()), Model(),
                      Request(|old(accepted)|, requestor, address, isRead, size, c.place(address)))
    {
      ghost var s := Model();
      AddGood(c, s, requestor, address, isRead, size);
      assert c.requestQueueOf(c.place(address)) < c.requestQueues;
      InsertRequest(requestor, address, isRead, size);
      assert Model() == Pipeline.AddRequest(c, s, requestor, address, isRead, size);
    }

    /** Request `r` is in the queue of its place, on the pending list of its direction, and has its whole size left. */
    ghost predicate Entered(s: State, t: State, r: Request) {
      var i := c.requestQueueOf(c.place(r.address));
      && i < |s.queues| && t.queues == s.queues[i := s.queues[i] + [r]]
      && t.sizes == s.sizes[r.serial := r.size]
      && t.pendingRead == s.pendingRead + (if r.isRead then [r] else [])
      && t.pendingWrite == s.pendingWrite + (if r.isRead then [] else [r])
      && t.accepted == s.accepted + [r]
    }

    method InsertRequest(requestor: nat, address: nat, isRead: bool, size: nat)
      requires c.requestQueueOf(c.place(address)) < |requestQueue| && serials == |accepted|
      modifies this`requestSize, this`requestQueue, this`serials, this`accepted
      modifies this`pendingReadRequest, this`pendingWriteRequest
      ensures var r := Request(|old(accepted)|, requestor, address, isRead, size, c.place(address));
              var i := c.requestQueueOf(r.place);
              && requestSize == old(requestSize)[r.serial := size]
              && requestQueue == old(requestQueue)[i := old(requestQueue)[i] + [r]]
              && pendingReadRequest == old(pendingReadRequest) + (if isRead then [r] else [])
              && pendingWriteRequest == old(pendingWriteRequest) + (if isRead then [] else [r])
              && accepted == old(accepted) + [r]
      ensures serials == |accepted|
    {
      var r := Request(serials, requestor, address, isRead, size, c.place(address));
      serials := serials + 1;
      requestSize := requestSize[r.serial := size];
      var i := c.requestQueueOf(r.place);
      requestQueue := requestQueue[i := requestQueue[i] + [r]];
      if isRead {
        pendingReadRequest := pendingReadRequest + [r];
      } else {
        pendingWriteRequest := pendingWriteRequest + [r];
      }
      accepted := accepted + [r];
    }

    /** The index of the request to schedule from a non-empty queue. */
    method ScheduleFR(i: nat) returns (k: nat)
      requires i < |requestQueue| && requestQueue[i] != []
      ensures k == FirstReady(bankTable, requestQueue[i], 0) < |requestQueue[i]|
      ensures var q := requestQueue[i];
              if exists n :: 0 <= n < |q|
                   && q[n].place.bank in bankTable && bankTable[q[n].place.bank] == q[n].place.row
              then q[k].place.bank in bankTable && bankTable[q[k].place.bank] == q[k].place.row
                   && forall n | 0 <= n < k ::
                        q[n].place.bank !in bankTable || bankTable[q[n].place.bank] != q[n].place.row
              else k == 0
    {
      L.RowHitFirst(bankTable, requestQueue[i], 0);
      var index := 0;
      while index < |requestQueue[i]|
        invariant index <= |requestQueue[i]|
        invariant FirstReady(bankTable, requestQueue[i], index) == FirstReady(bankTable, requestQueue[i], 0)
      {
        if IsRowHit(bankTable, requestQueue[i][index]) {
          return index;
        }
        index := index + 1;
      }
      k := 0;
    }

    method CommandGenerate(r: Request, open: bool)
      requires r.place.bank < |first| && 0 < c.dataBus && r.serial in requestSize
      modifies this`first, this`commandBuffer
      ensures first == if open then old(first) else old(first)[r.place.bank := false]
      ensures commandBuffer == old(commandBuffer) +
              Crack(r, open, old(first)[r.place.bank], CasCount(requestSize[r.serial], c.dataBus))
      ensures |old(commandBuffer)| <= |commandBuffer|
      ensures L.OpensAndMoves(commandBuffer[|old(commandBuffer)|..], r,
                              if open then 0 else if old(first)[r.place.bank] then 1 else 2,
                              requestSize[r.serial] / c.dataBus)
    {
      ghost var before := commandBuffer;
      L.CrackFor(r, open, first[r.place.bank], CasCount(requestSize[r.serial], c.dataBus));
      var bank := r.place.bank;
      var size := requestSize[r.serial] / c.dataBus;
      if !open && !first[bank] {
        commandBuffer := commandBuffer + [CommandFor(r, PRE, r.place.col)];
        commandBuffer := commandBuffer + [CommandFor(r, ACT, r.place.col)];
      } else if !open && first[bank] {
        commandBuffer := commandBuffer + [CommandFor(r, ACT, r.place.col)];
        first := first[bank := false];
      }
      assert commandBuffer == before + Opening(r, open, old(first)[bank]);
      assert open || first == old(first)[bank := false];
      for x := 0 to size
        invariant first == if open then old(first) else old(first)[bank := false]
        invariant commandBuffer == before + Opening(r, open, old(first)[bank]) + Bursts(r, x)
      {
        assert Bursts(r, x + 1) == Bursts(r, x) + [CommandFor(r, Cas(r), r.place.col + x)];
        commandBuffer := commandBuffer + [CommandFor(r, Cas(r), r.place.col + x)];
      }
      ghost var commands := Crack(r, open, old(first)[bank], size);
      assert commandBuffer == before + commands;
      assert commandBuffer[|before|..] == commands;
    }

    /** One request from every queue. */
    method RequestSchedule()
      requires Valid()
      modifies this
      ensures Valid() && Model() == ScheduleAll(c, old(Model()), |old(Model()).queues|)
      ensures L.OneTaken(old(Model()), Model())
    {
      L.ScheduledTakes(c, Model());
      ScheduleQueues();
    }

    method ScheduleQueues()
      requires Valid()
      modifies this
      ensures Valid() && Model() == ScheduleAll(c, old(Model()), |old(Model()).queues|)
    {
      ghost var s := Model();
      for index := 0 to |requestQueue|
        invariant Valid() && |requestQueue| == |s.queues|
        invariant Scheduled(s, index, Model())
      {
        ScheduleOne(index);
      }
    }

    ghost predicate Scheduled(s: State, n: nat, t: State) {
      c.Valid() && Good(c, s) && n <= |s.queues| && t == ScheduleAll(c, s, n)
    }

    method ScheduleOne(index: nat)
      requires Valid() && index < |requestQueue|
      modifies this
      ensures Valid() && Model() == Schedule(c, old(Model()), index)
    {
      ScheduleGood(c, Model(), index);
      if |requestQueue[index]| > 0 {
        var k := ScheduleFR(index);
        InQueue(c, Model(), index, k);
        TakeRequest(index, k);
      }
    }

    method TakeRequest(index: nat, k: nat)
      requires index < |requestQueue| && k < |requestQueue[index]| && 0 < c.dataBus
      requires requestQueue[index][k].place.bank < |first| && requestQueue[index][k].serial in requestSize
      modifies this
      ensures Model() == Expand(c, old(Model()), index, k) && serials == old(serials)
    {
      var r := requestQueue[index][k];
      CommandGenerate(r, IsRowHit(bankTable, r));
      bankTable := bankTable[r.place.bank := r.place.row];
      requestQueue := requestQueue[index := Without(requestQueue[index], k)];
    }

    method EnqueueCommand()
      requires Valid() && commandBuffer != []
      modifies this
      ensures Valid() && Model() == Enqueue(c, old(Model()))
    {
      EnqueueGood(c, Model());
      var p := commandBuffer[0];
      assert PacketOk(c, p);
      var j := c.commandQueueOf(p.bank);
      assert j < c.commandQueues;
      commandQueue := commandQueue[j := commandQueue[j] + [p.(arriveTime := clockCycle)]];
      commandBuffer := commandBuffer[1..];
    }

    /** The timer of queue `j` for `p` has run out, and all that was issued is as far away as the device wants. */
    ghost predicate MayIssue(j: nat, p: Packet)
      requires j < |cmdQueueTimer|
      reads this, device
    {
      && (p.kind in cmdQueueTimer[j] ==> cmdQueueTimer[j][p.kind] == 0)
      && (forall i | 0 <= i < |device.history| ::
            DeviceGap(c.speed, device.history[i].packet, p, clockCycle - device.history[i].clk))
      && (p.kind == ACT ==> WindowGap(c.speed, device.history, clockCycle))
    }

    method IsReadyAndIssuable(j: nat, ghost ready: set<nat>) returns (ok: bool)
      requires Valid() && j < |commandQueue| && ready == ReadyQueues(c, Model())
      ensures ok <==> j in ready
      ensures ok ==> commandQueue[j] != []
      ensures commandQueue[j] != [] ==> (ok <==> MayIssue(j, commandQueue[j][0]))
    {
      if |commandQueue[j]| == 0 {
        return false;
      }
      L.ReadyIff(c, Model(), j);
      var p := commandQueue[j][0];
      assert p in commandQueue[j] && PacketOk(c, p);
      if p.kind in cmdQueueTimer[j] && cmdQueueTimer[j][p.kind] != 0 {
        return false;
      }
      ok := device.CommandCheck(p);
    }

    /** The oldest head that is ready in its queue and on the device: one pass finds whether there is
        one, a second pass finds the oldest. */
    method PickCommand() returns (pick: Option<nat>)
      requires Valid()
      ensures Oldest(c, Model(), pick)
      ensures pick.None? <==> ReadyQueues(c, Model()) == {}
      ensures pick.Some? ==> pick.value < |commandQueue| && commandQueue[pick.value] != []
      ensures pick.Some? ==> forall i | i in ReadyQueues(c, Model()) && i != pick.value ::
                commandQueue[i] != []
                && (if i < pick.value then commandQueue[pick.value][0].arriveTime <= commandQueue[i][0].arriveTime
                    else commandQueue[pick.value][0].arriveTime < commandQueue[i][0].arriveTime)
    {
      var best, found := FindReady();
      if !found {
        return None;
      }
      best := FindOldest(best);
      pick := Some(best);
    }

    method FindReady() returns (best: nat, found: bool)
      requires Valid()
      ensures !found ==> ReadyQueues(c, Model()) == {}
      ensures found ==> best in ReadyQueues(c, Model()) && forall i | i in ReadyQueues(c, Model()) :: i <= best
    {
      ghost var ready := ReadyQueues(c, Model());
      best, found := 0, false;
      for index := 0 to |commandQueue|
        invariant LastReady(ready, index, best, found)
      {
        var ok := IsReadyAndIssuable(index, ready);
        LastReadyNext(ready, index, best, found);
        if ok {
          best, found := index, true;
        }
      }
    }

    method FindOldest(last: nat) returns (best: nat)
      requires Valid() && last in ReadyQueues(c, Model())
      requires forall i | i in ReadyQueues(c, Model()) :: i <= last
      ensures OldestIn(commandQueue, ReadyQueues(c, Model()), Some(best))
    {
      ghost var ready := ReadyQueues(c, Model());
      best := last;
      for index := 0 to |commandQueue|
        invariant best in ready && OldestSoFar(commandQueue, ready, last, best, index)
      {
        var ok := IsReadyAndIssuable(index, ready);
        OldestNext(commandQueue, ready, last, best, index);
        if ok && commandQueue[best][0].arriveTime >= commandQueue[index][0].arriveTime {
          best := index;
        }
      }
    }

    method EnqueueCommands()
      requires Valid()
      modifies this
      ensures Valid() && Model() == EnqueueAll(c, old(Model()))
      ensures commandBuffer == [] && |commandQueue| == |old(commandQueue)|
      ensures forall j | 0 <= j < |commandQueue| ::
                commandQueue[j] == old(commandQueue)[j] + L.ForQueue(c, old(commandBuffer), j, clockCycle)
    {
      ghost var s := Model();
      while |commandBuffer| > 0
        invariant Valid() && Drained(s, Model())
        decreases |commandBuffer|
      {
        EnqueueCommand();
      }
      forall j | 0 <= j < |commandQueue| ensures commandQueue[j] == s.cmds[j] + L.ForQueue(c, s.buffer, j, s.clock) {
        L.EnqueueAllIs(c, s, j);
      }
    }

    ghost predicate Drained(s: State, t: State) {
      c.Valid() && Good(c, s) && Good(c, t) && EnqueueAll(c, t) == EnqueueAll(c, s)
    }

    method RaiseTimers(j: nat, k: PacketType)
      requires j < |cmdQueueTimer| && c.Valid()
      modifies this`cmdQueueTimer
      ensures cmdQueueTimer == old(cmdQueueTimer)[j := Raise(c.speed, old(cmdQueueTimer)[j], k)]
      ensures forall t | t in TIMED ::
                var was, wait := Timer(old(cmdQueueTimer)[j], t), CommandTiming(c.speed, k, t);
                Timer(cmdQueueTimer[j], t) == if was < wait then wait else was
    {
      var timers := cmdQueueTimer;
      var timer := timers[j];
      RaiseNone(c.speed, timer, k);
      for i := 0 to |TIMED|
        invariant timer == RaiseFirst(c.speed, timers[j], k, i)
      {
        var t := TIMED[i];
        var now, wait := Timer(timer, t), CommandTiming(c.speed, k, t);
        RaiseNext(c.speed, timers[j], k, i);
        timer := timer[t := if now < wait then wait else now];
      }
      cmdQueueTimer := timers[j := timer];
      forall t | t in TIMED
        ensures var was, wait := Timer(timers[j], t), CommandTiming(c.speed, k, t);
                Timer(timer, t) == if was < wait then wait else was
      {
        RaiseExact(c.speed, timers[j], k, t);
      }
    }

    /** Issue the head of queue `j`. */
    method SendCommand(j: nat)
      requires Valid() && j < |commandQueue| && commandQueue[j] != []
      modifies this, device, device.channel.Nodes
      ensures Valid() && Model() == IssueHead(c, old(Model()), j)
    {
      IssueGood(c, Model(), j);
      SendFields(j);
    }

    method SendFields(j: nat)
      requires DeviceValid() && Good(c, Model()) && clockCycle == device.clockCycle
      requires j < |commandQueue| && commandQueue[j] != []
      modifies this`cmdQueueTimer, this`commandQueue, this`sendDataBuffer, this`sendDataCounter
      modifies device, device.channel.Nodes
      ensures DeviceValid() && device.clockCycle == clockCycle && Model() == IssueHead(c, old(Model()), j)
    {
      HeadOk(j);
      var p := TakeHead(j);
      ToDevice(p, j);
    }

    method ToDevice(p: Packet, ghost j: nat)
      requires DeviceValid() && PacketOk(c, p) && clockCycle == device.clockCycle
      modifies device, device.channel.Nodes
      ensures DeviceValid() && device.clockCycle == clockCycle
      ensures Model() == Receive(old(Model()), c.speed, j, p)
    {
      device.ReceiveFromBus(p, j);
    }

    lemma HeadOk(j: nat)
      requires CommandsOk(c, commandQueue) && j < |commandQueue| && commandQueue[j] != []
      ensures PacketOk(c, commandQueue[j][0])
    {
      assert commandQueue[j][0] in commandQueue[j];
    }

    /** The controller's side of issuing a command: timers, queue and write data. */
    method TakeHead(j: nat) returns (p: Packet)
      requires c.Valid() && j < |commandQueue| && j < |cmdQueueTimer| && commandQueue[j] != []
      requires commandQueue[j][0].kind != WRA
      modifies this`cmdQueueTimer, this`commandQueue, this`sendDataBuffer, this`sendDataCounter
      ensures p == old(commandQueue)[j][0]
      ensures Model() == Pipeline.TakeHead(old(Model()), c.speed, j)
    {
      p := commandQueue[j][0];
      RaiseTimers(j, p.kind);
      commandQueue := commandQueue[j := commandQueue[j][1..]];
      AwaitWriteData(p);
    }

    /** The data of a write waits for its turn on the bus. */
    method AwaitWriteData(p: Packet)
      modifies this`sendDataBuffer, this`sendDataCounter
      ensures var write := p.kind == WR || p.kind == WRA;
              && sendDataBuffer == old(sendDataBuffer) + (if write then [p.(kind := DATA)] else [])
              && sendDataCounter == old(sendDataCounter) + (if write then [c.speed.nCWL + c.speed.nBL] else [])
    {
      if p.kind == WR || p.kind == WRA {
        sendDataBuffer := sendDataBuffer + [p.(kind := DATA)];
        sendDataCounter := sendDataCounter + [c.speed.nCWL + c.speed.nBL];
      }
    }

    /** The first pending request that a data packet answers. */
    method FindPending(pending: seq<Request>, p: Packet) returns (k: nat)
      ensures k == FirstMatch(pending, p, 0)
    {
      k := 0;
      while k < |pending| && !Answers(p, pending[k])
        invariant k <= |pending| && FirstMatch(pending, p, k) == FirstMatch(pending, p, 0)
      {
        k := k + 1;
      }
    }

    method ReceiveData(p: Packet)
      requires c.Valid() && Tracked(Model())
      modifies this`requestSize, this`pendingReadRequest, this`done, this`delivered
      ensures Model() == Pipeline.ReceiveData(c, old(Model()), p)
    {
      var index := FindPending(pendingReadRequest, p);
      if index < |pendingReadRequest| {
        var r := pendingReadRequest[index];
        assert r in pendingReadRequest;
        if requestSize[r.serial] == c.dataBus {
          done := done + [r];
          pendingReadRequest := pendingReadRequest[..index] + pendingReadRequest[index + 1..];
        } else {
          requestSize := requestSize[r.serial := (requestSize[r.serial] + WORD - c.dataBus) % WORD];
        }
      }
      assert old(done) + [] == old(done);
      delivered := delivered + [p.(kind := RD)];
    }

    method SendData(p: Packet)
      requires c.Valid() && Tracked(Model())
      modifies this`requestSize, this`pendingWriteRequest, this`done, this`delivered
      ensures Model() == Pipeline.SendData(c, old(Model()), p)
    {
      var index := FindPending(pendingWriteRequest, p);
      if index < |pendingWriteRequest| {
        var r := pendingWriteRequest[index];
        assert r in pendingWriteRequest;
        if requestSize[r.serial] == c.dataBus {
          done := done + [r];
          pendingWriteRequest := pendingWriteRequest[..index] + pendingWriteRequest[index + 1..];
        } else {
          requestSize := requestSize[r.serial := (requestSize[r.serial] + WORD - c.dataBus) % WORD];
        }
      }
      assert old(done) + [] == old(done);
      delivered := delivered + [p.(kind := WR)];
    }

    /** Write data whose countdown is over is sent; the other countdowns go on. */
    method MoveWriteData()
      requires Valid()
      modifies this
      ensures Valid() && Model() == WriteStage(c, old(Model()))
    {
      WriteStageGood(c, Model());
      MoveWriteFields();
    }

    method MoveWriteFields()
      requires c.Valid() && Good(c, Model())
      modifies this`requestSize, this`pendingWriteRequest, this`done, this`delivered, this`sendDataBuffer,
               this`sendDataCounter
      ensures Model() == WriteStage(c, old(Model()))
    {
      if |sendDataCounter| > 0 {
        if sendDataCounter[0] == 0 {
          SendData(sendDataBuffer[0]);
          sendDataCounter := sendDataCounter[1..];
          sendDataBuffer := sendDataBuffer[1..];
        }
        CountWritesDown();
      }
    }

    method CountWritesDown()
      modifies this`sendDataCounter
      ensures sendDataCounter == Each(Decrement, old(sendDataCounter))
    {
      ghost var before := sendDataCounter;
      for i := 0 to |sendDataCounter|
        invariant |sendDataCounter| == |before|
        invariant forall n | 0 <= n < |before| ::
                    sendDataCounter[n] == if n < i then Decrement(before[n]) else before[n]
      {
        sendDataCounter := sendDataCounter[i := Decrement(sendDataCounter[i])];
      }
    }

    /** Count the timers of every queue down. */
    method TickTimers()
      requires Valid()
      modifies this
      ensures ValidAt(1) && Model() == Tick(old(Model()))
    {
      ghost var before := cmdQueueTimer;
      for j := 0 to |cmdQueueTimer|
        modifies this`cmdQueueTimer
        invariant |cmdQueueTimer| == |before|
        invariant forall n | 0 <= n < |before| ::
                    cmdQueueTimer[n] == if n < j then TickTimer(before[n]) else before[n]
      {
        cmdQueueTimer := cmdQueueTimer[j := TickTimer(cmdQueueTimer[j])];
      }
      clockCycle := clockCycle + 1;
      assert Model() == Tick(old(Model()));
    }

    /** The device's half of a cycle: read data whose latency is over comes back. */
    method DeviceUpdate()
      requires ValidAt(1)
      modifies this, device
      ensures Valid() && Model() == ReadStage(c, old(Model()))
    {
      ReadStageGood(c, Model());
      DeviceFields();
    }

    method DeviceFields()
      requires DeviceValid() && Good(c, Model())
      modifies this`requestSize, this`pendingReadRequest, this`done, this`delivered
      modifies device`dataCycles, device`pendingReadData, device`clockCycle
      ensures DeviceValid() && device.clockCycle == old(device.clockCycle) + 1
      ensures Model() == ReadStage(c, old(Model()))
    {
      if |device.pendingReadData| > 0 {
        device.CountReadsDown();
        if device.dataCycles[0] == 0 {
          device.dataCycles := device.dataCycles[1..];
          ReceiveData(device.pendingReadData[0]);
          device.pendingReadData := device.pendingReadData[1..];
        }
      }
      device.clockCycle := device.clockCycle + 1;
    }

    /** One cycle of the controller and then of the device. */
    method Update() returns (ghost pick: Option<nat>)
      requires Valid()
      modifies this, device, device.channel.Nodes
      ensures Valid()
      ensures Oldest(c, Offered(c, old(Model())), pick)
      ensures pick.Some? ==> Ready(c, Offered(c, old(Model())), pick.value)
      ensures Model() == Finish(c, Offered(c, old(Model())), pick)
      ensures commandBuffer == [] && L.OneTaken(old(Model()), Model())
    {
      ghost var s := Model();
      RequestSchedule();
      EnqueueCommands();
      var j := PickCommand();
      pick := j;
      if j.Some? {
        SendCommand(j.value);
      }
      MoveWriteData();
      TickTimers();
      DeviceUpdate();
      L.CycleTakes(c, s, j);
    }
  }

  lemma EventsNext(c: Config, h: seq<Issue>, e: Issue)
    requires IssuesOk(c, h) && PacketOk(c, e.packet)
    ensures IssuesOk(c, h + [e]) && Events(c, h + [e]) == Events(c, h) + [ToEvent(e)]
  {
    assert IssuesOk(c, h + [e]);
  }

  /** `best` holds the oldest head of the ready queues below `index`, and none older than that of `last`. */
  ghost predicate OldestSoFar(cmds: seq<seq<Packet>>, ready: set<nat>, last: nat, best: nat, index: nat) {
    && best < |cmds| && last < |cmds| && cmds[best] != [] && cmds[last] != []
    && cmds[best][0].arriveTime <= cmds[last][0].arriveTime
    && (best == last || best < index)
    && (forall i | i in ready && i < index :: Older(cmds, best, i))
  }

  lemma OldestNext(cmds: seq<seq<Packet>>, ready: set<nat>, last: nat, best: nat, index: nat)
    requires OldestSoFar(cmds, ready, last, best, index)
    requires index in ready ==> index <= last && index < |cmds| && cmds[index] != []
    ensures var newer := index in ready && cmds[best][0].arriveTime >= cmds[index][0].arriveTime;
            OldestSoFar(cmds, ready, last, if newer then index else best, index + 1)
  {
  }

  /** `best` is the last of the queues below `n` that are in `ready`. */
  ghost predicate LastReady(ready: set<nat>, n: nat, best: nat, found: bool) {
    && (!found ==> forall i: nat | i < n :: i !in ready)
    && (found ==> best in ready && forall i | i in ready && i < n :: i <= best)
  }

  lemma LastReadyNext(ready: set<nat>, n: nat, best: nat, found: bool)
    requires LastReady(ready, n, best, found)
    ensures if n in ready then LastReady(ready, n + 1, n, true) else LastReady(ready, n + 1, best, found)
  {
  }

  lemma RaiseNone(s: D.Speed, m: map<PacketType, nat>, k: PacketType)
    requires s.nCWL <= s.nCL + s.nBL + 2
    ensures RaiseFirst(s, m, k, 0) == m
  {
  }

  lemma TimedNext(n: nat)
    requires n < |TIMED|
    ensures TIMED[..n + 1] == TIMED[..n] + [TIMED[n]] && TIMED[n] !in TIMED[..n]
  {
  }

  lemma RaiseOneMore(s: D.Speed, m: map<PacketType, nat>, k: PacketType, ts: seq<PacketType>, t: PacketType)
    requires s.nCWL <= s.nCL + s.nBL + 2 && t !in ts
    ensures var before := RaiseAll(s, m, k, ts);
            RaiseAll(s, m, k, ts + [t]) ==
            before[t := if Timer(before, t) < CommandTiming(s, k, t) then CommandTiming(s, k, t) else Timer(before, t)]
  {
  }

  lemma RaiseNext(s: D.Speed, m: map<PacketType, nat>, k: PacketType, n: nat)
    requires s.nCWL <= s.nCL + s.nBL + 2 && n < |TIMED|
    ensures var t := TIMED[n];
            var before := RaiseFirst(s, m, k, n);
            RaiseFirst(s, m, k, n + 1) ==
            before[t := if Timer(before, t) < CommandTiming(s, k, t) then CommandTiming(s, k, t) else Timer(before, t)]
  {
    TimedNext(n);
    RaiseOneMore(s, m, k, TIMED[..n], TIMED[n]);
  }
}
