/** Requests, bus packets and the spacing that a command imposes on the ones behind it in its queue. */
module Packets {
  import D = Ddr3

  const WORD := 0x1_0000_0000

  datatype Place = Place(bank: nat, row: nat, col: nat, subArray: nat)

  /** `serial` stands for the identity of the request object, which a request queue and a pending list
      share; `size` is the requested size, the remaining size is kept per object. */
  datatype Request = Request(serial: nat, requestor: nat, address: nat, isRead: bool, size: nat, place: Place)

  datatype PacketType =
    RD | RDA | WR | WRA | ACT_R | ACT_W | ACT | PRE | PREA | REF | REFPB | PDE | PDX | SRE | SRX | DATA

  datatype Packet = Packet(kind: PacketType, requestor: nat, address: nat, column: nat, row: nat, bank: nat,
                           subArray: nat, arriveTime: nat)

  /** The packet types that the scheduler keeps timers for. */
  const TIMED: seq<PacketType> := [RD, RDA, WR, WRA, ACT_R, ACT_W, ACT, PRE, PREA, REF, REFPB]

  predicate Convertible(k: PacketType) {
    !(k.REFPB? || k.PDE? || k.PDX? || k.SRE? || k.SRX? || k.DATA?)
  }

  function Convert(k: PacketType): (c: nat)
    requires Convertible(k)
    ensures c < D.COMMANDS
  {
    match k
    case RD => D.RD
    case WR => D.WR
    case RDA => D.RDA
    case WRA => D.WRA
    case ACT => D.ACT
    case ACT_R => D.ACT_R
    case ACT_W => D.ACT_W
    case PRE => D.PRE
    case PREA => D.PREA
    case REF => D.REF
  }

  predicate IsActivate(k: PacketType) {
    k == ACT || k == ACT_R || k == ACT_W
  }

  /** How long a queue holds back a packet of type `t` after it has issued one of type `k`. */
  function CommandTiming(s: D.Speed, k: PacketType, t: PacketType): nat
    requires s.nCWL <= s.nCL + s.nBL + 2
  {
    match k
    case PRE => if IsActivate(t) then s.nRP else 0
    case PREA => if IsActivate(t) then s.nRP else 0
    case ACT =>
      if t == ACT then s.nRC
      else if t == PREA || t == PRE then s.nRAS
      else if t == RD || t == RDA || t == WR || t == WRA then s.nRCD
      else 1
    case ACT_R => RoundActivate(s, t)
    case ACT_W => RoundActivate(s, t)
    case RD =>
      if t == RD || t == RDA then 4
      else if t == WR || t == WRA then s.nCL + s.nBL + 2 - s.nCWL
      else if t == PRE || t == PREA then s.nRTP
      else 1
    case RDA => if t == ACT then s.nRTP + s.nRP else 1
    case WR =>
      if t == RD || t == RDA then s.nCWL + 4 + 6
      else if t == WR || t == WRA then 4
      else if t == PRE || t == PREA then s.nCWL + 4 + s.nWR
      else 1
    case WRA => if t == ACT then s.nCWL + 4 + s.nWR + s.nRP else 1
    case _ => 1
  }

  function RoundActivate(s: D.Speed, t: PacketType): nat {
    if t == ACT_R || t == ACT_W then s.nRC
    else if t == PREA || t == PRE then s.nRAS
    else if t == RD || t == RDA || t == WR || t == WRA then s.nRCD
    else 1
  }

  /** The same, read by the packet that is held back. */
  lemma CommandTimingIs(s: D.Speed, k: PacketType, t: PacketType)
    requires s.nCWL <= s.nCL + s.nBL + 2 && k in TIMED && t in TIMED
    ensures IsActivate(t) ==>
              CommandTiming(s, k, t) ==
              if k == PRE || k == PREA then s.nRP
              else if IsActivate(k) then (if k == ACT <==> t == ACT then s.nRC else 1)
              else if k == RDA && t == ACT then s.nRTP + s.nRP
              else if k == WRA && t == ACT then s.nCWL + 4 + s.nWR + s.nRP
              else 1
    ensures t == RD || t == RDA ==>
              CommandTiming(s, k, t) ==
              if IsActivate(k) then s.nRCD else if k == RD then 4 else if k == WR then s.nCWL + 10
              else if k == PRE || k == PREA then 0 else 1
    ensures t == WR || t == WRA ==>
              CommandTiming(s, k, t) ==
              if IsActivate(k) then s.nRCD else if k == RD then s.nCL + s.nBL + 2 - s.nCWL else if k == WR then 4
              else if k == PRE || k == PREA then 0 else 1
    ensures t == PRE || t == PREA ==>
              CommandTiming(s, k, t) ==
              if IsActivate(k) then s.nRAS else if k == RD then s.nRTP else if k == WR then s.nCWL + 4 + s.nWR
              else if k == PRE || k == PREA then 0 else 1
    ensures t == REF || t == REFPB ==> CommandTiming(s, k, t) == if k == PRE || k == PREA then 0 else 1
  {
  }
}
