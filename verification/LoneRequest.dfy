/** Requests that are alone with their key, and a whole request that a partial one holds up. */
module LoneRequest {
  import opened Packets
  import opened Pipeline
  import opened SystemRuns
  import Ledger
  import Conservation

  /** In every run: the only request of its requestor, address and direction, once nothing of it is queued or on
      its way, has been called back if and only if its size is a positive multiple of the bus width. */
  lemma CalledBackIffWhole(c: Config, states: seq<State>, moves: seq<Move>, i: nat, k: Conservation.Key, r: Request)
    requires c.Valid() && Run(c, states, moves) && i < |states| && Drained(c, states[i], k)
    requires Conservation.OfKey(states[i].accepted, k) == [r]
    ensures Conservation.OfKey(states[i].done, k) == if Ledger.Whole(c.dataBus, r.size) then [r] else []
  {
    RunIsAccounted(c, states, moves, i);
    Conservation.OfKeyIn(states[i].accepted, k);
    assert r in Conservation.OfKey(states[i].accepted, k);
    assert Conservation.Books(c, states[i]);
    assert [r][..0] == [];
    ShortIfAsked(c, states, moves, i, k);
    EveryRunDrains(c, states, moves, i, k);
  }

  /** Two requests of one key: if the first one is not whole, neither is ever called back, whatever the second is. */
  lemma HeldUpByPartial(c: Config, states: seq<State>, moves: seq<Move>, i: nat, k: Conservation.Key,
                        first: Request, second: Request)
    requires c.Valid() && Run(c, states, moves) && i < |states|
    requires Conservation.OfKey(states[i].accepted, k) == [first, second]
    requires !Ledger.Whole(c.dataBus, first.size)
    ensures Conservation.OfKey(states[i].done, k) == []
  {
    RunIsBalanced(c, states, moves, i, k);
    Held(c.dataBus, Conservation.AccountOf(c, states[i], k), first, second);
  }

  lemma Held(width: nat, v: Ledger.Account, first: Request, second: Request)
    requires 0 < width < WORD && Ledger.Balanced(width, v) && v.accepted == [first, second]
    requires !Ledger.Whole(width, first.size)
    ensures v.done == []
  {
    Ledger.CalledBackIff(width, v, 0);
    Ledger.DeliveredFits(width, v);
    var took, m :| Ledger.BalancedBy(width, v, took, m);
    assert v.accepted[0] == first && v.accepted[1] == second;
    assert [first, second][..1] == [first] && [first][..0] == [];
    assert Ledger.Bytes([first]) == first.size;
    assert Ledger.Bytes([first, second]) == Ledger.Bytes([first]) + second.size;
    if Ledger.Covered(width, [first], v.delivered) {
      var q :| Ledger.Taken(width, [first], q) && Ledger.Sum(q) <= v.delivered;
      assert q[..0] == [] && Ledger.Sum(q) == q[0];
      Ledger.PartialTakesMore(width, first.size, q[0]);
      Ledger.MoreBytes(width, q[0], v.delivered);
      assert false;
    }
  }
}
