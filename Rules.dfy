/** The game's state as a value and its two transitions: turn rotation and
    roll resolution. The class in module Game is proved against these. */
module Rules {
  import opened Wrappers
  import opened Players

  /** Players are referred to by their index in `players`, which is their
      turn order; `None` stands for a null player reference. */
  datatype GameState = GameState(
    players: seq<Player>,
    current: Option<nat>,
    next: Option<nat>,
    throughput: int,
    gameRound: int)

  /** At least two players, seated in order, none holding a negative
      inventory, and both pointers inside the table. */
  predicate Seated(g: GameState)
  {
    |g.players| >= 2 &&
    (forall i :: 0 <= i < |g.players| ==> g.players[i].turnOrder == i && g.players[i].inventory >= 0) &&
    (g.current.Some? ==> g.current.value < |g.players|) &&
    (g.next.Some? ==> g.next.value < |g.players|)
  }

  /** Every player carries the name of its seat. */
  predicate Named(g: GameState)
  {
    forall i :: 0 <= i < |g.players| ==> g.players[i].name == PlayerName(i)
  }

  /** The pointer invariant: there is a current player, and either the next
      player sits right after it, or there is none and the current player is
      the last one. */
  predicate PointersAgree(g: GameState)
  {
    g.current.Some? &&
    match g.next
    case Some(n) => n == g.current.value + 1
    case None => g.current.value == |g.players| - 1
  }

  /** Every state of a constructed game. */
  predicate InPlay(g: GameState)
  {
    Seated(g) && PointersAgree(g)
  }

  function Min(a: int, b: int): int
  {
    if a < b then a else b
  }

  /** The game just before the constructor's rotation: players created,
      both pointers null, round counter at -1. */
  function PreGame(playerCount: nat): (g: GameState)
    requires playerCount >= 2
    ensures Seated(g) && Named(g) && g.current.None? && g.next.None?
    ensures |g.players| == playerCount && g.throughput == 0 && g.gameRound == -1
    ensures forall i :: 0 <= i < playerCount ==> g.players[i] == NewPlayer(i)
  {
    GameState(seq(playerCount, i requires 0 <= i => NewPlayer(i)), None, None, 0, -1)
  }

  /** Turn rotation: the old next player becomes current; a null next player
      means the round wraps to the first player and the round counter moves. */
  function Rotated(g: GameState): (r: GameState)
    requires Seated(g)
    ensures Seated(r) && PointersAgree(r)
    ensures r.players == g.players && r.throughput == g.throughput
    ensures r.gameRound == g.gameRound + (if g.next.None? then 1 else 0)
    ensures g.next.Some? ==> r.current == g.next
    ensures g.next.None? ==> r.current == Some(0) && r.next == Some(1)
  {
    match g.next
    case None => g.(current := Some(0), next := Some(1), gameRound := g.gameRound + 1)
    case Some(k) =>
      if g.players[k].turnOrder == |g.players| - 1 then g.(current := Some(k), next := None)
      else g.(current := Some(k), next := Some(g.players[k].turnOrder + 1))
  }

  /** The state a successful construction leaves. */
  function Initial(playerCount: nat): (g: GameState)
    requires playerCount >= 2
    ensures InPlay(g) && Named(g)
    ensures |g.players| == playerCount
    ensures forall i :: 0 <= i < playerCount ==> g.players[i] == NewPlayer(i)
    ensures g.current == Some(0) && g.next == Some(1)
    ensures g.throughput == 0 && g.gameRound == 0
  {
    Rotated(PreGame(playerCount))
  }

  /** Construction: fails with the configuration error exactly when fewer
      than two players are asked for. */
  function NewGame(playerCount: int): (r: Result<GameState>)
    ensures r.Err? <==> playerCount < 2
    ensures r.Err? ==> r.error == InvalidPlayerCount("Player Count must be at least 2.")
    ensures r.Ok? ==> InPlay(r.value) && Named(r.value) && |r.value.players| == playerCount
    ensures r.Ok? ==> r.value.current == Some(0) && r.value.next == Some(1) && r.value.gameRound == 0
    ensures r.Ok? ==> r.value == Initial(playerCount)
  {
    if playerCount < 2 then Err(InvalidPlayerCount("Player Count must be at least 2."))
    else Ok(Initial(playerCount))
  }

  /** How much the current player passes on: the first player draws the
      whole roll from an unlimited source, everyone else at most what they hold. */
  function Available(g: GameState, roll: int): (a: int)
    requires InPlay(g)
    ensures g.current == Some(0) ==> a == roll
    ensures g.current != Some(0) ==>
      a <= roll && a <= g.players[g.current.value].inventory &&
      (a == roll || a == g.players[g.current.value].inventory)
  {
    var c := g.current.value;
    if c == 0 then roll else Min(roll, g.players[c].inventory)
  }

  /** Steps before the rotation: take `Available` from the current player
      and give it to the next player or, at the end of the chain, to the
      throughput. Pointers and round counter stay as they were. */
  function Transferred(g: GameState, roll: int): (r: GameState)
    requires InPlay(g)
    ensures Seated(r) && |r.players| == |g.players|
    ensures Named(g) ==> Named(r)
    ensures r.current == g.current && r.next == g.next && r.gameRound == g.gameRound
  {
    var c := g.current.value;
    var a := Available(g, roll);
    var sent := g.players[c := g.players[c].SetInventory(g.players[c].inventory - a)];
    match g.next
    case None => g.(players := sent, throughput := g.throughput + a)
    case Some(n) => g.(players := sent[n := sent[n].SetInventory(sent[n].inventory + a)])
  }

  /** Roll resolution: the transfer, then a rotation. */
  function Rolled(g: GameState, roll: int): (r: GameState)
    requires InPlay(g)
    ensures InPlay(r) && |r.players| == |g.players|
    ensures Named(g) ==> Named(r)
  {
    Rotated(Transferred(g, roll))
  }

  /** What the first player injects into the chain with this roll. */
  function InjectedBy(g: GameState, roll: int): int
  {
    if g.current == Some(0) then roll else 0
  }

  /** Total inventory held by a sequence of players. */
  function Stock(ps: seq<Player>): int
  {
    if ps == [] then 0 else Stock(ps[..|ps| - 1]) + ps[|ps| - 1].inventory
  }

  /** The first player holds nothing, and everything injected so far is
      either held further down the chain or has left it as throughput. */
  predicate Conserved(g: GameState, injected: int)
    requires |g.players| > 0
  {
    g.players[0].inventory == 0 && Stock(g.players) + g.throughput == injected
  }

  /** Rolls applied one after another. */
  function Run(g: GameState, rolls: seq<int>): (r: GameState)
    requires InPlay(g)
    ensures InPlay(r) && |r.players| == |g.players|
    ensures Named(g) ==> Named(r)
    decreases |rolls|
  {
    if rolls == [] then g else Run(Rolled(g, rolls[0]), rolls[1..])
  }

  /** Total the first player injects over a run of rolls. */
  function Injected(g: GameState, rolls: seq<int>): int
    requires InPlay(g)
    decreases |rolls|
  {
    if rolls == [] then 0 else InjectedBy(g, rolls[0]) + Injected(Rolled(g, rolls[0]), rolls[1..])
  }

  predicate NonNegative(rolls: seq<int>)
  {
    forall i :: 0 <= i < |rolls| ==> rolls[i] >= 0
  }

  // ---------------------------------------------------------------- rotation

  /** Play returns to the first player exactly when the round wraps, and only
      then does the round counter move, by one. */
  lemma RotateWraps(g: GameState)
    requires InPlay(g)
    ensures Rotated(g).current == Some(0) <==> g.next.None?
    ensures Rotated(g).gameRound == g.gameRound + 1 <==> g.next.None?
    ensures Rotated(g).gameRound == g.gameRound <==> g.next.Some?
  {
  }

  // ------------------------------------------------------------ roll effects

  /** A roll touches the sender, the receiver (or the throughput), the
      pointers and, on a wrap only, the round counter; nothing else. */
  lemma RollFrame(g: GameState, roll: int)
    requires InPlay(g)
    ensures var r := Rolled(g, roll);
      (forall j :: 0 <= j < |g.players| && Some(j) != g.current && Some(j) != g.next ==>
         r.players[j] == g.players[j]) &&
      (forall j :: 0 <= j < |g.players| ==>
         r.players[j].name == g.players[j].name && r.players[j].turnOrder == g.players[j].turnOrder) &&
      (g.next.Some? ==> r.throughput == g.throughput) &&
      r.gameRound == g.gameRound + (if g.next.None? then 1 else 0) &&
      r.current == (if g.next.None? then Some(0) else g.next)
  {
  }

  /** With a non-negative roll, exactly `Available` units leave the sender:
      never more than a relaying player holds. They reach the next player,
      or the throughput at the end of the chain, which never decreases. */
  lemma RollTransfers(g: GameState, roll: int)
    requires InPlay(g) && roll >= 0
    ensures var r, c, a := Rolled(g, roll), g.current.value, Available(g, roll);
      0 <= a &&
      (c != 0 ==> a <= g.players[c].inventory && r.players[c].inventory == g.players[c].inventory - a) &&
      (c == 0 ==> a == roll && r.players[c].inventory == Clamp(g.players[c].inventory - roll)) &&
      (g.next.Some? ==> r.players[g.next.value].inventory == g.players[g.next.value].inventory + a) &&
      (g.next.None? ==> r.throughput == g.throughput + a) &&
      r.throughput >= g.throughput
  {
  }

  // ------------------------------------------------------------ conservation

  lemma {:induction false} StockUpdate(ps: seq<Player>, i: nat, p: Player)
    requires i < |ps|
    ensures Stock(ps[i := p]) == Stock(ps) - ps[i].inventory + p.inventory
  {
    var qs := ps[i := p];
    if i == |ps| - 1 {
      assert qs[..|qs| - 1] == ps[..|ps| - 1];
    } else {
      assert qs[..|qs| - 1] == ps[..|ps| - 1][i := p];
      StockUpdate(ps[..|ps| - 1], i, p);
    }
  }

  /** The constructed game has injected nothing and holds nothing. */
  lemma InitialConserved(playerCount: nat)
    requires playerCount >= 2
    ensures Conserved(Initial(playerCount), 0)
  {
    ZeroStock(Initial(playerCount).players);
  }

  lemma {:induction false} ZeroStock(ps: seq<Player>)
    requires forall i :: 0 <= i < |ps| ==> ps[i].inventory == 0
    ensures Stock(ps) == 0
  {
    if ps != [] {
      ZeroStock(ps[..|ps| - 1]);
    }
  }

  /** One non-negative roll keeps the books balanced: the first player still
      holds nothing and stock plus throughput grows by what was injected. */
  lemma RollConserves(g: GameState, roll: int, injected: int)
    requires InPlay(g) && roll >= 0 && Conserved(g, injected)
    ensures Conserved(Rolled(g, roll), injected + InjectedBy(g, roll))
  {
    TransferConserves(g, roll, injected);
  }

  /** The transfer step alone keeps the books balanced. */
  lemma TransferConserves(g: GameState, roll: int, injected: int)
    requires InPlay(g) && roll >= 0 && Conserved(g, injected)
    ensures Conserved(Transferred(g, roll), injected + InjectedBy(g, roll))
  {
    var c := g.current.value;
    var a := Available(g, roll);
    var sent := g.players[c := g.players[c].SetInventory(g.players[c].inventory - a)];
    var t := Transferred(g, roll);
    assert 0 <= a by {
      if c != 0 {
        assert g.players[c].inventory >= 0;
      }
    }
    SendBooks(g.players, c, a);
    if g.next.Some? {
      var n := g.next.value;
      assert n == c + 1 && n < |g.players|;
      assert sent[n] == g.players[n] && g.players[n].inventory >= 0;
      ReceiveBooks(sent, n, a);
      assert t.players == sent[n := sent[n].SetInventory(sent[n].inventory + a)];
      assert t.throughput == g.throughput;
    } else {
      assert t.players == sent && t.throughput == g.throughput + a;
    }
  }

  /** The sender's side: the first player stays at 0, and the stock drops
      by what a relaying player sends. */
  lemma SendBooks(ps: seq<Player>, c: nat, a: int)
    requires c < |ps| && ps[0].inventory == 0 && a >= 0 && (c != 0 ==> a <= ps[c].inventory)
    ensures var sent := ps[c := ps[c].SetInventory(ps[c].inventory - a)];
      sent[0].inventory == 0 && Stock(sent) == Stock(ps) - (if c == 0 then 0 else a)
  {
    StockUpdate(ps, c, ps[c].SetInventory(ps[c].inventory - a));
  }

  /** The receiver's side: another player than the first gains `a`, and so
      does the stock. */
  lemma ReceiveBooks(sent: seq<Player>, n: nat, a: int)
    requires 0 < n < |sent| && a >= 0 && sent[n].inventory >= 0
    ensures var got := sent[n := sent[n].SetInventory(sent[n].inventory + a)];
      got[0] == sent[0] && Stock(got) == Stock(sent) + a
  {
    StockUpdate(sent, n, sent[n].SetInventory(sent[n].inventory + a));
  }

  /** Without the non-negative hypothesis the books do not balance: a
      negative first roll leaves the first player holding units nobody
      injected (with two players, rolling -1 leaves Player1 with 1). */
  lemma NegativeRollUnbalances()
    ensures Rolled(Initial(2), -1).players[0].inventory == 1
    ensures !Conserved(Rolled(Initial(2), -1), InjectedBy(Initial(2), -1))
  {
    var g := Initial(2);
    assert g.players[0].inventory == 0 && g.current == Some(0) && g.next == Some(1);
    var sent := g.players[0 := g.players[0].SetInventory(1)];
    assert sent[0].inventory == 1;
    assert Transferred(g, -1).players[0] == sent[0];
  }

  /** Over any run of non-negative rolls the books stay balanced. */
  lemma {:induction false} RunConserves(g: GameState, rolls: seq<int>, injected: int)
    requires InPlay(g) && NonNegative(rolls) && Conserved(g, injected)
    ensures Conserved(Run(g, rolls), injected + Injected(g, rolls))
    decreases |rolls|
  {
    if rolls != [] {
      RollConserves(g, rolls[0], injected);
      assert NonNegative(rolls[1..]) by {
        forall i | 0 <= i < |rolls[1..]| ensures rolls[1..][i] >= 0 {
          assert rolls[1..][i] == rolls[i + 1];
        }
      }
      RunConserves(Rolled(g, rolls[0]), rolls[1..], injected + InjectedBy(g, rolls[0]));
    }
  }

  /** From construction on: whatever the first player has rolled is held by
      the other players or has come out as throughput; and throughput is
      never negative. */
  lemma GameConserves(playerCount: nat, rolls: seq<int>)
    requires playerCount >= 2 && NonNegative(rolls)
    ensures var r := Run(Initial(playerCount), rolls);
      r.players[0].inventory == 0 &&
      Stock(r.players) + r.throughput == Injected(Initial(playerCount), rolls) &&
      r.throughput >= 0
  {
    InitialConserved(playerCount);
    RunConserves(Initial(playerCount), rolls, 0);
    RunThroughputMonotone(Initial(playerCount), rolls);
  }

  /** Throughput never decreases over a run of non-negative rolls. */
  lemma {:induction false} RunThroughputMonotone(g: GameState, rolls: seq<int>)
    requires InPlay(g) && NonNegative(rolls)
    ensures Run(g, rolls).throughput >= g.throughput
    decreases |rolls|
  {
    if rolls != [] {
      RollTransfers(g, rolls[0]);
      assert NonNegative(rolls[1..]) by {
        forall i | 0 <= i < |rolls[1..]| ensures rolls[1..][i] >= 0 {
          assert rolls[1..][i] == rolls[i + 1];
        }
      }
      RunThroughputMonotone(Rolled(g, rolls[0]), rolls[1..]);
    }
  }

  // ------------------------------------------------------------ turn counting

  /** Each roll moves play one seat on, wrapping to the first player and a
      new round after the last. */
  lemma RollAdvances(g: GameState, roll: int)
    requires InPlay(g)
    ensures var r, n := Rolled(g, roll), |g.players|;
      r.gameRound * n + r.current.value == g.gameRound * n + g.current.value + 1
  {
    var n := |g.players|;
    if g.next.None? {
      assert (g.gameRound + 1) * n == g.gameRound * n + n;
    }
  }

  /** After any run of k rolls, play has advanced k seats in all. */
  lemma {:induction false} RunAdvances(g: GameState, rolls: seq<int>)
    requires InPlay(g)
    ensures var r, n := Run(g, rolls), |g.players|;
      r.gameRound * n + r.current.value == g.gameRound * n + g.current.value + |rolls|
    decreases |rolls|
  {
    if rolls != [] {
      RollAdvances(g, rolls[0]);
      RunAdvances(Rolled(g, rolls[0]), rolls[1..]);
    }
  }

  /** From construction on, after k rolls with n players the round counter
      is k / n and the current player is the one at turn order k % n. */
  lemma GameRounds(playerCount: nat, rolls: seq<int>)
    requires playerCount >= 2
    ensures var r := Run(Initial(playerCount), rolls);
      r.gameRound == |rolls| / playerCount && r.current == Some(|rolls| % playerCount)
  {
    var r := Run(Initial(playerCount), rolls);
    RunAdvances(Initial(playerCount), rolls);
    DivModUnique(|rolls|, playerCount, r.gameRound, r.current.value);
  }

  lemma DivModUnique(k: int, n: int, q: int, m: int)
    requires n > 0 && 0 <= m < n && q * n + m == k
    ensures q == k / n && m == k % n
  {
    var q', m' := k / n, k % n;
    assert q' * n + m' == k;
    if q < q' {
      MulDistributes(q', q, n);
      MulAtLeast(q' - q, n);
    } else if q > q' {
      MulDistributes(q, q', n);
      MulAtLeast(q - q', n);
    }
  }

  lemma MulDistributes(a: int, b: int, n: int)
    ensures (a - b) * n == a * n - b * n
  {
  }

  lemma MulAtLeast(d: int, n: int)
    requires d >= 1 && n > 0
    ensures d * n >= n
  {
  }
}
