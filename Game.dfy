/** The game object: a fixed table of players updated in place, the
    current/next pointers, the throughput sink and the round counter. */
module Game {
  import opened Wrappers
  import opened Players
  import opened Rules

  class DiceGame {
    /** Seating order; index i holds the player with turn order i. */
    const players: array<Player>
    var current: Option<nat>
    var next: Option<nat>
    var throughput: int
    var gameRound: int
    /** Everything the first player has rolled so far. */
    ghost var injected: int

    /** The object's state as a value of the rules. */
    ghost function State(): GameState
      reads this, players
    {
      GameState(players[..], current, next, throughput, gameRound)
    }

    ghost predicate Valid()
      reads this, players
    {
      InPlay(State()) && Named(State())
    }

    /** The conservation books balance against the ghost total. */
    ghost predicate Balanced()
      reads this, players
    {
      players.Length > 0 && Conserved(State(), injected)
    }

    /** Construction once the player count has passed the check: seat the
        players, then take the first rotation. */
    constructor (playerCount: int)
      requires playerCount >= 2
      ensures fresh(players)
      ensures Valid() && State() == Initial(playerCount)
      ensures injected == 0 && Balanced()
    {
      var seats := SeatPlayers(playerCount);
      players := seats;
      current, next := None, None;
      throughput, gameRound := 0, -1;
      injected := 0;
      new;
      ghost var pre := State();
      assert pre == PreGame(playerCount);
      RotatePlayers();
      assert State() == Rotated(pre);
      InitialConserved(playerCount);
    }

    /** The constructor's loop: player i is created with turn order i. */
    static method SeatPlayers(playerCount: nat) returns (seats: array<Player>)
      requires playerCount >= 2
      ensures fresh(seats)
      ensures seats[..] == PreGame(playerCount).players
    {
      seats := new Player[playerCount];
      for i := 0 to playerCount
        invariant forall j :: 0 <= j < i ==> seats[j] == NewPlayer(j)
      {
        seats[i] := NewPlayer(i);
      }
    }

    /** The constructor with its argument check: a count below two is the
        configuration error, anything else a new game. */
    static method Create(playerCount: int) returns (r: Result<DiceGame>)
      ensures r.Err? <==> playerCount < 2
      ensures r.Err? ==> NewGame(playerCount) == Err(r.error)
      ensures r.Ok? ==> fresh(r.value) && fresh(r.value.players)
      ensures r.Ok? ==> r.value.Valid() && r.value.Balanced() && NewGame(playerCount) == Ok(r.value.State())
    {
      if playerCount < 2 {
        return Err(InvalidPlayerCount("Player Count must be at least 2."));
      }
      var game := new DiceGame(playerCount);
      r := Ok(game);
    }

    method RotatePlayers()
      requires Seated(State())
      modifies this
      ensures State() == Rotated(old(State()))
      ensures injected == old(injected)
    {
      current := next;
      if current.None? {
        gameRound := gameRound + 1;
        current := Some(0);
        next := Some(1);
        return;
      }
      if players[current.value].turnOrder == players.Length - 1 {
        next := None;
        return;
      }
      next := Some(players[next.value].turnOrder + 1);
    }

    /** Resolve a roll: pass on what is available, then rotate. The ghost
        total grows by the roll when the first player rolled. */
    method RollDie(roll: int)
      requires Valid()
      modifies this, players
      ensures Valid() && State() == Rolled(old(State()), roll)
      ensures injected == old(injected) + InjectedBy(old(State()), roll)
      ensures old(Balanced()) && roll >= 0 ==> Balanced()
      ensures roll >= 0 ==> throughput >= old(throughput)
      ensures forall j :: 0 <= j < players.Length && Some(j) != old(current) && Some(j) != old(next) ==>
        players[j] == old(players[j])
    {
      ghost var before := State();
      PassOn(roll);
      RotatePlayers();
      RollFrame(before, roll);
      if roll >= 0 {
        RollTransfers(before, roll);
        if old(Balanced()) {
          RollConserves(before, roll, old(injected));
        }
      }
    }

    /** The part of a roll before the rotation: the current player gives
        up what is available, to the next player or to the throughput. */
    method PassOn(roll: int)
      requires Valid()
      modifies this, players
      ensures State() == Transferred(old(State()), roll)
      ensures injected == old(injected) + InjectedBy(old(State()), roll)
    {
      ghost var before := State();
      var c := current.value;
      var available: int;
      // the C# compares references with players[0]; seats are distinct
      if c == 0 {
        available := roll;
      } else {
        available := Min(roll, players[c].inventory);
      }
      assert available == Available(before, roll);
      players[c] := players[c].SetInventory(players[c].inventory - available);
      ghost var sent := players[..];
      assert sent == before.players[c := before.players[c].SetInventory(before.players[c].inventory - available)];
      if next.None? {
        throughput := throughput + available;
      } else {
        var n := next.value;
        players[n] := players[n].SetInventory(players[n].inventory + available);
        assert players[..] == sent[n := sent[n].SetInventory(sent[n].inventory + available)];
      }
      injected := injected + (if c == 0 then roll else 0);
    }

    /** The player whose turn it is. */
    function CurrentPlayer(): (p: Player)
      reads this, players
      requires Valid()
      ensures p.turnOrder == current.value && p.name == PlayerName(p.turnOrder)
      ensures p.inventory >= 0
      ensures p == players[p.turnOrder]
    {
      players[current.value]
    }

    /** The player who acts next, or `None` when the round wraps. */
    function NextPlayer(): (p: Option<Player>)
      reads this, players
      requires Valid()
      ensures p.None? <==> CurrentPlayer().turnOrder == players.Length - 1
      ensures p.Some? ==> p.value.turnOrder == CurrentPlayer().turnOrder + 1
      ensures p.Some? ==> p.value.name == PlayerName(p.value.turnOrder) && p.value.inventory >= 0
      ensures p.Some? ==> p.value.turnOrder < players.Length && p.value == players[p.value.turnOrder]
    {
      match next
      case None => None
      case Some(n) => Some(players[n])
    }
  }
}
