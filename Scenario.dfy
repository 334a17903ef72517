/** The three-player game replayed roll by roll: 4, 2, 2 in the first round,
    then 2, 6, 6, where the relays can pass on only what they hold. */
module Scenario {
  import opened Wrappers
  import opened Players
  import opened Rules

  /** Three seated players; Player2 holds `second`, Player3 holds `third`. */
  function Table(second: int, third: int): seq<Player>
  {
    [NewPlayer(0), NewPlayer(1).(inventory := second), NewPlayer(2).(inventory := third)]
  }

  /** The players' names and the pointers once the game is set up. */
  lemma ThreePlayerSetup()
    ensures Initial(3) == GameState(Table(0, 0), Some(0), Some(1), 0, 0)
    ensures Table(0, 0)[0].name == "Player1" && Table(0, 0)[1].name == "Player2" && Table(0, 0)[2].name == "Player3"
  {
    assert Initial(3).players == Table(0, 0);
    assert DecimalString(1) == "1" && DecimalString(2) == "2" && DecimalString(3) == "3";
  }

  /** Player1 rolls 4: all of it goes to Player2. */
  lemma RollOne()
    ensures Rolled(GameState(Table(0, 0), Some(0), Some(1), 0, 0), 4) == GameState(Table(4, 0), Some(1), Some(2), 0, 0)
  {
    var g := GameState(Table(0, 0), Some(0), Some(1), 0, 0);
    assert Available(g, 4) == 4;
    assert Transferred(g, 4) == GameState(Table(4, 0), Some(0), Some(1), 0, 0);
  }

  /** Player2 rolls 2 and holds 4: 2 go to Player3, the last player. */
  lemma RollTwo()
    ensures InPlay(GameState(Table(4, 0), Some(1), Some(2), 0, 0))
    ensures Rolled(GameState(Table(4, 0), Some(1), Some(2), 0, 0), 2) == GameState(Table(2, 2), Some(2), None, 0, 0)
  {
    var g := GameState(Table(4, 0), Some(1), Some(2), 0, 0);
    assert Available(g, 2) == 2;
    assert Transferred(g, 2) == GameState(Table(2, 2), Some(1), Some(2), 0, 0);
  }

  /** Player3 rolls 2 and holds 2: both leave as throughput; the round wraps. */
  lemma RollThree()
    ensures InPlay(GameState(Table(2, 2), Some(2), None, 0, 0))
    ensures Rolled(GameState(Table(2, 2), Some(2), None, 0, 0), 2) == GameState(Table(2, 0), Some(0), Some(1), 2, 1)
  {
    var g := GameState(Table(2, 2), Some(2), None, 0, 0);
    assert Available(g, 2) == 2;
    assert Transferred(g, 2) == GameState(Table(2, 0), Some(2), None, 2, 0);
  }

  /** Player1 rolls 2: Player2 now holds 4. */
  lemma RollFour()
    ensures InPlay(GameState(Table(2, 0), Some(0), Some(1), 2, 1))
    ensures Rolled(GameState(Table(2, 0), Some(0), Some(1), 2, 1), 2) == GameState(Table(4, 0), Some(1), Some(2), 2, 1)
  {
    var g := GameState(Table(2, 0), Some(0), Some(1), 2, 1);
    assert Available(g, 2) == 2;
    assert Transferred(g, 2) == GameState(Table(4, 0), Some(0), Some(1), 2, 1);
  }

  /** Player2 rolls 6 but holds only 4: Player3 receives 4. */
  lemma RollFive()
    ensures InPlay(GameState(Table(4, 0), Some(1), Some(2), 2, 1))
    ensures Rolled(GameState(Table(4, 0), Some(1), Some(2), 2, 1), 6) == GameState(Table(0, 4), Some(2), None, 2, 1)
  {
    var g := GameState(Table(4, 0), Some(1), Some(2), 2, 1);
    assert Available(g, 6) == 4;
    assert Transferred(g, 6) == GameState(Table(0, 4), Some(1), Some(2), 2, 1);
  }

  /** Player3 rolls 6 but holds only 4: throughput reaches 6; round 2 begins. */
  lemma RollSix()
    ensures InPlay(GameState(Table(0, 4), Some(2), None, 2, 1))
    ensures Rolled(GameState(Table(0, 4), Some(2), None, 2, 1), 6) == GameState(Table(0, 0), Some(0), Some(1), 6, 2)
  {
    var g := GameState(Table(0, 4), Some(2), None, 2, 1);
    assert Available(g, 6) == 4;
    assert Transferred(g, 6) == GameState(Table(0, 0), Some(2), None, 6, 1);
  }

  /** The first round: rolls 4, 2, 2 from a new three-player game. */
  lemma ThreePlayerFirstRound()
    ensures var g1 := Rolled(Initial(3), 4);
      g1 == GameState(Table(4, 0), Some(1), Some(2), 0, 0) &&
      Rolled(g1, 2) == GameState(Table(2, 2), Some(2), None, 0, 0) &&
      Rolled(Rolled(g1, 2), 2) == GameState(Table(2, 0), Some(0), Some(1), 2, 1)
  {
    ThreePlayerSetup();
    RollOne();
    RollTwo();
    RollThree();
  }

  /** The second round: rolls 2, 6, 6 after the first round. */
  lemma ThreePlayerSecondRound()
    ensures var g3 := GameState(Table(2, 0), Some(0), Some(1), 2, 1);
      InPlay(g3) &&
      Rolled(g3, 2) == GameState(Table(4, 0), Some(1), Some(2), 2, 1) &&
      Rolled(Rolled(g3, 2), 6) == GameState(Table(0, 4), Some(2), None, 2, 1) &&
      Rolled(Rolled(Rolled(g3, 2), 6), 6) == GameState(Table(0, 0), Some(0), Some(1), 6, 2)
  {
    RollFour();
    RollFive();
    RollSix();
  }
}
