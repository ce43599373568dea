/** Two spins from the initial state over the alphabet A, B, C. Among three
    keys the draw 0.0 selects A and the draw 0.5 selects B. */
module GameScenarios {
  import opened GameSlice

  /** A grid whose top and bottom rows differ from its middle row. */
  const OpeningDraws: seq<real> := [0.5, 0.0, 0.5, 0.0, 0.5, 0.0, 0.5, 0.0, 0.5]

  /** The middle row comes up A, A, A: the spin pays ten bets. */
  method WinningSpin() returns (winnings: int, balance: int)
    ensures winnings == 500 && balance == 1450
  {
    var game := new Game(["A", "B", "C"], OpeningDraws);
    game.SpinReels([0.5, 0.0, 0.5, 0.5, 0.0, 0.5, 0.5, 0.0, 0.5]);
    winnings, balance := game.winnings, game.balance;
  }

  /** The middle row comes up A, B, A: the spin only takes the bet. */
  method LosingSpin() returns (winnings: int, balance: int)
    ensures winnings == 0 && balance == 950
  {
    var game := new Game(["A", "B", "C"], OpeningDraws);
    game.SpinReels([0.0, 0.0, 0.0, 0.0, 0.5, 0.0, 0.0, 0.0, 0.0]);
    winnings, balance := game.winnings, game.balance;
  }
}
