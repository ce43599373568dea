/** The game state of a 3x3, single-payline slot machine: drawing a grid of
    symbols, scoring its middle row, and the spin step that replaces the grid
    and settles the bet against the balance.

    Randomness is an input: every value `Math.random()` would return is passed
    in as a real `u` with `0 <= u < 1`. */
module GameSlice {

  type Symbol = string

  /** Reel-major grid: `grid[r][row]` is the cell in row `row` of reel `r`. */
  type Grid = seq<seq<Symbol>>

  const Reels := 3
  const Rows := 3
  /** The only row that is scored. */
  const PaylineRow := 1
  /** A winning payline pays the bet this many times. */
  const Multiplier := 10
  const InitialBalance := 1000
  const InitialBet := 50

  // ---------------------------------------------------------------------------
  // Symbol draw
  // ---------------------------------------------------------------------------

  /** The key list of the symbol table: at least one key and no key twice. */
  predicate IsAlphabet(keys: seq<Symbol>) {
    |keys| > 0 && forall i, j :: 0 <= i < j < |keys| ==> keys[i] != keys[j]
  }

  /** A value that `Math.random()` can return. */
  predicate IsRandom(u: real) {
    0.0 <= u < 1.0
  }

  /** `n` draws, each a possible value of `Math.random()`. */
  predicate AreRandom(draws: seq<real>, n: nat) {
    |draws| == n && forall k :: 0 <= k < |draws| ==> IsRandom(draws[k])
  }

  lemma ScaledIsBelow(u: real, n: nat)
    requires IsRandom(u) && n > 0
    ensures 0.0 <= u * n as real < n as real
  {
    assert n as real - u * n as real == (1.0 - u) * n as real;
    assert (1.0 - u) * n as real > 0.0;
  }

  /** `Math.floor(u * n)`: the index a draw `u` selects among `n` keys, with
      the product `u * n` taken exactly (not rounded to a double). It is
      always a valid index, and it is the index whose slice `[i/n, (i+1)/n)`
      of the unit interval contains `u`. */
  function DrawIndex(u: real, n: nat): (i: nat)
    requires IsRandom(u) && n > 0
    ensures i < n
    ensures i as real / n as real <= u < (i + 1) as real / n as real
  {
    ScaledIsBelow(u, n);
    var i := (u * n as real).Floor;
    SliceContains(u, n, i);
    i
  }

  lemma SliceContains(u: real, n: nat, i: int)
    requires n > 0
    requires i as real <= u * n as real < i as real + 1.0
    ensures i as real / n as real <= u < (i + 1) as real / n as real
  {
    var m := n as real;
    assert i as real / m == (i as real / m * m) / m;
    assert (i + 1) as real / m == ((i + 1) as real / m * m) / m;
  }

  /** Every key can be drawn: the draw `i / n` selects index `i`. */
  lemma DrawIndexReachesEvery(i: nat, n: nat)
    requires i < n
    ensures IsRandom(i as real / n as real)
    ensures DrawIndex(i as real / n as real, n) == i
  {
    var m := n as real;
    var x := i as real / m;
    assert x * m == i as real;
    assert (1.0 - x) * m == m - i as real;
    assert x < 1.0;
  }

  /** `getRandomSymbol`: the key that the draw `u` selects. */
  function GetRandomSymbol(keys: seq<Symbol>, u: real): (s: Symbol)
    requires |keys| > 0 && IsRandom(u)
    ensures s in keys
  {
    keys[DrawIndex(u, |keys|)]
  }

  /** Every key of the alphabet is the outcome of some draw. */
  lemma EverySymbolDrawable(keys: seq<Symbol>, s: Symbol)
    requires |keys| > 0 && s in keys
    ensures exists u :: IsRandom(u) && GetRandomSymbol(keys, u) == s
  {
    var i :| 0 <= i < |keys| && keys[i] == s;
    DrawIndexReachesEvery(i, |keys|);
    var u := i as real / |keys| as real;
    assert GetRandomSymbol(keys, u) == s;
  }

  // ---------------------------------------------------------------------------
  // Grid draw
  // ---------------------------------------------------------------------------

  /** Exactly `Reels` reels of exactly `Rows` cells each. */
  predicate IsGrid(g: Grid) {
    |g| == Reels && forall r :: 0 <= r < |g| ==> |g[r]| == Rows
  }

  /** Every cell of the grid is a key of the alphabet. */
  predicate OverAlphabet(g: Grid, keys: seq<Symbol>) {
    forall r, row :: 0 <= r < |g| && 0 <= row < |g[r]| ==> g[r][row] in keys
  }

  /** `getRandomSymbols`: a 3x3 grid filled reel by reel, each reel top to
      bottom, so the cell in row `row` of reel `r` takes draw `Rows * r + row`. */
  function GetRandomSymbols(keys: seq<Symbol>, draws: seq<real>): (g: Grid)
    requires |keys| > 0 && AreRandom(draws, Reels * Rows)
    ensures IsGrid(g) && OverAlphabet(g, keys)
    ensures forall r, row :: 0 <= r < Reels && 0 <= row < Rows ==>
              g[r][row] == keys[DrawIndex(draws[Rows * r + row], |keys|)]
  {
    var g := seq(Reels, r requires 0 <= r < Reels =>
      seq(Rows, row requires 0 <= row < Rows =>
        GetRandomSymbol(keys, draws[Rows * r + row])));
    assert forall r, row :: 0 <= r < Reels && 0 <= row < Rows ==>
      g[r][row] == GetRandomSymbol(keys, draws[Rows * r + row]);
    g
  }

  // ---------------------------------------------------------------------------
  // Payout rule
  // ---------------------------------------------------------------------------

  /** The cells `calculateWinnings` reads are present. */
  predicate HasPayline(g: Grid) {
    |g| >= Reels && forall r :: 0 <= r < Reels ==> |g[r]| > PaylineRow
  }

  /** The middle cell of each reel, left to right. */
  function Payline(g: Grid): (p: seq<Symbol>)
    requires HasPayline(g)
    ensures |p| == Reels
    ensures forall r :: 0 <= r < Reels ==> p[r] == g[r][PaylineRow]
  {
    [g[0][PaylineRow], g[1][PaylineRow], g[2][PaylineRow]]
  }

  /** Every element equals every other one. */
  predicate AllSame(s: seq<Symbol>) {
    forall i, j :: 0 <= i < |s| && 0 <= j < |s| ==> s[i] == s[j]
  }

  /** `calculateWinnings`: the payout is one of exactly two amounts, nothing or
      ten times the bet, and (for a non-zero bet) it is ten times the bet
      exactly when the whole payline shows one symbol. */
  function CalculateWinnings(reels: Grid, bet: int): (w: int)
    requires HasPayline(reels)
    ensures w == 0 || w == bet * Multiplier
    ensures bet != 0 ==> (w == bet * Multiplier <==> AllSame(Payline(reels)))
    ensures bet == 0 ==> w == 0
  {
    if reels[0][PaylineRow] == reels[1][PaylineRow] && reels[1][PaylineRow] == reels[2][PaylineRow] then
      bet * Multiplier
    else
      0
  }

  /** Only the payline decides the payout: two grids that agree on their
      middle row pay the same, whatever their other cells hold. */
  lemma PaylineDecides(a: Grid, b: Grid, bet: int)
    requires HasPayline(a) && HasPayline(b)
    requires Payline(a) == Payline(b)
    ensures CalculateWinnings(a, bet) == CalculateWinnings(b, bet)
  {
  }

  /** Overwriting one cell of the top or bottom row never changes the payout. */
  lemma OffPaylineCellIrrelevant(g: Grid, bet: int, r: nat, row: nat, s: Symbol)
    requires HasPayline(g)
    requires r < |g| && row < |g[r]| && row != PaylineRow
    ensures HasPayline(g[r := g[r][row := s]])
    ensures CalculateWinnings(g[r := g[r][row := s]], bet) == CalculateWinnings(g, bet)
  {
  }

  /** Over an alphabet without repeated keys, a drawn grid wins exactly when
      the three payline draws selected the same index. */
  lemma DrawnGridWinsIffSameIndex(keys: seq<Symbol>, draws: seq<real>, bet: int)
    requires IsAlphabet(keys) && AreRandom(draws, Reels * Rows)
    requires bet != 0
    ensures var n := |keys|;
            CalculateWinnings(GetRandomSymbols(keys, draws), bet) == bet * Multiplier <==>
              DrawIndex(draws[1], n) == DrawIndex(draws[4], n) == DrawIndex(draws[7], n)
  {
    // The payline cells are the keys at the three drawn indices, and distinct
    // indices name distinct keys.
  }

  // ---------------------------------------------------------------------------
  // The ledger over a history of spins
  // ---------------------------------------------------------------------------

  /** Every grid of the history can be scored. */
  predicate AllScorable(spins: seq<Grid>) {
    forall k :: 0 <= k < |spins| ==> HasPayline(spins[k])
  }

  /** The total paid out, at a fixed bet, for the grids of `spins`. */
  function TotalPaid(spins: seq<Grid>, bet: int): (t: int)
    requires AllScorable(spins)
  {
    if spins == [] then 0
    else TotalPaid(spins[..|spins| - 1], bet) + CalculateWinnings(spins[|spins| - 1], bet)
  }

  /** The balance after `spins`, starting from the initial balance: every spin
      takes the bet and pays its winnings. */
  function LedgerBalance(spins: seq<Grid>, bet: int): (b: int)
    requires AllScorable(spins)
  {
    InitialBalance + TotalPaid(spins, bet) - |spins| * bet
  }

  /** For a non-negative bet, `n` spins pay out between nothing and ten bets
      each. */
  lemma {:induction false} TotalPaidBounds(spins: seq<Grid>, bet: int)
    requires AllScorable(spins) && bet >= 0
    ensures 0 <= TotalPaid(spins, bet) <= |spins| * (bet * Multiplier)
  {
    if spins != [] {
      var init := spins[..|spins| - 1];
      TotalPaidBounds(init, bet);
      MulSucc(|init|, bet * Multiplier);
    }
  }

  lemma MulSucc(k: nat, p: int)
    ensures (k + 1) * p == k * p + p
  {
  }

  /** Hence the balance stays within `n` lost bets below and `n` net wins of
      nine bets above the initial balance. */
  lemma LedgerBounds(spins: seq<Grid>, bet: int)
    requires AllScorable(spins) && bet >= 0
    ensures InitialBalance - |spins| * bet <= LedgerBalance(spins, bet)
              <= InitialBalance + |spins| * (bet * (Multiplier - 1))
  {
    TotalPaidBounds(spins, bet);
    var n := |spins|;
    assert n * (bet * Multiplier) - n * bet == n * (bet * (Multiplier - 1));
  }

  /** A run of spins none of which wins costs exactly one bet per spin. */
  lemma {:induction false} LosingRunCostsEveryBet(spins: seq<Grid>, bet: int)
    requires AllScorable(spins)
    requires forall k :: 0 <= k < |spins| ==> !AllSame(Payline(spins[k]))
    ensures LedgerBalance(spins, bet) == InitialBalance - |spins| * bet
  {
    if spins != [] {
      LosingRunCostsEveryBet(spins[..|spins| - 1], bet);
    }
  }

  /** No floor is enforced: at the initial bet, twenty-one losing spins take
      the balance below zero. */
  lemma BalanceCanGoNegative(spins: seq<Grid>)
    requires AllScorable(spins) && |spins| == 21
    requires forall k :: 0 <= k < |spins| ==> !AllSame(Payline(spins[k]))
    ensures LedgerBalance(spins, InitialBet) == -50
  {
    LosingRunCostsEveryBet(spins, InitialBet);
  }

  // ---------------------------------------------------------------------------
  // Game state and the spin step
  // ---------------------------------------------------------------------------

  /** `GameState`, owned by the store and updated in place by `spinReels`.
      `spins` is the ghost history of the grids every spin has drawn. */
  class Game {
    const keys: seq<Symbol>
    var reels: Grid
    var balance: int
    var bet: int
    var winnings: int
    ghost var spins: seq<Grid>

    /** The shown grid is a 3x3 grid of keys; the balance is the initial
        balance settled against every spin so far at the current bet; the
        winnings are those of the last spin alone (zero before the first). */
    ghost predicate Valid()
      reads this
    {
      |keys| > 0 &&
      IsGrid(reels) && OverAlphabet(reels, keys) &&
      AllScorable(spins) &&
      balance == LedgerBalance(spins, bet) &&
      (spins == [] ==> winnings == 0) &&
      (spins != [] ==> reels == spins[|spins| - 1] &&
                       winnings == CalculateWinnings(reels, bet))
    }

    /** `initialState`: a freshly drawn grid, balance 1000, bet 50, no winnings. */
    constructor (keys: seq<Symbol>, draws: seq<real>)
      requires |keys| > 0 && AreRandom(draws, Reels * Rows)
      ensures Valid()
      ensures this.keys == keys && reels == GetRandomSymbols(keys, draws)
      ensures balance == InitialBalance && bet == InitialBet && winnings == 0
      ensures spins == []
    {
      this.keys := keys;
      reels := GetRandomSymbols(keys, draws);
      balance := InitialBalance;
      bet := InitialBet;
      winnings := 0;
      spins := [];
    }

    /** `spinReels`: draw a new grid, score it at the current bet, show it,
        replace the winnings with its payout and settle the bet. */
    method SpinReels(draws: seq<real>)
      requires Valid() && AreRandom(draws, Reels * Rows)
      modifies this
      ensures Valid()
      ensures reels == GetRandomSymbols(keys, draws)
      ensures winnings == CalculateWinnings(reels, old(bet))
      ensures balance == old(balance) + winnings - old(bet)
      ensures bet == old(bet)
      ensures spins == old(spins) + [reels]
    {
      var newReels := GetRandomSymbols(keys, draws);
      var won := CalculateWinnings(newReels, bet);

      reels := newReels;
      winnings := won;
      balance := balance + won - bet;
      spins := spins + [newReels];

      assert spins[..|spins| - 1] == old(spins);
    }
  }
}
