# Slot-machine game state, modelled in Dafny

The game holds one piece of state, `GameState`: the shown grid `reels`, the
player's `balance`, the `bet` and the last `winnings`. The grid has three reels
of three symbols each and is stored reel-major, so `reels[r][row]` is the cell
in row `row` of reel `r`. Each symbol is a key of the symbol table. A spin
draws a fresh grid. The spin pays ten times the bet when the middle cell of all
three reels shows the same symbol, and nothing otherwise. The spin then shows
the new grid, replaces the winnings with that payout and moves the balance by
`winnings - bet`. The game starts with a balance of 1000, a bet of 50 and no
winnings.

`game_slice.dfy` (module `GameSlice`) follows `src/store/gameSlice.ts`:

- **Symbol draw.** `DrawIndex` is `Math.floor(u * n)` and `GetRandomSymbol`
  picks that key. Randomness is an input: each value `Math.random()` would
  return is a real `u` with `0 <= u < 1`.
- **Grid draw.** `GetRandomSymbols` builds the grid from nine such values,
  consumed in call order: reel by reel, top to bottom.
- **Payout rule.** `CalculateWinnings` is stated against an independent reading
  of the rule: the payline (`Payline`, the middle row) is "all the same"
  (`AllSame`).
- **Spin step.** The class `Game` holds the state, with a ghost history of
  every grid drawn by a spin. Its invariant `Valid()` ties the balance to the
  opening balance settled against every spin (`LedgerBalance`). It also says
  the winnings are those of the last spin alone. `SpinReels` is the reducer
  `spinReels` and updates the fields in place.

`scenarios.dfy` (module `GameScenarios`) runs two spins from the initial state
over the alphabet A, B, C: a winning one and a losing one.

## Model

| member | source | states |
|---|---|---|
| GameSlice.DrawIndex | src/store/gameSlice.ts:11-14 | `Math.floor(u * keys.length)` is always a valid index below the number of keys. With the product `u * n` taken exactly, it is the index whose slice `[i/n, (i+1)/n)` of the unit interval holds `u`. |
| GameSlice.DrawIndexReachesEvery | src/store/gameSlice.ts:13 | Every index can be drawn: with the exact product, the random value `i/n` selects index `i`. |
| GameSlice.GetRandomSymbol | src/store/gameSlice.ts:11-14 | For a non-empty key list, the drawn symbol is always one of the keys of the symbol table. |
| GameSlice.EverySymbolDrawable | src/store/gameSlice.ts:11-14 | Every key of the symbol table is the outcome of some random value. |
| GameSlice.GetRandomSymbols | src/store/gameSlice.ts:16-18 | The grid has exactly 3 reels of exactly 3 cells, and every cell is a key. Cell (reel `r`, row `row`) comes from the draw made `3r + row`-th in call order. |
| GameSlice.CalculateWinnings | src/store/gameSlice.ts:20-25 | The payout is either 0 or `bet * 10`. A bet of 0 pays 0. For a non-zero bet, the payout is `bet * 10` exactly when all three payline cells hold one symbol. |
| GameSlice.PaylineDecides | src/store/gameSlice.ts:21 | Two grids whose middle rows agree pay the same, whatever their other cells hold. |
| GameSlice.OffPaylineCellIrrelevant | src/store/gameSlice.ts:21 | Overwriting any cell in row 0 or row 2 of any reel never changes the payout. |
| GameSlice.DrawnGridWinsIffSameIndex | src/store/gameSlice.ts:11-25 | The keys are distinct and the bet is non-zero. Then a drawn grid pays `bet * 10` exactly when the draws for the three middle cells selected the same key index. |
| GameSlice.TotalPaidBounds | src/store/gameSlice.ts:20-25 | With a non-negative bet, `n` spins pay between 0 and `n * bet * 10` in total. |
| GameSlice.LedgerBounds | src/store/gameSlice.ts:38-45 | With a non-negative bet, after `n` spins the balance lies between `1000 - n * bet` and `1000 + n * bet * 9`. |
| GameSlice.LosingRunCostsEveryBet | src/store/gameSlice.ts:40-44 | A run of spins that never wins leaves the balance at exactly `1000 - n * bet`. |
| GameSlice.BalanceCanGoNegative | src/store/gameSlice.ts:44 | No floor is enforced: at the initial bet of 50, twenty-one losing spins leave a balance of -50. |
| GameSlice.Game.constructor | src/store/gameSlice.ts:27-32 | The initial state is a freshly drawn 3×3 grid of keys, with balance 1000, bet 50, winnings 0 and no spins yet. The ledger invariant holds. |
| GameSlice.Game.SpinReels | src/store/gameSlice.ts:38-45 | `reels` becomes the freshly drawn grid. `winnings` becomes that grid's payout at the pre-spin bet and replaces the old value. `balance` becomes `old balance + winnings - bet`, and `bet` is unchanged. The history grows by that grid and the ledger invariant is kept. |
| GameScenarios.WinningSpin | src/store/gameSlice.ts:27-45 | From the initial state, a spin whose middle row is A, A, A pays 500 and leaves a balance of 1450. |
| GameScenarios.LosingSpin | src/store/gameSlice.ts:27-45 | From the initial state, a spin whose middle row is A, B, A pays 0 and leaves a balance of 950. |

## Left out

- `Math.random` is not modelled as a distribution. Its values are inputs in `[0, 1)`, so nothing is claimed about uniformity or frequencies.
- The symbol table comes from the module `src/gameLogic`, which is not part of this model. Its key list is a parameter, required to be non-empty. With an empty table the code would index past the end and yield `undefined`; the model does not cover that case.
- JavaScript numbers are modelled as unbounded integers. Balance, bet and winnings are whole currency units, so floating-point rounding and the 2^53 limit are not modelled.
- GameSlice.DrawIndex: the product `u * n` is exact here, while JavaScript rounds `Math.random() * keys.length` to a double before `Math.floor`. Just below a slice boundary `i/n` the code can therefore select index `i` where the model selects `i - 1` (with 3 keys, `0.3333333333333333 * 3` rounds to `1`). The index range, membership in the key list and reachability of every key hold either way; the slice property holds only for the exact product.
- The code has no timed animation and no spin-generation counter. `src/components/SlotMachine.tsx` only dispatches `spinReels`, and the reducer settles the spin synchronously, which is what `GameSlice.Game.SpinReels` models.
- Not modelled, because they are rendering, styling and library wiring with no game logic:
  - `src/components/SlotMachine.tsx`: texture loading, resize scaling and sprite layout.
  - `src/styles/*`.
  - `src/index.tsx`, `src/App.tsx` and `src/store/store.ts`: React and Redux set-up.
