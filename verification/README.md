# SPQRisiko agent-based model: combat, scoring, cards and the battle chain

This project models the core of SPQRisiko, an agent-based simulation of a
Risk-like board game set in ancient Rome. The model covers these parts:

- **Player actions.** Ground reinforcements, victory points, reinforcement
  of power places, the movement of triremes (warships) between sea areas,
  naval battle, and ground battle across the sea.
- **Game model.** Building the card deck, drawing cards, and trading a
  *tris* (three cards) for reinforcements.
- **Battle Markov chain.** The table of one-round outcome probabilities,
  the enumeration of transient and absorbing states, and the filling of the
  `Q` matrix (transient to transient) and the `R` matrix (transient to
  absorbing).

Every operation is a pure function over immutable records, or a method
with loops that mirrors the source's loops. Dice come from a `DieStream`:
the future draws of the game's single pseudorandom generator. Each round
draws the attacker's dice and then the defender's. Probabilities are exact
`real` rationals.

Files:

- `optional.dfy`: the `Option` type. A `None` owner is an unowned area; a
  `None` draw means an empty deck.
- `territory.dfy`: the territory, ground-area and sea-area records and
  their constructor defaults.
- `dice.dfy`: rolling, sorting from highest to lowest, and pairwise
  comparison of two dice lists.
- `ground_combat.dfy`: `combact_by_sea`.
- `naval.dfy`: `naval_combact` and `naval_movement`.
- `scoring.dfy`: `get_ground_reinforces`, `update_victory_points` and
  `update_ground_reinforces_power_places`.
- `cards.dfy`: `create_deck`, `draw_a_card` and `reinforces_from_tris`.
- `combat_table.dfy`: the `probs` table.
- `dice_counts.dfy`: the rows of `probs` with one defender die, counted
  from every throw of the dice.
- `markov_states.dfy`: the state enumeration.
- `markov_transitions.dfy`: the filling of `Q` and `R`.

Two rules of the battle chain are worth stating, because they are easy to
misread:

- A battle state `(a, d)` is transient exactly when `a >= d >= 1`: the
  test at src/markov.py:39 sends every state with `a == 0`, `d == 0` or
  `a < d` to the absorbing list.
- The transition target of outcome `k` is `(a - d + k, d - k)`, as written
  at src/markov.py:70. A ground round compares at most three pairs, so from
  more than three defenders that target charges the attacker too much. Both
  rules are modelled (`Rule.AsWritten` and `Rule.Corrected`), and the
  difference is a finding, listed below.

## Model

| member | source | states |
|---|---|---|
| Scoring.ReinforcementsFor | src/player.py:71-79 | at least one reinforcement; exactly one below three areas; otherwise the larger of three and a third of the areas, rounded down; never more than a third of max(9, areas) |
| Scoring.GroundReinforces | src/player.py:67-79 | with `n` the calling player's own entry of the per-player counts: one reinforcement below three areas, three from 3 to 11 areas, and above 11 the `r` with `3r <= n < 3r + 3`, that is `floor(n / 3)` |
| Scoring.ReinforcementsMonotone | src/player.py:72-77 | holding more ground areas never earns fewer reinforcements |
| Scoring.MaxOf | src/player.py:37 | `max` of a non-empty list is an element of it and bounds every element |
| Scoring.PlayersWith | src/player.py:38-40 | the comprehension lists exactly the players whose count equals the maximum, each once, in increasing order |
| Scoring.CategoryPointIffSoleLeader | src/player.py:41-43 | the test "one leader and it is me" holds exactly when the player's count is strictly above every other player's, so a tie for the maximum gives nobody the point |
| Scoring.PointGoesToSoleLeader | src/player.py:41 | a player that passes the category test beats every other player strictly |
| Scoring.SoleLeaderGetsPoint | src/player.py:41 | a strict leader is the only entry of the leaders' list |
| Scoring.CategoryPointIsExclusive | src/player.py:41-43 | at most one player earns each category point |
| Scoring.UpdateVictoryPoints | src/player.py:37-64 | victory points grow by the player's power-place points plus one for each of the three categories (largest empire, most ground areas, most sea areas) in which it is the strict leader |
| Scoring.PowerPlaceReinforcements | src/player.py:81-85 | with the owner test read as "owned by this player": every power place the player owns gains one army; every other area is unchanged; the army total grows by the number of such power places |
| Scoring.PowerPlaceReinforcementsAsWritten | src/player.py:81-85 | as written, the owner test compares a player object with an integer and never holds, so no area changes |
| Scoring.PowerPlaceAsWrittenMissesOwner | src/player.py:84 | a power place owned by player 0 keeps its two armies as written, but gains a third under the intended owner test |
| Scoring.PowerPlaceTotals | src/player.py:84-85 | adding one army to each owned power place raises the army total by their count |
| Naval.NavalMovement | src/player.py:95-102 | the moving player's triremes over the two seas keep their sum; the destination gains exactly `n_trireme`; every other player's entry and every other field is unchanged |
| Naval.MovementKeepsTotal | src/player.py:101-102 | the total triremes over both sea areas is unchanged |
| Naval.Round | src/player.py:107-142 | a tie costs nobody: a round is a parity exactly when every compared pair ties, and then nothing changes; the attacker loses one committed trireme per pair where its die is lower; when the players differ, the defender loses one trireme per pair the attacker wins, the attacker's uncommitted triremes stay put, and the two losses plus the ties make up the pairs compared; only the two players' entries change; every round lowers the loop's measure |
| Naval.Fight | src/player.py:105-142 | the loop stops with one side out of triremes, or after a parity round that left both afloat; only the two players' entries change; the attacker's entry falls exactly as its committed triremes do |
| Naval.NavalCombat | src/player.py:104-149 | a battle with triremes on both sides ends in a win, a loss or a parity with both sides afloat; no entry goes negative when the attacker commits no more than it has; a battle with nobody to fight changes nothing |
| Dice.RollConcat | src/player.py:107-108 | throwing `m` dice and then `n` more reads the same draws of the generator as throwing `m + n` at once, so a round's two throws are consecutive draws |
| Dice.SortDesc | src/player.py:158-159 | `sorted(..., reverse=True)`: the result is ordered from highest to lowest and is a permutation of the throw |
| Dice.Insert | src/player.py:158 | inserting a die into a sorted list keeps it sorted and adds exactly that die |
| Dice.SortedIsUnique | src/player.py:158-159 | two lists sorted from highest to lowest with the same dice are equal, so the sort agrees with Python's `sorted` |
| Dice.Pairs | src/player.py:163 | `map` over two lists compares as many pairs as the shorter list has |
| Dice.TallyPairs | src/player.py:163-171 | every compared pair is an attacker win, a defender win or a tie; attacker wins, defender wins and ties are counted as the positions where the attacker's die is strictly higher, strictly lower and equal; no ties exactly when every pair differs; all ties exactly when every pair is equal |
| Dice.PositionsStep | src/player.py:163-171 | one more pair adds its position to exactly one of the three position sets, the one its comparison names |
| Dice.PositionsCountStep | src/player.py:163-171 | one more pair adds one to the count of its own comparison and leaves the other two counts alone |
| Dice.TiesCount | src/player.py:112-142 | no pair ties exactly when every pair differs, and every pair ties exactly when all are equal, which is the parity test of a naval round |
| Dice.WinsBelowStep | src/player.py:163-166 | one more pair adds its position to the attacker's wins exactly when its attacker die is strictly higher |
| GroundCombat.Round | src/player.py:158-171 | the defender loses one army per pair the attacker wins strictly; the attacker loses the rest, ties included; the origin area loses exactly what the committed armies lose; every round lowers the armies in play |
| GroundCombat.TiesFavourDefender | src/player.py:163-171 | when no attacker die beats its defender die, the defender keeps every army and the attacker loses one army per pair |
| GroundCombat.Fight | src/player.py:157-171 | the loop ends with exactly one side at zero; neither side grows; the origin's armies minus the committed armies never change |
| GroundCombat.NotBothWipedOut | src/player.py:157-171 | a round never removes both sides' last armies |
| GroundCombat.Settle | src/player.py:192-198 | a wiped-out defender hands over its area: the target gets the origin's owner and the surviving committed armies and keeps every other field; the origin loses exactly those armies and keeps every other field; otherwise nothing changes |
| GroundCombat.CombatBySea | src/player.py:151-198 | after a battle with armies on both sides the origin holds its armies minus the committed ones; a conquered area gets the attacker's owner and between one and the committed armies; a defended area keeps its owner and between one and its armies; an empty area is taken at once; the origin changes only in its armies and the target only in its owner and armies |
| Cards.Repeat | src/model.py:100-101 | `range(n)` appends exactly `max(n, 0)` copies of the card |
| Cards.CreateDeck | src/model.py:84-103 | a truthy `custom_numbers` returns the empty deck; otherwise every entry's copies are appended, entry after entry |
| Cards.ExpandLength | src/model.py:94-101 | the deck has as many cards as the entries' `number_in_deck` add up to |
| Cards.ExpandMultiplicity | src/model.py:94-101 | each card appears in the deck exactly as many times as the entries ask for |
| Cards.RepeatMultiplicity | src/model.py:100-101 | the copies of one entry contain that card `n` times and no other card |
| Cards.ExpandConcat | src/model.py:94-101 | the deck of two runs of entries is the first run's deck followed by the second's |
| Cards.DrawACard | src/model.py:105-114 | the top card is the deck's last; an empty deck is refilled from the discard pile, which keeps its cards; with both empty nothing is drawn and nothing changes |
| Cards.DrawConservesCards | src/model.py:105-114 | the drawn card plus what remains is exactly the pile drawn from; nothing is drawn exactly when that pile is empty |
| Cards.DrawsAreLastInFirstOut | src/model.py:113-114 | drawing `n` cards from a deck that holds them yields its last `n` cards, top first, and leaves the rest |
| Cards.DrawFromDeck | src/model.py:113-114 | a draw from a deck that is not empty takes its last card |
| Cards.ReinforcesFromTris | src/model.py:117-130 | a hand of other than three cards and a hand of neither one kind nor three kinds are refused; a bonus naming an unknown reinforcement kind is refused; otherwise 8 legionaries for one kind or 10 for three kinds, plus every card's bonus per kind |
| Cards.KindsOfThree | src/model.py:119-121 | three cards have one distinct type exactly when all share a type, and three exactly when all differ |
| Cards.TrisIgnoresOrder | src/model.py:117-130 | the result depends only on which cards are in the hand, not on their order |
| Cards.BonusIgnoresOrder | src/model.py:127-129 | the bonus total does not depend on card order |
| Cards.BonusRemove | src/model.py:127-129 | a card's bonus can be taken out of the total wherever the card sits |
| CombatTable.TableRowsAreDistributions | src/markov.py:14-21 | the table has exactly the keys where the attacker throws at least as many dice as the defender (three at most); each row has one entry per possible defender loss; every row is a probability distribution |
| CombatTable.SingleDiceTally | src/markov.py:11-15 | one die against one: the defender loses exactly when the attacker's die is higher |
| CombatTable.OneOnOneThrows | src/markov.py:11-15 | of the 36 throws of one die each, 21 cost the defender nothing and 15 cost it one army |
| CombatTable.AgainstEachDefenderCount | src/markov.py:11-15 | an attacker die `x` beats the defender dice below `x` and no others |
| CombatTable.OneOnOneRowMatchesDice | src/markov.py:9-15 | the row for one die against one equals the counts of the comparison rule divided by 36 |
| DiceCounts.LossAgainstOneIsTally | src/player.py:158-171 | against one defender die, sorting the attacker's throw and comparing the first pair is exactly the tally of a one-pair ground round |
| DiceCounts.LossAgainstOneIff | src/player.py:158-166 | against one defender die the defender loses its army exactly when some attacker die is higher |
| DiceCounts.AllThrowsSize | src/markov.py:9-13 | there are `6^n` throws of `n` dice |
| DiceCounts.AllThrowsWithin | src/markov.py:9-13 | `y^n` of the throws of `n` dice show no die above `y` |
| DiceCounts.CountLosingSplit | src/markov.py:9-13 | the throws that cost nothing against die `y` are those with no die above `y`; all others cost one army |
| DiceCounts.AgainstOneDieTotal | src/markov.py:9-13 | every pair of a throw and a defender die costs the defender nothing or one army |
| DiceCounts.DiceAgainstOne | src/markov.py:15-18 | of the `6^(n + 1)` throws of `n` attacker dice and one defender die, 21, 91 and 441 cost nothing and 15, 125 and 855 cost one army, for `n` of 1, 2 and 3 |
| DiceCounts.OneDefenderRowsMatchDice | src/markov.py:15-18 | the rows `11`, `21` and `31` of `probs` are exactly those counts divided by the number of throws |
| Territory.NewTerritory | src/territory.py:16-24 | a new territory keeps its name, type and coordinates, starts with `found` at 0, and hashes to its identifier |
| Territory.NewGroundArea | src/territory.py:37-40 | a new ground area is unowned, holds two armies and is not a power place |
| Territory.NewSeaArea | src/territory.py:53-58 | a new sea area has not fought and holds one zero fleet entry per player, so its fleets add up to zero |
| Territory.ZeroFleetsTotal | src/territory.py:58 | a list of zero fleets adds up to zero |
| Territory.HashIsIdentifier | src/territory.py:23-24 | two territories hash alike exactly when their identifiers agree |
| MarkovStates.EnumerateStates | src/markov.py:34-48 | the transient list is the states with `a >= d >= 1` in loop order; the absorbing list is the states with `0 < a < d`, then those with `a == 0` or `d == 0`, each in loop order and without `(0, 0)`; each list holds exactly its states |
| MarkovStates.VisitGrid | src/markov.py:37-46 | the nested loops classify every state of the grid |
| MarkovStates.VisitGridRow | src/markov.py:38-46 | one pass of the inner loop classifies one more row |
| MarkovStates.VisitRow | src/markov.py:38-46 | the inner loop over `d` classifies the states of row `a` |
| MarkovStates.Visit | src/markov.py:39-46 | a state with `0 < a < d` is inserted at `idx_col` after the earlier such states and `idx_col` grows; a boundary state is appended to the absorbing list; a transient state goes to the transient list |
| MarkovStates.DeleteOrigin | src/markov.py:47-48 | `idx_col` points at `(0, 0)`, so the deletion removes exactly that state |
| MarkovStates.OriginComesFirst | src/markov.py:37-48 | `(0, 0)` is the first boundary state the loops meet |
| MarkovStates.SelectContents | src/markov.py:39-46 | a kind's list holds exactly the visited states of that kind, in visit order |
| MarkovStates.RowContents | src/markov.py:38 | a row visits exactly `(a, 0)` to `(a, D)`, in increasing `d` |
| MarkovStates.RowsContents | src/markov.py:37-38 | the loops visit exactly the grid `0..A` by `0..D`, in loop order |
| MarkovStates.BoundaryTailContents | src/markov.py:44-48 | the boundary states after `(0, 0)` are exactly the other grid states with `a == 0` or `d == 0` |
| MarkovStates.StatesPartitionGrid | src/markov.py:34-48 | the two lists partition the grid without `(0, 0)`: transient states in one, every other state in the other |
| MarkovStates.CountIncreasing | src/markov.py:54-63 | a list in loop order names each state at most once |
| MarkovStates.ColumnsListEachStateOnce | src/markov.py:54-63 | the columns of `Q` and `R` together name every grid state except `(0, 0)` exactly once |
| MarkovTransitions.Outcomes | src/markov.py:68 | the row a transient state looks up is a probability distribution with one entry per possible defender loss, `0` to `min(3, d)` |
| MarkovTransitions.Target | src/markov.py:70 | the `k`-th outcome takes exactly `k` armies from the defender; it stays inside the grid and is never `(0, 0)` |
| MarkovTransitions.TargetsAreDistinct | src/markov.py:68-72 | different outcomes of one state lead to different targets, so no cell is written twice |
| MarkovTransitions.CorrectedFollowsGroundRound | src/markov.py:70 | under the corrected rule the target is exactly the state a ground round leads to, with `k` the defender's losses |
| MarkovTransitions.RulesAgreeUpToThreeDefenders | src/markov.py:70 | with at most three defenders the written target and the corrected target agree |
| MarkovTransitions.AsWrittenOvercharges | src/markov.py:70 | with more than three defenders the written target charges the attacker `d - k` armies although it loses only `3 - k` |
| MarkovTransitions.AsWrittenMissesGroundRound | src/markov.py:70 | from `(4, 4)` with no defender loss a ground round leaves the attacker one army, but the written target is `(0, 4)` |
| MarkovTransitions.Fill | src/markov.py:68-72 | after `n` outcomes the row holds each outcome's probability at its target and nothing else |
| MarkovTransitions.FillStep | src/markov.py:68-72 | writing one more outcome changes only its target's cell |
| MarkovTransitions.FillSum | src/markov.py:68-72 | when every target is named by exactly one column, the row sums to the table row's sum |
| MarkovTransitions.RowSumsToOne | src/markov.py:65-72 | the row of every transient state sums to one over the columns of `Q` and `R` together, under either rule |
| MarkovTransitions.FillMatrices | src/markov.py:65-72 | `Q` holds, for each transient state, each outcome's probability whose target is one of its columns, and zero elsewhere; `R` holds the others |
| MarkovTransitions.FillRows | src/markov.py:66-72 | the loop over `d` writes the rows of the transient states of row `a` |
| MarkovTransitions.WriteState | src/markov.py:67-72 | writing the row of one transient state extends the written part past it |
| MarkovTransitions.WrittenStep | src/markov.py:66-67 | one more step of the loops adds the visited transient state to the written ones |
| MarkovTransitions.SkipState | src/markov.py:67 | a state with more defenders than attackers writes nothing |
| MarkovTransitions.NextRow | src/markov.py:65-66 | after the last `d` of row `a`, the next state is the first of row `a + 1` |
| MarkovTransitions.WriteRow | src/markov.py:68-72 | each outcome goes into the row of `Q` when its target is a column of `Q`, into the row of `R` otherwise |
| MarkovTransitions.WriteStep | src/markov.py:69-72 | one `try`/`except KeyError` step writes the outcome into exactly one of the two rows |
| MarkovTransitions.BuildChain | src/markov.py:34-72 | the transient and absorbing lists are exactly the enumeration's, in loop order with `(0, 0)` deleted; each `Q` entry is the table's probability of moving from a transient state to a transient one, each `R` entry the probability of moving to any other state, and each row sums to one over the two matrices' columns |

## Left out

- The mesa `Agent` base class that territories and players extend is left out. Only the identifier it stores is modelled.
- Randomness is a parameter: a `DieStream` stands for the draws of Python's `random.randint(1, 6)`. Which values the generator produces is not modelled.
- Printing and file reading are left out. The deck's card list arrives already parsed, instead of being read from `cards.json`.
- `sacrifice_trireme` is left out: it indexes a ground area's `armies` as a list, but `armies` is a number, so the source cannot run as written.
- `SPQRisiko.__init__`, `create_graph_map`, `server.py` and `strategies.py` are left out. The first two build the mesa grid and the map, and `server.py` the visual server. `strategies.py` holds configuration data, win probabilities and a table of strategies, that none of the modelled files read. `step` and `run_model` (src/model.py:132-137) are left out too: they drive a `self.schedule` that `__init__` never creates.
- The part of `markov.py` after line 72 is left out. That covers the pruning of all-zero `R` columns, the floating-point inverse `(I - Q)^-1 R` and the winning probabilities. Exact rationals stand in for the floats of `probs`.
- The `try`/`except KeyError` at src/markov.py:69-72 is meant to send a target that is not a column of `Q` to `R`, and the model routes it that way. What pandas actually does is not modelled: setting a missing label through `.loc` enlarges the frame instead of raising `KeyError`. Every target lies in the grid and is not `(0, 0)`, so it is a column of `Q` or of `R`.
- Scoring.UpdateVictoryPoints: needs every count list to be non-empty, because Python's `max` of an empty list raises an error that the model does not reproduce. It also needs the player's identifier to index `power_places`; an identifier past its end raises `IndexError` at src/player.py:60-64, and that error is not modelled.
- Scoring.GroundReinforces: needs the player's identifier to index `territories_per_players`; an identifier past its end raises `IndexError` at src/player.py:71, and that error is not modelled. Above eleven areas the source divides in floating point, `math.floor(player_territories / 3)` at src/player.py:73, and the model divides exactly; the two agree for every count below 2^53, far above the 45 territories of the map (src/model.py:38), but above it the correctly rounded float quotient can round up, as it does at 3 · 2^52 + 2, and the source's result can then exceed a third of the count.
- Scoring.ReinforcementsFor: models the float `/ 3` of src/player.py:73 as exact floor division, which agrees with the source for every count below 2^53 but not for every count above it.
- GroundCombat.CombatBySea: an unowned target with armies makes the message at src/player.py:160 read `owner.unique_id` of `None`, which raises `AttributeError` before any dice are compared. The model fights that battle as if the message were not there.
- CombatTable.TableRowsAreDistributions: the rows `22`, `32` and `33` of `probs` are taken from src/markov.py:17-20 as they stand. They are shown to be probability distributions, but they are not derived from the dice; the rows `11`, `21` and `31` are (`DiceCounts.OneDefenderRowsMatchDice`).
- Scoring.PowerPlaceReinforcements: the areas are passed as a list. The lookup through the model's grid by territory id is left out. The owner test follows its evident intent, not the comparison as written; see the findings.
- Naval.NavalMovement: needs the player's identifier to index both areas' `trireme` lists. An identifier past the end of either list raises `IndexError` at src/player.py:101-102; when only the destination's list is too short, line 101 has already taken the triremes away, so the source leaves the move half done. Neither error nor the half-done move is modelled.
- Naval.NavalCombat: needs both players' identifiers to index the area's `trireme` list. An identifier past its end raises `IndexError` in the loop at src/player.py:106-146, and that error is not modelled. With no committed triremes the source never indexes the list and returns normally for any adversary, but the model still asks for both identifiers to be in range.
- Naval.NavalMovement: takes the two sea areas as separate values. When the caller passes the same area twice, Python updates one list twice, and that aliasing is not modelled.
- GroundCombat.CombatBySea: takes `origin` and `target` as separate values. When the caller passes the same ground area as both, Python updates that one object twice, and that aliasing is not modelled.
- Cards.CreateDeck: `custom_numbers` is modelled as its truthiness, a `bool`.
- Cards.ReinforcesFromTris: Python's `assert` statements are modelled as refusals. Running Python with `-O` would disable them, and that mode is not modelled.

## Findings

| source | as written | input that shows it | evidently intended | confidence | as-written member | corrected member |
|---|---|---|---|---|---|---|
| src/player.py:84 | `territory.owner == self.unique_id` compares the owner, a `Player` object or `None`, with an integer identifier, so the test never holds | any power place owned by the calling player: it keeps its armies | `territory.owner` is the calling player, so each owned power place gains one army | not executed; owners are assigned `Player` objects at src/model.py:49-65 and read as `owner.unique_id` at src/player.py:160 | Scoring.PowerPlaceAsWrittenMissesOwner | Scoring.PowerPlaceReinforcements |
| src/markov.py:70 | the target of outcome `k` from `(a, d)` is `(a - d + k, d - k)`, which charges the attacker `d - k` armies | state `(4, 4)` with `k = 0`: only three dice pairs are compared, so the attacker loses 3 armies and should reach `(1, 4)`, but the code writes the probability into `(0, 4)` | target `(a - (min(3, d) - k), d - k)`, the state a ground round actually leads to | not executed; follows from the dice rule at src/player.py:158-171 | MarkovTransitions.AsWrittenMissesGroundRound | MarkovTransitions.CorrectedFollowsGroundRound |
