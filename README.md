# Tenzies round state machine in Dafny

This project models the game logic of the Tenzies dice game, a React
component (`App` in `src/App.jsx`). The player has 20 dice. They roll the
dice that are not held, and they click a die to hold it or release it. The
round is won when every die is held and all show the same face. It is lost
when the 30-second countdown reaches 0. Ten seconds after a win or a loss
the game starts a fresh round.

The model has three modules:

- `Dice` (`dice.dfy`) covers the dice themselves. It holds the `Die` value
  (`value`, `isHeld`, `id`) and the face computed from a random draw. It
  also holds the per-die updates that the component writes as `map`s: the
  re-roll of unheld dice (`Rolled`) and the hold toggle (`Toggled`). The win
  test (`AllHeld`, `AllSame`, `IsWinning`) is here too. Everything in it is pure.
- `RoundState` (`round.dfy`) treats a round as a value: dice, `timeLeft`
  and a status of `Playing`, `Won` or `Lost`. Each handler and timer
  callback is a pure transition: `NewRound`, `Roll`, `Hold`, `CheckWin`,
  `Tick` and `AutoReset`. `Wf` is the invariant that every reachable round
  satisfies. `Run` replays a sequence of events. The lemmas state what the
  component promises: the phase only moves forward, the countdown behaves
  as described, and held dice survive a roll.
- `Tenzies` (`game.dfy`) holds the class `Game`. Its fields `dice`,
  `timeLeft` and `status` are the component's state. Its methods make the
  component's updates in place, in the component's order. Each method
  proves that the new state equals the matching `RoundState` transition
  of the old state. Every method except `CheckWin` also requires and keeps
  `Valid()`. `CheckWin` neither requires nor promises it, because it runs
  on the in-between state: the dice have just changed and the status has
  not yet caught up. `Roll` and `Hold` call it and then prove `Valid()`.

Inputs that come from outside the component are parameters:

- Every `Math.random()` draw is a real number in [0, 1).
- Every `nanoid()` id is a string. A new round's 20 ids must be pairwise distinct, which is what the generator is for.
- Each firing of the one-second interval is one `Tick` step.
- Each firing of the ten-second restart timeout is one `AutoReset` step.

`Roll` and `Hold` end with the win check, just as the component's
win-check effect runs after every change to the dice. `Tick` is the
interval's decrement followed by the countdown effect, which sets the
status to lost at 0.

Where the code departs from what the game evidently intends, the model follows the code, except for the die face:

- The win check (`src/App.jsx:23-30`) has no status guard, although a win
  is evidently meant to count only during play. The model's `CheckWin` has
  no guard either. Under the invariant `Wf`, a round that is not
  in play never passes the win test unless it is already won, so the
  missing guard changes nothing.
- A die is meant to show 1 to 6, but the code computes
  `Math.ceil(Math.random() * 6)`, which gives 0 for a zero draw. Here the
  model uses the corrected face (see Findings).

## Model

| member | source | states |
|---|---|---|
| Dice.CeilFace | src/App.jsx:76 | the face as written: for a draw in [0, 1) it lies in 0..6, and it is 0 exactly when the draw is 0 |
| Dice.CeilFaceOfZeroDraw | src/App.jsx:76 | 0 is a legal draw, and the face written in the code gives 0 for it, which is not a die face |
| Dice.Face | src/App.jsx:76 | the intended face: every draw in [0, 1) gives a face in 1..6; a positive draw gives face v exactly when 6·draw lies in (v-1, v] |
| Dice.FaceAgreesOffZero | src/App.jsx:76 | the intended face equals the written face on every draw except 0 |
| Dice.FreshDice | src/App.jsx:74-80 | a fresh set has 20 dice, none held, die i has id i and the face of draw i; valid draws give faces 1..6, and distinct ids give dice with distinct ids |
| Dice.FreshDiceNotWinning | src/App.jsx:75-79 | a fresh set of dice never passes the win test |
| Dice.Rolled | src/App.jsx:91-95 | a roll keeps the length, the order, every id and every held flag; a held die is unchanged, value included; an unheld die shows the face of its own draw |
| Dice.RolledKeepsFacesAndIds | src/App.jsx:91-95 | after a roll with valid draws every face is still in 1..6, and distinct ids stay distinct |
| Dice.RolledDieUnchanged | src/App.jsx:93 | a die comes out of a roll unchanged exactly when it is held or its new face equals its old one |
| Dice.RollAllHeld | src/App.jsx:92-94 | when every die is held, a roll changes nothing |
| Dice.Toggled | src/App.jsx:101-105 | a click keeps the length, the order, every id and every value; it flips the held flag of each die with that id and leaves the flags of all other dice alone |
| Dice.ToggleOne | src/App.jsx:102-104 | with distinct ids, clicking die k's id flips die k and changes nothing else |
| Dice.ToggleUnknown | src/App.jsx:102-104 | clicking an id that no die carries leaves the dice unchanged |
| Dice.ToggleTwice | src/App.jsx:102-104 | clicking the same id twice restores the dice |
| Dice.ToggledKeepsFacesAndIds | src/App.jsx:102-104 | a click keeps every face in 1..6 and distinct ids distinct |
| Dice.WinningIffOneHeldFace | src/App.jsx:24-27 | the two `every` tests together hold exactly when there is one face that every die shows while held |
| RoundState.NewRound | src/App.jsx:82-86 | a new round is in play with 30 seconds and 20 dice, none held; with valid draws and distinct ids it satisfies the round invariant |
| RoundState.CheckWin | src/App.jsx:23-30 | the status becomes won exactly when every die is held and every value equals the first die's; otherwise the status is unchanged; dice and countdown are never touched |
| RoundState.Roll | src/App.jsx:88-96 | outside play, nothing changes; in play, the dice become the re-rolled dice (held dice unchanged, each unheld die showing the face of its draw), the countdown, length, ids and held flags are kept, and the round is won exactly when the new dice pass the win test |
| RoundState.Hold | src/App.jsx:98-106 | outside play, nothing changes; in play, the dice become the toggled dice, the countdown is kept, and the round is won exactly when the new dice pass the win test |
| RoundState.Tick | src/App.jsx:48-61 | the dice never change; outside play nothing changes; in play with time left the countdown drops by exactly 1, and the round is lost exactly when that reaches 0 (it stays in play while more than 1 second was left); the countdown never goes below 0 |
| RoundState.AutoReset | src/App.jsx:64-72 | a won or lost round is replaced by a new round; a round in play is left alone |
| RoundState.StepKeepsWf | src/App.jsx:48-106 | every roll, click, second and restart keeps the invariant: 20 dice, faces 1..6, distinct ids, a countdown in 0..30, won exactly when the dice pass the win test, time left while in play, none once lost, some when won |
| RoundState.Run | src/App.jsx:8-10 | every round reachable from a valid round by valid events satisfies the invariant |
| RoundState.StepPhaseForward | src/App.jsx:49-52 | apart from the restart, a step either keeps the phase or leaves Playing, and it leaves a won or lost round exactly as it is |
| RoundState.TerminalUntilRestart | src/App.jsx:88-106 | with no restart, any run of events leaves a won or lost round unchanged: won never becomes lost, lost never becomes won, and dice and countdown stay frozen |
| RoundState.RestartFromTerminal | src/App.jsx:64-72 | from a won or lost round the restart gives the new round, which is in play |
| RoundState.Countdown | src/App.jsx:56-58 | from a round in play with t seconds left, k ≤ t seconds leave t−k seconds; the round is lost exactly when k = t |
| RoundState.TicksFrozen | src/App.jsx:49 | once a round is not in play, no number of seconds changes it |
| RoundState.FreshRoundTimesOut | src/App.jsx:48-61 | a fresh round left alone is still in play after 29 seconds, is lost with 0 seconds after 30, and further seconds change nothing |
| RoundState.WinOnAllHeldSame | src/App.jsx:23-30 | a round in play whose dice are all held and equal is won by the next roll, with the dice unchanged (a forced state that the invariant excludes; the reachable win is in the contracts of `RoundState.Roll` and `RoundState.Hold`) |
| Tenzies.Game.constructor | src/App.jsx:8-10 | the component starts with the new round built from the injected draws and ids, and that round satisfies the invariant |
| Tenzies.Game.Reset | src/App.jsx:82-86 | whatever the state, the game then holds the new round, and the invariant holds |
| Tenzies.Game.CheckWin | src/App.jsx:23-30 | the state becomes the pure win check of the old state |
| Tenzies.Game.Roll | src/App.jsx:88-96 | the state becomes the pure roll of the old state, and the invariant is kept |
| Tenzies.Game.Hold | src/App.jsx:98-106 | the state becomes the pure click of the old state, and the invariant is kept |
| Tenzies.Game.Tick | src/App.jsx:48-61 | the state becomes the pure countdown step of the old state, and the invariant is kept |
| Tenzies.Game.AutoReset | src/App.jsx:64-72 | the state becomes the pure restart of the old state, and the invariant is kept |

## Left out

- Background music (`src/App.jsx:15-20`) is browser audio, and its caught failure does not touch the round.
- The flashing "You won" visibility flag (`src/App.jsx:33-45`) is cosmetic and never read by the game logic. It is false whenever the status is not won.
- Window-size tracking and the confetti (`src/App.jsx:12`, `src/App.jsx:123`, `src/App.jsx:151-173`) are DOM code and an external library.
- The markup, banners, marquee and disabled roll button (`src/App.jsx:108-148`) are presentation. `src/Die.jsx` is a stateless button with no logic.
- Real `setInterval`/`setTimeout` scheduling and React's effect ordering and batching are not modelled. Each interval firing is one `Tick` step, and the restart timeout is one `AutoReset` step with no 10-second delay. The win check runs right after each dice update, as part of `Roll` and `Hold`. A timer callback that slipped in between the dice update and the win-check effect is not modelled. The same-instant tie between a win and the timeout therefore follows the order of the steps and is no guarantee of the component.
- `Math.random` and `nanoid` internals are foreign calls. Their results are injected as parameters. That the generator's 20 ids are distinct is taken as a requirement of `NewRound`'s callers (`FreshInputs`).
- Roll draws one value per die, and only unheld dice use theirs. The component draws only for unheld dice. With injected draws this is a renumbering, not a behaviour change.
- Dice.CeilFace: the product `draw * 6` is exact in the model, while the component rounds it to a double before `Math.ceil`. Near a face boundary that rounding can give the lower face (for the draw 0.16666666666666669 the component shows 1, the model 2). Double rounding is not modelled, so `Dice.FaceAgreesOffZero` compares the two faces of the real-number model only.
- Dice.Face: the game uses the corrected face rather than the face as written (see Findings). So a zero draw gives face 1 in the model, where the component would show 0. Apart from that and the double rounding noted under `Dice.CeilFace`, the two agree.

## Findings

| source | as written | input that shows it | evidently intended | confidence | as-written member | corrected member |
|---|---|---|---|---|---|---|
| src/App.jsx:76 | `Math.ceil(Math.random() * 6)` is the die value; `Math.random()` may return 0, and the ceiling of 0 is 0 (the same expression is at src/App.jsx:93) | a draw of exactly 0.0, which `Math.random()` may return | every die shows a face from 1 to 6 | certain on the arithmetic; the draw 0 comes up with probability about 2^-53 per die; not executed | Dice.CeilFaceOfZeroDraw | Dice.Face |
