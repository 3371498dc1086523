/**
 * One Tenzies round as a value: its dice, the seconds left on the countdown
 * and its phase, with each event the game reacts to written as a pure
 * transition. The class in module Tenzies performs these transitions in
 * place; the lemmas here state what they keep and what they never do.
 */
module RoundState {
  import opened Dice

  /** Seconds on the countdown when a round starts. */
  const RoundSeconds: nat := 30

  datatype Status = Playing | Won | Lost

  datatype Round = Round(dice: seq<Die>, timeLeft: int, status: Status)

  /** What the random source and the id generator hand to a new round. */
  predicate FreshInputs(draws: seq<real>, ids: seq<Id>) {
    |draws| == DiceCount && ValidDraws(draws) && |ids| == DiceCount && Distinct(ids)
  }

  /**
   * The invariant of every round the game can reach: twenty dice with faces
   * 1 to 6 and distinct ids, a countdown between 0 and 30, the round is won
   * exactly when the dice pass the win test, a round still being played has
   * time left, a lost round has none, and a won round was won in time.
   */
  ghost predicate Wf(r: Round) {
    && |r.dice| == DiceCount
    && AllFaces(r.dice)
    && DistinctIds(r.dice)
    && 0 <= r.timeLeft <= RoundSeconds
    && (r.status == Won <==> IsWinning(r.dice))
    && (r.status == Playing ==> r.timeLeft > 0)
    && (r.status == Lost ==> r.timeLeft == 0)
    && (r.status == Won ==> r.timeLeft > 0)
  }

  /** The round the game starts with, and restarts with. */
  function NewRound(draws: seq<real>, ids: seq<Id>): (r: Round)
    requires |draws| == DiceCount && |ids| == DiceCount
    ensures r.status == Playing && r.timeLeft == RoundSeconds
    ensures |r.dice| == DiceCount && !exists i :: 0 <= i < |r.dice| && r.dice[i].isHeld
    ensures FreshInputs(draws, ids) ==> Wf(r)
  {
    FreshDiceNotWinning(draws, ids);
    Round(FreshDice(draws, ids), RoundSeconds, Playing)
  }

  /** The win check: a round whose dice pass the win test becomes won; otherwise nothing changes. */
  function CheckWin(r: Round): (r': Round)
    ensures r'.dice == r.dice && r'.timeLeft == r.timeLeft
    ensures r'.status == (if IsWinning(r.dice) then Won else r.status)
  {
    if AllHeld(r.dice) && AllSame(r.dice) then r.(status := Won) else r
  }

  /** The roll button: outside play nothing happens; in play the dice not held are re-rolled, then the win check runs. */
  function Roll(r: Round, draws: seq<real>): (r': Round)
    requires |draws| == |r.dice|
    ensures r.status != Playing ==> r' == r
    ensures |r'.dice| == |r.dice| && r'.timeLeft == r.timeLeft
    ensures forall i :: 0 <= i < |r.dice| && r.dice[i].isHeld ==> r'.dice[i] == r.dice[i]
    ensures forall i :: 0 <= i < |r.dice| ==> r'.dice[i].id == r.dice[i].id && r'.dice[i].isHeld == r.dice[i].isHeld
    ensures r.status == Playing ==> r'.dice == Rolled(r.dice, draws)
    ensures r.status == Playing ==> r'.status == (if IsWinning(r'.dice) then Won else Playing)
  {
    if r.status != Playing then r else CheckWin(r.(dice := Rolled(r.dice, draws)))
  }

  /** A click on a die: outside play nothing happens; in play the die with that id flips its held flag, then the win check runs. */
  function Hold(r: Round, id: Id): (r': Round)
    ensures r.status != Playing ==> r' == r
    ensures |r'.dice| == |r.dice| && r'.timeLeft == r.timeLeft
    ensures r.status == Playing ==> r'.dice == Toggled(r.dice, id)
    ensures r.status == Playing ==> r'.status == (if IsWinning(r'.dice) then Won else Playing)
  {
    if r.status != Playing then r else CheckWin(r.(dice := Toggled(r.dice, id)))
  }

  /** The countdown effect: a round in play whose time is up is lost. */
  function Expire(r: Round): Round {
    if r.status == Playing && r.timeLeft == 0 then r.(status := Lost) else r
  }

  /**
   * One second of the countdown: while the round is in play with time left,
   * the countdown drops by one, and the round is lost when that reaches 0.
   */
  function Tick(r: Round): (r': Round)
    ensures r'.dice == r.dice
    ensures r.status != Playing ==> r' == r
    ensures r.status == Playing && r.timeLeft > 0 ==> r'.timeLeft == r.timeLeft - 1
    ensures r.status == Playing && r.timeLeft > 0 ==> (r'.status == Lost <==> r'.timeLeft == 0)
    ensures r.status == Playing && r.timeLeft > 1 ==> r'.status == Playing
    ensures r.timeLeft >= 0 ==> r'.timeLeft >= 0
  {
    Expire(if r.status == Playing && r.timeLeft != 0 then r.(timeLeft := r.timeLeft - 1) else r)
  }

  /** The restart timer: a won or lost round is replaced by a new one; a round in play is left alone. */
  function AutoReset(r: Round, draws: seq<real>, ids: seq<Id>): (r': Round)
    requires |draws| == DiceCount && |ids| == DiceCount
    ensures r.status == Playing ==> r' == r
    ensures r.status != Playing ==> r' == NewRound(draws, ids)
  {
    if r.status == Won || r.status == Lost then NewRound(draws, ids) else r
  }

  /** The events the game reacts to, with what the random source and the id generator supply. */
  datatype Event =
    | RollClicked(draws: seq<real>)
    | DieClicked(id: Id)
    | SecondElapsed
    | RestartFired(draws: seq<real>, ids: seq<Id>)

  /** The inputs an event carries are what the random source and the id generator can produce. */
  predicate WellFormed(e: Event) {
    match e
    case RollClicked(draws) => |draws| == DiceCount && ValidDraws(draws)
    case DieClicked(_) => true
    case SecondElapsed => true
    case RestartFired(draws, ids) => FreshInputs(draws, ids)
  }

  predicate AllWellFormed(evs: seq<Event>) {
    forall i :: 0 <= i < |evs| ==> WellFormed(evs[i])
  }

  predicate IsRestart(e: Event) {
    e.RestartFired?
  }

  function Step(r: Round, e: Event): Round
    requires |r.dice| == DiceCount && WellFormed(e)
  {
    match e
    case RollClicked(draws) => Roll(r, draws)
    case DieClicked(id) => Hold(r, id)
    case SecondElapsed => Tick(r)
    case RestartFired(draws, ids) => AutoReset(r, draws, ids)
  }

  /** Every step keeps the invariant. */
  lemma StepKeepsWf(r: Round, e: Event)
    requires Wf(r) && WellFormed(e)
    ensures Wf(Step(r, e))
  {
  }

  /** The events in order, from round `r`. */
  function Run(r: Round, evs: seq<Event>): (r': Round)
    requires Wf(r) && AllWellFormed(evs)
    ensures Wf(r')
    decreases |evs|
  {
    if evs == [] then r
    else
      StepKeepsWf(r, evs[0]);
      Run(Step(r, evs[0]), evs[1..])
  }

  /**
   * Within a round the phase only moves forward: one step either keeps the
   * phase or leaves Playing; a won or lost round is never changed by
   * anything but the restart.
   */
  lemma StepPhaseForward(r: Round, e: Event)
    requires Wf(r) && WellFormed(e) && !IsRestart(e)
    ensures Step(r, e).status == r.status || r.status == Playing
    ensures r.status != Playing ==> Step(r, e) == r
  {
  }

  /** A won or lost round stays exactly as it is until the restart fires: won never turns into lost, nor lost into won. */
  lemma {:induction false} TerminalUntilRestart(r: Round, evs: seq<Event>)
    requires Wf(r) && AllWellFormed(evs) && r.status != Playing
    requires forall i :: 0 <= i < |evs| ==> !IsRestart(evs[i])
    ensures Run(r, evs) == r
    decreases |evs|
  {
    if evs != [] {
      StepPhaseForward(r, evs[0]);
      TerminalUntilRestart(r, evs[1..]);
    }
  }

  /** The restart leaves a won or lost round for a fresh round in play. */
  lemma RestartFromTerminal(r: Round, draws: seq<real>, ids: seq<Id>)
    requires Wf(r) && r.status != Playing && FreshInputs(draws, ids)
    ensures Step(r, RestartFired(draws, ids)) == NewRound(draws, ids)
    ensures Step(r, RestartFired(draws, ids)).status == Playing
  {
  }

  /** `k` seconds of the countdown with no other event. */
  function Ticks(r: Round, k: nat): Round
    decreases k
  {
    if k == 0 then r else Ticks(Tick(r), k - 1)
  }

  /**
   * From a round in play with `t` seconds left, `k <= t` seconds take exactly
   * `k` off the countdown; the round is lost exactly when all `t` have gone.
   */
  lemma {:induction false} Countdown(r: Round, k: nat)
    requires r.status == Playing && 0 < r.timeLeft && k <= r.timeLeft
    ensures Ticks(r, k) == r.(timeLeft := r.timeLeft - k, status := if k == r.timeLeft then Lost else Playing)
    decreases k
  {
    if k > 0 {
      if r.timeLeft > 1 {
        Countdown(Tick(r), k - 1);
      }
    }
  }

  /** Once the round is not in play, more seconds change nothing: the countdown is frozen. */
  lemma {:induction false} TicksFrozen(r: Round, k: nat)
    requires r.status != Playing
    ensures Ticks(r, k) == r
    decreases k
  {
    if k > 0 {
      TicksFrozen(Tick(r), k - 1);
    }
  }

  /** A fresh round left alone is lost after exactly 30 seconds, at 0 seconds, and stays so. */
  lemma FreshRoundTimesOut(draws: seq<real>, ids: seq<Id>, extra: nat)
    requires |draws| == DiceCount && |ids| == DiceCount
    ensures Ticks(NewRound(draws, ids), RoundSeconds - 1).status == Playing
    ensures Ticks(NewRound(draws, ids), RoundSeconds) == NewRound(draws, ids).(timeLeft := 0, status := Lost)
    ensures Ticks(Ticks(NewRound(draws, ids), RoundSeconds), extra) == Ticks(NewRound(draws, ids), RoundSeconds)
  {
    var r := NewRound(draws, ids);
    Countdown(r, RoundSeconds - 1);
    Countdown(r, RoundSeconds);
    TicksFrozen(Ticks(r, RoundSeconds), extra);
  }

  /**
   * A round in play whose dice are all held and equal is won by the next
   * roll, with the dice unchanged. Such a round is not reachable (Wf rules
   * it out, since the win check already ran); this states the forced-state
   * case directly. The reachable case, a click or roll that completes the
   * win, is in the contracts of Hold and Roll.
   */
  lemma WinOnAllHeldSame(r: Round, draws: seq<real>)
    requires |draws| == |r.dice| && r.status == Playing && IsWinning(r.dice)
    ensures Roll(r, draws).status == Won && Roll(r, draws).dice == r.dice
  {
  }
}
