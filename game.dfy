/**
 * The Tenzies component: the round it holds in its state (the dice, the
 * seconds left and the phase) and the handlers and timer callbacks that
 * update that state in place. Each method performs the updates the
 * component makes, in the same order, and its contract ties the new state
 * to the pure transition of module RoundState that specifies it.
 */
module Tenzies {
  import opened Dice
  import opened RoundState

  class Game {
    var dice: seq<Die>
    var timeLeft: int
    var status: Status

    /** The round this game currently holds. */
    function State(): Round
      reads this
    {
      Round(dice, timeLeft, status)
    }

    ghost predicate Valid()
      reads this
    {
      Wf(State())
    }

    /** Mounting the component: fresh dice, 30 seconds, in play. */
    constructor (draws: seq<real>, ids: seq<Id>)
      requires FreshInputs(draws, ids)
      ensures Valid() && State() == NewRound(draws, ids)
    {
      dice := FreshDice(draws, ids);
      timeLeft := RoundSeconds;
      status := Playing;
      new;
      assert State() == NewRound(draws, ids);
    }

    /** Start a fresh round, whatever state the game is in. */
    method Reset(draws: seq<real>, ids: seq<Id>)
      requires FreshInputs(draws, ids)
      modifies this
      ensures Valid() && State() == NewRound(draws, ids)
    {
      dice := FreshDice(draws, ids);
      timeLeft := RoundSeconds;
      status := Playing;
      assert State() == NewRound(draws, ids);
    }

    /** The win-check effect, run after every change of the dice. */
    method CheckWin()
      modifies this
      ensures State() == RoundState.CheckWin(old(State()))
    {
      var allHeld := AllHeld(dice);
      var allSame := AllSame(dice);
      if allHeld && allSame {
        status := Won;
      }
    }

    /** The roll button: re-roll the dice not held, then check for a win. */
    method Roll(draws: seq<real>)
      requires Valid() && |draws| == DiceCount && ValidDraws(draws)
      modifies this
      ensures Valid() && State() == RoundState.Roll(old(State()), draws)
    {
      if status != Playing {
        return;
      }
      ghost var before := State();
      dice := Rolled(dice, draws);
      CheckWin();
      StepKeepsWf(before, RollClicked(draws));
    }

    /** A click on the die with id `id`: flip its held flag, then check for a win. */
    method Hold(id: Id)
      requires Valid()
      modifies this
      ensures Valid() && State() == RoundState.Hold(old(State()), id)
    {
      if status != Playing {
        return;
      }
      ghost var before := State();
      dice := Toggled(dice, id);
      CheckWin();
      StepKeepsWf(before, DieClicked(id));
    }

    /** One second of the countdown, followed by the countdown effect that declares the round lost at 0. */
    method Tick()
      requires Valid()
      modifies this
      ensures Valid() && State() == RoundState.Tick(old(State()))
    {
      ghost var before := State();
      if status == Playing && timeLeft != 0 {
        timeLeft := timeLeft - 1;
      }
      if status == Playing && timeLeft == 0 {
        status := Lost;
      }
      StepKeepsWf(before, SecondElapsed);
    }

    /** The restart timer, armed once the round is won or lost. */
    method AutoReset(draws: seq<real>, ids: seq<Id>)
      requires Valid() && FreshInputs(draws, ids)
      modifies this
      ensures Valid() && State() == RoundState.AutoReset(old(State()), draws, ids)
    {
      if status == Won || status == Lost {
        Reset(draws, ids);
      }
    }
  }
}
