/**
 * The dice of one Tenzies round and the per-die updates the game applies to
 * them: the face a random draw produces, re-rolling the dice that are not
 * held, flipping the held flag of the die a player clicked, and the win test.
 * Everything here is pure; the mutable round lives in module Tenzies.
 */
module Dice {

  /** Number of dice in a round. */
  const DiceCount: nat := 20

  /** Number of faces of a die. */
  const Faces: nat := 6

  /** Opaque identifier of a die, as handed out by the id generator. */
  type Id = string

  /** One die: the face it shows, whether the player froze it, and its id. */
  datatype Die = Die(value: int, isHeld: bool, id: Id)

  /** A draw of the random source lies in [0, 1). */
  predicate IsDraw(draw: real) {
    0.0 <= draw < 1.0
  }

  predicate ValidDraws(draws: seq<real>) {
    forall i :: 0 <= i < |draws| ==> IsDraw(draws[i])
  }

  /** No id occurs twice in `ids`. */
  predicate Distinct(ids: seq<Id>) {
    forall i, j :: 0 <= i < j < |ids| ==> ids[i] != ids[j]
  }

  /** No two dice share an id. */
  predicate DistinctIds(dice: seq<Die>) {
    forall i, j :: 0 <= i < j < |dice| ==> dice[i].id != dice[j].id
  }

  /** Every die shows one of the faces 1 to 6. */
  predicate AllFaces(dice: seq<Die>) {
    forall i :: 0 <= i < |dice| ==> 1 <= dice[i].value <= Faces
  }

  /** Smallest integer not below `x`. */
  function Ceil(x: real): (n: int)
    ensures (n - 1) as real < x <= n as real
  {
    -((-x).Floor)
  }

  /**
   * The face the game computes from a draw, as written: the ceiling of six
   * times the draw. A zero draw gives face 0, which no die has.
   */
  function CeilFace(draw: real): (v: int)
    ensures IsDraw(draw) ==> 0 <= v <= Faces
    ensures IsDraw(draw) ==> (v == 0 <==> draw == 0.0)
  {
    Ceil(draw * Faces as real)
  }

  /** The draw 0 is a legal draw, and the face computed from it is 0. */
  lemma CeilFaceOfZeroDraw()
    ensures IsDraw(0.0) && CeilFace(0.0) == 0 && !(1 <= CeilFace(0.0) <= Faces)
  {
  }

  /**
   * The face a draw is meant to produce: the written face, with the zero
   * draw sent to face 1, so that every draw in [0, 1) gives one of 1 to 6
   * and face v takes the draws in ((v - 1) / 6, v / 6].
   */
  function Face(draw: real): (v: int)
    ensures IsDraw(draw) ==> 1 <= v <= Faces
    ensures 0.0 < draw ==> (v - 1) as real < draw * Faces as real <= v as real
  {
    var c := Ceil(draw * Faces as real);
    if c < 1 then 1 else c
  }

  /** The intended face differs from the written one only on the zero draw. */
  lemma FaceAgreesOffZero(draw: real)
    requires IsDraw(draw)
    ensures Face(draw) == CeilFace(draw) <==> draw != 0.0
  {
  }

  /** A fresh round's dice: values from the draws, nothing held, ids from the generator. */
  function FreshDice(draws: seq<real>, ids: seq<Id>): (r: seq<Die>)
    requires |draws| == DiceCount && |ids| == DiceCount
    ensures |r| == DiceCount
    ensures forall i :: 0 <= i < |r| ==> !r[i].isHeld && r[i].id == ids[i] && r[i].value == Face(draws[i])
    ensures ValidDraws(draws) ==> AllFaces(r)
    ensures Distinct(ids) ==> DistinctIds(r)
  {
    seq(DiceCount, i requires 0 <= i < DiceCount => Die(Face(draws[i]), false, ids[i]))
  }

  /** A held die keeps its face; any other die takes the face of its draw. */
  function RolledDie(d: Die, draw: real): Die {
    if d.isHeld then d else d.(value := Face(draw))
  }

  /** Re-roll every die that is not held, die i using draw i. */
  function Rolled(dice: seq<Die>, draws: seq<real>): (r: seq<Die>)
    requires |draws| == |dice|
    ensures |r| == |dice|
    ensures forall i :: 0 <= i < |dice| ==> r[i].id == dice[i].id && r[i].isHeld == dice[i].isHeld
    ensures forall i :: 0 <= i < |dice| && dice[i].isHeld ==> r[i] == dice[i]
    ensures forall i :: 0 <= i < |dice| && !dice[i].isHeld ==> r[i].value == Face(draws[i])
  {
    if dice == [] then [] else [RolledDie(dice[0], draws[0])] + Rolled(dice[1..], draws[1..])
  }

  /** The clicked die flips its held flag; every other die is untouched. */
  function ToggledDie(d: Die, id: Id): Die {
    if d.id == id then d.(isHeld := !d.isHeld) else d
  }

  /** Flip the held flag of every die whose id is `id`. */
  function Toggled(dice: seq<Die>, id: Id): (r: seq<Die>)
    ensures |r| == |dice|
    ensures forall i :: 0 <= i < |dice| ==> r[i].id == dice[i].id && r[i].value == dice[i].value
    ensures forall i :: 0 <= i < |dice| ==> r[i].isHeld == (if dice[i].id == id then !dice[i].isHeld else dice[i].isHeld)
  {
    if dice == [] then [] else [ToggledDie(dice[0], id)] + Toggled(dice[1..], id)
  }

  /** Every die is held. */
  predicate AllHeld(dice: seq<Die>) {
    forall i :: 0 <= i < |dice| ==> dice[i].isHeld
  }

  /** Every die shows the face of the first die. */
  predicate AllSame(dice: seq<Die>) {
    forall i :: 0 <= i < |dice| ==> dice[i].value == dice[0].value
  }

  /** The win test: all dice held and all showing the same face. */
  predicate IsWinning(dice: seq<Die>) {
    AllHeld(dice) && AllSame(dice)
  }

  /** Rolling keeps every face in range, every id, and the ids distinct. */
  lemma RolledKeepsFacesAndIds(dice: seq<Die>, draws: seq<real>)
    requires |draws| == |dice| && ValidDraws(draws)
    ensures AllFaces(dice) ==> AllFaces(Rolled(dice, draws))
    ensures DistinctIds(dice) ==> DistinctIds(Rolled(dice, draws))
  {
  }

  /** Once every die is held, a roll changes nothing. */
  lemma RollAllHeld(dice: seq<Die>, draws: seq<real>)
    requires |draws| == |dice| && AllHeld(dice)
    ensures Rolled(dice, draws) == dice
  {
  }

  /** Rolling keeps exactly the held dice: a die is unchanged by every roll iff it is held or its draw gives its face. */
  lemma RolledDieUnchanged(dice: seq<Die>, draws: seq<real>, i: int)
    requires |draws| == |dice| && 0 <= i < |dice|
    ensures Rolled(dice, draws)[i] == dice[i] <==> dice[i].isHeld || Face(draws[i]) == dice[i].value
  {
  }

  /** Clicking a die twice restores the dice. */
  lemma ToggleTwice(dice: seq<Die>, id: Id)
    ensures Toggled(Toggled(dice, id), id) == dice
  {
  }

  /** Clicking an id that no die carries changes nothing. */
  lemma ToggleUnknown(dice: seq<Die>, id: Id)
    requires forall i :: 0 <= i < |dice| ==> dice[i].id != id
    ensures Toggled(dice, id) == dice
  {
  }

  /** With distinct ids, clicking die k flips die k and nothing else. */
  lemma ToggleOne(dice: seq<Die>, k: int)
    requires DistinctIds(dice) && 0 <= k < |dice|
    ensures Toggled(dice, dice[k].id) == dice[k := dice[k].(isHeld := !dice[k].isHeld)]
  {
  }

  /** Toggling keeps faces, ids and their distinctness. */
  lemma ToggledKeepsFacesAndIds(dice: seq<Die>, id: Id)
    ensures AllFaces(dice) ==> AllFaces(Toggled(dice, id))
    ensures DistinctIds(dice) ==> DistinctIds(Toggled(dice, id))
  {
  }

  /** A fresh set of dice is never a winning one. */
  lemma FreshDiceNotWinning(draws: seq<real>, ids: seq<Id>)
    requires |draws| == DiceCount && |ids| == DiceCount
    ensures !IsWinning(FreshDice(draws, ids))
  {
    assert !FreshDice(draws, ids)[0].isHeld;
  }

  /** Every die is held and shows face `v`. */
  predicate AllHeldShowing(dice: seq<Die>, v: int) {
    forall i :: 0 <= i < |dice| ==> dice[i].isHeld && dice[i].value == v
  }

  /** The win test holds iff there is one face that every die shows while held. */
  lemma WinningIffOneHeldFace(dice: seq<Die>)
    ensures IsWinning(dice) <==> exists v :: AllHeldShowing(dice, v)
  {
    if IsWinning(dice) {
      var v := if dice == [] then 0 else dice[0].value;
      assert AllHeldShowing(dice, v);
    }
  }
}
