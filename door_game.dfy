/**
 * The door minigame guarding the "Video" link of the Bathroom Builder page.
 *
 * The first click on the door starts a round with a random number (1 to 5)
 * of further clicks required; each further click counts one, and the click
 * that reaches the requirement ends the round and navigates to `/video`.
 * The four pieces of React state are the fields of `DoorState`; the random
 * number is an input in [0, 1), as `Math.random()` returns.
 */
module DoorGame {
  import opened Wrappers

  const VideoRoute := "/video"

  datatype DoorState = DoorState(doorClicks: int, requiredClicks: int, isShaking: bool, isGameActive: bool)

  /** What one click on the door does: the state it leaves and the navigation it emits. */
  datatype ClickOutcome = ClickOutcome(next: DoorState, navigation: Option<string>)

  /** The state the hooks start from: no clicks, nothing required, still, inactive. */
  const Initial := DoorState(0, 0, false, false)

  /** A value `Math.random()` can return. */
  predicate IsRandom(random: real)
  {
    0.0 <= random < 1.0
  }

  predicate AllRandom(randoms: seq<real>)
  {
    forall i :: 0 <= i < |randoms| ==> IsRandom(randoms[i])
  }

  /** `Math.floor(Math.random() * 5) + 1`. */
  function ClicksNeeded(random: real): (n: int)
    requires IsRandom(random)
    ensures 1 <= n <= 5
  {
    (random * 5.0).Floor + 1
  }

  /** `handleVideoClick`, with the state updates applied in order. */
  function VideoClick(s: DoorState, random: real): (o: ClickOutcome)
    requires IsRandom(random)
    ensures DoorInv(s) ==> DoorInv(o.next)
    ensures o.navigation != None ==> s.isGameActive && o.navigation == Some(VideoRoute) && !o.next.isGameActive
    ensures !s.isGameActive ==> o.next.isGameActive && o.next.doorClicks == 0 && 1 <= o.next.requiredClicks <= 5
  {
    if !s.isGameActive then
      ClickOutcome(DoorState(0, ClicksNeeded(random), true, true), None)
    else
      var newClicks := s.doorClicks + 1;
      if newClicks >= s.requiredClicks then
        ClickOutcome(DoorState(newClicks, s.requiredClicks, false, false), Some(VideoRoute))
      else
        ClickOutcome(DoorState(newClicks, s.requiredClicks, true, true), None)
  }

  /** While a round is on, the count stays below the requirement, which is at most 5. */
  predicate DoorInv(s: DoorState)
  {
    s.isGameActive ==> 0 <= s.doorClicks < s.requiredClicks <= 5
  }

  /** The clicks still needed, as the prompt shows them. */
  function Remaining(s: DoorState): int
  {
    s.requiredClicks - s.doorClicks
  }

  /** A number as JavaScript's template interpolation writes an integer. */
  function DecimalString(n: int): (r: string)
    ensures r != []
    decreases if n < 0 then 1 - n else n
  {
    if n < 0 then "-" + DecimalString(-n)
    else if n < 10 then [('0' as int + n) as char]
    else DecimalString(n / 10) + DecimalString(n % 10)
  }

  /** The prompt shown under the header while a round is on, and nothing otherwise. */
  function DoorPrompt(s: DoorState): (prompt: Option<string>)
    ensures prompt != None <==> s.isGameActive
  {
    if s.isGameActive then
      var rem := Remaining(s);
      Some("Click the door " + DecimalString(rem) + " more time" + (if rem != 1 then "s" else "") + "!")
    else None
  }

  lemma InitialSatisfiesInv()
    ensures DoorInv(Initial) && !Initial.isGameActive
  {
  }

  /** A click while no round is on starts one: 1 to 5 clicks required, none
      made, shaking, and no navigation. */
  lemma ActivationClick(s: DoorState, random: real)
    requires IsRandom(random) && !s.isGameActive
    ensures var o := VideoClick(s, random);
      && o.next.isGameActive && o.next.isShaking
      && o.next.doorClicks == 0
      && 1 <= o.next.requiredClicks <= 5
      && o.next.requiredClicks == ClicksNeeded(random)
      && o.navigation == None
  {
  }

  /** A click during a round counts exactly one; it navigates to `/video`
      exactly when the count reaches the requirement, and that click ends the
      round and stops the shaking. */
  lemma CountingClick(s: DoorState, random: real)
    requires IsRandom(random) && s.isGameActive && DoorInv(s)
    ensures var o := VideoClick(s, random);
      && o.next.doorClicks == s.doorClicks + 1
      && o.next.requiredClicks == s.requiredClicks
      && (o.navigation != None <==> o.next.doorClicks == s.requiredClicks)
      && (o.navigation != None ==> o.navigation == Some(VideoRoute) && !o.next.isGameActive && !o.next.isShaking)
      && (o.navigation == None ==> o.next.isGameActive && o.next.isShaking)
  {
  }

  /** Every click keeps the round invariant. */
  lemma ClickPreservesInv(s: DoorState, random: real)
    requires IsRandom(random) && DoorInv(s)
    ensures DoorInv(VideoClick(s, random).next)
  {
  }

  /** While a round is on, the prompt asks for at least one more click, and
      pluralises "time" exactly when that number is not 1. */
  lemma PromptDuringRound(s: DoorState)
    requires DoorInv(s) && s.isGameActive
    ensures 1 <= Remaining(s) <= 5
    ensures DoorPrompt(s) == Some("Click the door " + [('0' as int + Remaining(s)) as char] + " more time"
                                  + (if Remaining(s) == 1 then "" else "s") + "!")
  {
  }

  /** The state after a sequence of clicks, one random number per click. */
  function After(s: DoorState, randoms: seq<real>): DoorState
    requires AllRandom(randoms)
    decreases |randoms|
  {
    if randoms == [] then s else After(VideoClick(s, randoms[0]).next, randoms[1..])
  }

  /** For each click of a sequence, whether it navigated. */
  function Navigations(s: DoorState, randoms: seq<real>): (r: seq<bool>)
    requires AllRandom(randoms)
    ensures |r| == |randoms|
    decreases |randoms|
  {
    if randoms == [] then []
    else
      var o := VideoClick(s, randoms[0]);
      [o.navigation != None] + Navigations(o.next, randoms[1..])
  }

  /** Navigation only on the last of `n` clicks. */
  function OnlyLast(n: nat): seq<bool>
  {
    seq(n, i => i == n - 1)
  }

  /** During a round, exactly the remaining number of clicks leads to one
      navigation, on the last of them, and ends the round. */
  lemma {:induction false} RoundNavigatesOnceAtEnd(s: DoorState, randoms: seq<real>)
    requires DoorInv(s) && s.isGameActive && AllRandom(randoms)
    requires |randoms| == Remaining(s)
    ensures Navigations(s, randoms) == OnlyLast(|randoms|)
    ensures !After(s, randoms).isGameActive
    decreases |randoms|
  {
    var o := VideoClick(s, randoms[0]);
    if |randoms| == 1 {
      assert o.navigation != None;
      assert After(o.next, randoms[1..]) == o.next;
    } else {
      assert o.navigation == None;
      RoundNavigatesOnceAtEnd(o.next, randoms[1..]);
      assert Navigations(s, randoms) == [false] + OnlyLast(|randoms| - 1);
    }
  }

  /** A whole cycle from no round: the activating click plus exactly
      `ClicksNeeded` further clicks navigate once, on the last click, and
      leave no round on. */
  lemma {:induction false} CycleNavigatesOnce(s: DoorState, randoms: seq<real>)
    requires !s.isGameActive && AllRandom(randoms) && randoms != []
    requires |randoms| == 1 + ClicksNeeded(randoms[0])
    ensures Navigations(s, randoms) == OnlyLast(|randoms|)
    ensures !After(s, randoms).isGameActive
  {
    var o := VideoClick(s, randoms[0]);
    RoundNavigatesOnceAtEnd(o.next, randoms[1..]);
    assert Navigations(s, randoms) == [false] + OnlyLast(|randoms| - 1);
  }
}
