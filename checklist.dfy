/**
 * The accessibility checklist of the Bathroom Builder page: six flags, one
 * per bathroom element, set by clicking the element and cleared together by
 * "Reset Game"; the progress line shows how many are set and the rounded
 * percentage, and a congratulations block appears at 100%.
 */
module Checklist {

  /** The six keys of the `gameState` record, in declaration order. */
  datatype Element =
    | CabinetsRemoved
    | StallsUpgraded
    | GrabBarsAdded
    | SoapDispenserAdded
    | ChangingStationAdded
    | EmergencyButtonAdded

  const AllElements: seq<Element> :=
    [CabinetsRemoved, StallsUpgraded, GrabBarsAdded, SoapDispenserAdded, ChangingStationAdded, EmergencyButtonAdded]

  /** The property name each element has in the record. */
  function Key(e: Element): string
  {
    match e
    case CabinetsRemoved => "cabinetsRemoved"
    case StallsUpgraded => "stallsUpgraded"
    case GrabBarsAdded => "grabBarsAdded"
    case SoapDispenserAdded => "soapDispenserAdded"
    case ChangingStationAdded => "changingStationAdded"
    case EmergencyButtonAdded => "emergencyButtonAdded"
  }

  datatype GameState = GameState(
    cabinetsRemoved: bool,
    stallsUpgraded: bool,
    grabBarsAdded: bool,
    soapDispenserAdded: bool,
    changingStationAdded: bool,
    emergencyButtonAdded: bool)

  /** The record the page starts with and `resetGame` writes back. */
  const Cleared := GameState(false, false, false, false, false, false)

  /** `gameState[element]`. */
  function Get(g: GameState, e: Element): bool
  {
    match e
    case CabinetsRemoved => g.cabinetsRemoved
    case StallsUpgraded => g.stallsUpgraded
    case GrabBarsAdded => g.grabBarsAdded
    case SoapDispenserAdded => g.soapDispenserAdded
    case ChangingStationAdded => g.changingStationAdded
    case EmergencyButtonAdded => g.emergencyButtonAdded
  }

  /** `handleElementClick`: `{...prev, [element]: true}`. */
  function MarkDone(g: GameState, e: Element): (r: GameState)
    ensures Get(r, e)
    ensures forall other :: other != e ==> Get(r, other) == Get(g, other)
  {
    match e
    case CabinetsRemoved => g.(cabinetsRemoved := true)
    case StallsUpgraded => g.(stallsUpgraded := true)
    case GrabBarsAdded => g.(grabBarsAdded := true)
    case SoapDispenserAdded => g.(soapDispenserAdded := true)
    case ChangingStationAdded => g.(changingStationAdded := true)
    case EmergencyButtonAdded => g.(emergencyButtonAdded := true)
  }

  /** `Object.values(gameState)`, in key order. */
  function Values(g: GameState): (vs: seq<bool>)
    ensures |vs| == |AllElements|
    ensures forall i :: 0 <= i < |vs| ==> vs[i] == Get(g, AllElements[i])
  {
    [g.cabinetsRemoved, g.stallsUpgraded, g.grabBarsAdded,
     g.soapDispenserAdded, g.changingStationAdded, g.emergencyButtonAdded]
  }

  /** `.filter(Boolean).length`. */
  function CountTrue(bs: seq<bool>): (n: nat)
    ensures n <= |bs|
  {
    if bs == [] then 0 else (if bs[0] then 1 else 0) + CountTrue(bs[1..])
  }

  lemma {:induction false} CountTrueZeroIff(bs: seq<bool>)
    ensures CountTrue(bs) == 0 <==> forall i :: 0 <= i < |bs| ==> !bs[i]
  {
    if bs != [] {
      CountTrueZeroIff(bs[1..]);
      assert forall i :: 1 <= i < |bs| ==> bs[i] == bs[1..][i - 1];
    }
  }

  lemma {:induction false} CountTrueFullIff(bs: seq<bool>)
    ensures CountTrue(bs) == |bs| <==> forall i :: 0 <= i < |bs| ==> bs[i]
  {
    if bs != [] {
      CountTrueFullIff(bs[1..]);
      assert forall i :: 1 <= i < |bs| ==> bs[i] == bs[1..][i - 1];
    }
  }

  /** Setting one entry to true adds one to the count exactly when it was false. */
  lemma {:induction false} CountTrueSet(bs: seq<bool>, i: nat)
    requires i < |bs|
    ensures CountTrue(bs[i := true]) == CountTrue(bs) + (if bs[i] then 0 else 1)
  {
    if i > 0 {
      CountTrueSet(bs[1..], i - 1);
      assert bs[i := true][1..] == bs[1..][i - 1 := true];
    } else {
      assert bs[i := true][1..] == bs[1..];
    }
  }

  function CompletedTasks(g: GameState): (n: nat)
    ensures n <= TotalTasks(g)
    ensures n == 0 <==> NoneDone(g)
    ensures n == TotalTasks(g) <==> AllDone(g)
  {
    CountTrueZeroIff(Values(g));
    CountTrueFullIff(Values(g));
    assert !NoneDone(g) ==> exists e :: Get(g, e) && Values(g)[Index(e)];
    assert !AllDone(g) ==> exists e :: !Get(g, e) && !Values(g)[Index(e)];
    CountTrue(Values(g))
  }

  /** `Object.keys(gameState).length`. */
  function TotalTasks(g: GameState): (n: nat)
    ensures n == |AllElements| == 6
  {
    |Values(g)|
  }

  /** `Math.round((completed / total) * 100)`. For non-negative operands
      `Math.round` rounds halves up, which is `floor((200 c + t) / (2 t))`. */
  function CompletionPercentage(g: GameState): (p: int)
    ensures 0 <= p <= 100
    ensures p == 0 <==> CompletedTasks(g) == 0
    ensures p == 100 <==> CompletedTasks(g) == TotalTasks(g)
  {
    var c, t := CompletedTasks(g), TotalTasks(g);
    assert t == 6 && c <= 6;
    (200 * c + t) / (2 * t)
  }

  /** The congratulations block is rendered when the percentage is exactly 100. */
  predicate ShowsCongratulations(g: GameState)
  {
    CompletionPercentage(g) == 100
  }

  predicate AllDone(g: GameState)
  {
    forall e :: Get(g, e)
  }

  predicate NoneDone(g: GameState)
  {
    forall e :: !Get(g, e)
  }

  /** The position of each element's key in the record. */
  function Index(e: Element): (i: nat)
    ensures i < |AllElements| && AllElements[i] == e
  {
    match e
    case CabinetsRemoved => 0
    case StallsUpgraded => 1
    case GrabBarsAdded => 2
    case SoapDispenserAdded => 3
    case ChangingStationAdded => 4
    case EmergencyButtonAdded => 5
  }

  /** Six tasks in total; between none and all of them completed. */
  lemma TaskCounts(g: GameState)
    ensures TotalTasks(g) == 6
    ensures 0 <= CompletedTasks(g) <= TotalTasks(g)
  {
  }

  /** The percentage is 0 exactly when no flag is set. */
  lemma {:induction false} PercentageZeroIff(g: GameState)
    ensures CompletionPercentage(g) == 0 <==> NoneDone(g)
  {
    CountTrueZeroIff(Values(g));
    if !NoneDone(g) {
      var e :| Get(g, e);
      assert Values(g)[Index(e)];
    }
  }

  /** The percentage is 100, and the congratulations block shows, exactly
      when all six flags are set. */
  lemma {:induction false} PercentageFullIff(g: GameState)
    ensures CompletionPercentage(g) == 100 <==> AllDone(g)
    ensures ShowsCongratulations(g) <==> AllDone(g)
  {
    CountTrueFullIff(Values(g));
    if !AllDone(g) {
      var e :| !Get(g, e);
      assert !Values(g)[Index(e)];
    }
  }

  /** Marking an element done is idempotent and never clears a flag. */
  lemma MarkDoneIdempotentMonotone(g: GameState, e: Element)
    ensures MarkDone(MarkDone(g, e), e) == MarkDone(g, e)
    ensures forall other :: Get(g, other) ==> Get(MarkDone(g, e), other)
  {
  }

  /** Marking one element done adds one completed task when it was not done
      yet, and none otherwise. */
  lemma {:induction false} MarkDoneCount(g: GameState, e: Element)
    ensures CompletedTasks(MarkDone(g, e)) == CompletedTasks(g) + (if Get(g, e) then 0 else 1)
  {
    ValuesMarkDone(g, e);
    CountTrueSet(Values(g), Index(e));
  }

  /** Marking an element done sets its entry in `Object.values`. */
  lemma ValuesMarkDone(g: GameState, e: Element)
    ensures Values(MarkDone(g, e)) == Values(g)[Index(e) := true]
  {
    match e
    case CabinetsRemoved =>
    case StallsUpgraded =>
    case GrabBarsAdded =>
    case SoapDispenserAdded =>
    case ChangingStationAdded =>
    case EmergencyButtonAdded =>
  }

  /** Reset clears all six flags, so nothing is complete. */
  lemma ResetClearsAll()
    ensures NoneDone(Cleared)
    ensures CompletedTasks(Cleared) == 0 && CompletionPercentage(Cleared) == 0
  {
  }

  /** The record after a sequence of element clicks. */
  function MarkAll(g: GameState, clicks: seq<Element>): GameState
    decreases |clicks|
  {
    if clicks == [] then g else MarkAll(MarkDone(g, clicks[0]), clicks[1..])
  }

  /** After any sequence of clicks a flag is set exactly when it was set
      before or its element was clicked. */
  lemma {:induction false} MarkAllFlags(g: GameState, clicks: seq<Element>, e: Element)
    ensures Get(MarkAll(g, clicks), e) <==> Get(g, e) || e in clicks
    decreases |clicks|
  {
    if clicks != [] {
      MarkAllFlags(MarkDone(g, clicks[0]), clicks[1..], e);
      assert e in clicks <==> e == clicks[0] || e in clicks[1..];
    }
  }
}
