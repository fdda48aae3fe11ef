/**
 * The Bathroom Builder page component. Its React state hooks are the fields
 * of one object; each event handler is a method that updates them in the
 * order the handler's setters run, and the dark-mode effect is the method
 * `ApplyTheme`, run on mount and after every change of `isDarkMode`. The
 * browser's local storage `theme` entry and the `dark` class of the document
 * root are fields too, since the effect writes them.
 */
module BathroomBuilderPage {
  import opened Wrappers
  import Theme
  import opened DoorGame
  import opened Checklist

  class BathroomBuilder {
    var isDarkMode: bool
    /** `localStorage.getItem('theme')`. */
    var savedTheme: Option<string>
    /** Whether `document.documentElement` carries the `dark` class. */
    var rootIsDark: bool

    var doorClicks: int
    var requiredClicks: int
    var isShaking: bool
    var isGameActive: bool

    var gameState: GameState

    /** The door minigame's four hooks as one value. */
    function Door(): DoorState
      reads this
    {
      DoorState(doorClicks, requiredClicks, isShaking, isGameActive)
    }

    /** Between events: the door round invariant holds, and the stored theme
        and the root class agree with the mode. */
    ghost predicate Valid()
      reads this
    {
      && DoorInv(Door())
      && savedTheme == Some(Theme.StoredName(isDarkMode))
      && rootIsDark == isDarkMode
    }

    /** Mounting the page: the hooks take their initial values, the mode is
        chosen from the saved entry and the system preference, and the effect
        then runs once. */
    constructor (saved: Option<string>, systemPrefersDark: bool)
      ensures Valid()
      ensures isDarkMode == Theme.InitialTheme(saved, systemPrefersDark)
      ensures Door() == Initial
      ensures gameState == Cleared
    {
      isDarkMode := Theme.InitialTheme(saved, systemPrefersDark);
      savedTheme := saved;
      rootIsDark := false;
      doorClicks, requiredClicks, isShaking, isGameActive := 0, 0, false, false;
      gameState := Cleared;
      new;
      ApplyTheme();
    }

    /** The dark-mode effect: set or clear the root class and store the mode's name. */
    method ApplyTheme()
      modifies this`savedTheme, this`rootIsDark
      ensures rootIsDark == isDarkMode
      ensures savedTheme == Some(Theme.StoredName(isDarkMode))
    {
      if isDarkMode {
        rootIsDark := true;
        savedTheme := Some(Theme.Dark);
      } else {
        rootIsDark := false;
        savedTheme := Some(Theme.Light);
      }
    }

    /** `toggleDarkMode`, followed by the effect it triggers. */
    method ToggleDarkMode()
      requires Valid()
      modifies this`isDarkMode, this`savedTheme, this`rootIsDark
      ensures Valid()
      ensures isDarkMode == Theme.Toggled(old(isDarkMode))
      ensures savedTheme == Some(Theme.StoredName(isDarkMode))
    {
      isDarkMode := Theme.Toggled(isDarkMode);
      ApplyTheme();
    }

    /** `handleVideoClick`; `random` is the value `Math.random()` returns,
        and the result is the navigation the click emits, if any. */
    method HandleVideoClick(random: real) returns (navigation: Option<string>)
      requires Valid() && IsRandom(random)
      modifies this`doorClicks, this`requiredClicks, this`isShaking, this`isGameActive
      ensures Valid()
      ensures ClickOutcome(Door(), navigation) == VideoClick(old(Door()), random)
    {
      ClickPreservesInv(Door(), random);
      if !isGameActive {
        var clicksNeeded := ClicksNeeded(random);
        requiredClicks := clicksNeeded;
        doorClicks := 0;
        isGameActive := true;
        isShaking := true;
        navigation := None;
      } else {
        isShaking := true;
        var newClicks := doorClicks + 1;
        doorClicks := newClicks;
        navigation := None;
        if newClicks >= requiredClicks {
          isGameActive := false;
          isShaking := false;
          navigation := Some(VideoRoute);
        }
      }
    }

    /** `handleElementClick(element)`. */
    method HandleElementClick(element: Element)
      requires Valid()
      modifies this`gameState
      ensures Valid()
      ensures gameState == MarkDone(old(gameState), element)
      ensures Get(gameState, element)
    {
      gameState := MarkDone(gameState, element);
    }

    /** `resetGame`. */
    method ResetGame()
      requires Valid()
      modifies this`gameState
      ensures Valid()
      ensures gameState == Cleared
      ensures NoneDone(gameState)
    {
      gameState := Cleared;
    }

    /** The percentage the progress line and bar show. */
    function Progress(): (p: int)
      reads this
      ensures 0 <= p <= 100
      ensures p == 100 <==> AllDone(gameState)
    {
      PercentageFullIff(gameState);
      CompletionPercentage(gameState)
    }
  }

  /** Two toggles leave the mode and the stored entry as they were. */
  method ToggleTwiceRestoresTheme(page: BathroomBuilder)
    requires page.Valid()
    modifies page
    ensures page.Valid()
    ensures page.isDarkMode == old(page.isDarkMode) && page.savedTheme == old(page.savedTheme)
    ensures page.Door() == old(page.Door()) && page.gameState == old(page.gameState)
  {
    page.ToggleDarkMode();
    page.ToggleDarkMode();
  }

  /** Reloading the page after any toggles starts in the mode it was left
      in, whatever the system prefers then. */
  method ReloadKeepsTheme(page: BathroomBuilder, systemPrefersDark: bool) returns (reloaded: BathroomBuilder)
    requires page.Valid()
    ensures fresh(reloaded) && reloaded.Valid()
    ensures reloaded.isDarkMode == page.isDarkMode
  {
    Theme.PersistReloadRoundTrip(page.isDarkMode, systemPrefersDark);
    reloaded := new BathroomBuilder(page.savedTheme, systemPrefersDark);
  }
}
