# W&M restroom finder: page logic in Dafny

This project models the logic inside two React page components of the W&M
restroom-finder website. It does not model their markup.

- **Bathroom Builder page** (`website/src/BathroomBuilder.jsx`):
  - the light/dark theme chosen from the saved preference and the system preference, the toggle, and the effect that persists the choice;
  - the door minigame that guards the "Video" link;
  - the six-item accessibility checklist, with its progress count, its percentage and the congratulations block;
  - the formatter that turns a checklist key such as `cabinetsRemoved` into the card heading `Cabinets Removed`.
- **Map page** (`website/src/App.jsx`):
  - the fixed table of 18 restroom locations;
  - the markers, which appear only once the map script has loaded;
  - the selection set by marker clicks;
  - the details panel for the selected location.

Modules, one per concern:

- `Theme`, `DoorGame`, `Checklist` and `Labels` hold the page's pure logic as functions and lemmas.
- `BathroomBuilderPage.BathroomBuilder` is the component. It is a class whose fields are its state hooks, the local-storage `theme` entry and the root element's `dark` class. Each event handler is a method, and each method's postcondition ties the new fields to the pure functions.
- `RestroomMap` holds the location table, the marker list and the details panel. It also holds a pure step function over map events with lemmas about whole event sequences, and the component class `App`.
- `Wrappers` holds `Option`, used for JavaScript `null`.

Inputs that the browser provides are parameters:

- `localStorage.getItem('theme')` is an `Option<string>` (absent means `null`);
- the `prefers-color-scheme: dark` media query is a boolean;
- `Math.random()` is a real in [0, 1).

Navigation to `/video` is the value that `HandleVideoClick` returns.

`Math.round((completed / total) * 100)` is modelled as `(200 * completed + total) / (2 * total)`. For non-negative operands that is the same round-half-up value.

Coordinates are whole millionths of a degree. Every literal in the table has at most six decimals, so they are exact. Nothing computes with them.

When nothing is selected the page renders no details block (`website/src/App.jsx:129-134`); `DetailsPanel` returns `None`.

## Model

| member | source | states |
|---|---|---|
| `Theme.InitialTheme` | website/src/BathroomBuilder.jsx:5-16 | a saved `'dark'` gives dark; a saved `'light'` or any other non-empty value gives light; a missing or empty value follows the system preference |
| `Theme.InitialThemeIsDarkIff` | website/src/BathroomBuilder.jsx:5-16 | dark exactly when the saved value is `'dark'`, or it is `null` or empty and the system prefers dark |
| `Theme.OtherSavedValueIsLight` | website/src/BathroomBuilder.jsx:5-16 | any other non-empty saved value (e.g. `'light'`) gives light, whatever the system prefers |
| `Theme.StoredName` | website/src/BathroomBuilder.jsx:27-33 | the effect stores `'dark'` or `'light'`, never an empty value |
| `Theme.Toggled` | website/src/BathroomBuilder.jsx:56-58 | the toggle always changes the mode |
| `Theme.ToggleTwice` | website/src/BathroomBuilder.jsx:56-58 | toggling changes the mode, and toggling twice gives it back |
| `Theme.PersistReloadRoundTrip` | website/src/BathroomBuilder.jsx:5-34 | reading back the stored name yields the mode that was stored, for any system preference |
| `DoorGame.ClicksNeeded` | website/src/BathroomBuilder.jsx:70 | `floor(random * 5) + 1` lies in 1..5 for every `random` in [0, 1) |
| `DoorGame.VideoClick` | website/src/BathroomBuilder.jsx:66-89 | a click keeps the round invariant; it navigates only to `/video`, only during a round, and then ends the round; with no round on it starts one at 0 clicks with 1..5 required |
| `DoorGame.InitialSatisfiesInv` | website/src/BathroomBuilder.jsx:61-64 | the initial hooks hold no round and satisfy the round invariant |
| `DoorGame.ActivationClick` | website/src/BathroomBuilder.jsx:69-76 | a click with no round on starts one: 1..5 required, 0 clicks, shaking, no navigation |
| `DoorGame.CountingClick` | website/src/BathroomBuilder.jsx:77-89 | a click during a round adds exactly 1; it navigates to `/video` exactly when the count reaches the requirement, and then ends the round and the shaking |
| `DoorGame.ClickPreservesInv` | website/src/BathroomBuilder.jsx:66-89 | every click keeps `active ==> 0 <= clicks < required <= 5` |
| `DoorGame.PromptDuringRound` | website/src/BathroomBuilder.jsx:171-175 | during a round the prompt asks for 1..5 more clicks, with "times" exactly when that number is not 1 |
| `DoorGame.DoorPrompt` | website/src/BathroomBuilder.jsx:171-175 | the prompt is shown exactly while a round is on |
| `DoorGame.RoundNavigatesOnceAtEnd` | website/src/BathroomBuilder.jsx:77-89 | during a round, exactly the remaining number of clicks navigates once, on the last click, and ends the round |
| `DoorGame.CycleNavigatesOnce` | website/src/BathroomBuilder.jsx:66-89 | from no round, the activating click plus exactly `required` clicks navigate once, on the last click |
| `Checklist.MarkDone` | website/src/BathroomBuilder.jsx:108-113 | marking an element sets its flag and leaves the other five unchanged |
| `Checklist.Values` | website/src/BathroomBuilder.jsx:93-103 | the record's values, one per key in declaration order |
| `Checklist.ValuesMarkDone` | website/src/BathroomBuilder.jsx:93-113 | marking an element sets exactly its entry among the record's values |
| `Checklist.CountTrue` | website/src/BathroomBuilder.jsx:103 | the number of set flags is at most the number of flags |
| `Checklist.CountTrueZeroIff` | website/src/BathroomBuilder.jsx:103 | the count is 0 exactly when no flag is set |
| `Checklist.CountTrueFullIff` | website/src/BathroomBuilder.jsx:103 | the count equals the length exactly when every flag is set |
| `Checklist.CountTrueSet` | website/src/BathroomBuilder.jsx:103 | setting one flag adds 1 to the count exactly when it was clear |
| `Checklist.CompletedTasks` | website/src/BathroomBuilder.jsx:103 | the completed count is at most the total; it is 0 exactly when no flag is set, and equals the total exactly when every flag is set |
| `Checklist.TotalTasks` | website/src/BathroomBuilder.jsx:104 | the total is the number of record keys, 6 |
| `Checklist.TaskCounts` | website/src/BathroomBuilder.jsx:103-104 | `totalTasks` is 6 and `0 <= completedTasks <= totalTasks` |
| `Checklist.CompletionPercentage` | website/src/BathroomBuilder.jsx:105 | the percentage is in [0, 100]; it is 0 exactly when nothing is done and 100 exactly when everything is done |
| `Checklist.PercentageZeroIff` | website/src/BathroomBuilder.jsx:102-105 | the percentage is 0 exactly when no flag is set |
| `Checklist.PercentageFullIff` | website/src/BathroomBuilder.jsx:356-361 | the percentage is 100, and the congratulations block shows, exactly when all six flags are set |
| `Checklist.MarkDoneIdempotentMonotone` | website/src/BathroomBuilder.jsx:108-113 | marking twice is marking once, and marking never clears a flag |
| `Checklist.MarkDoneCount` | website/src/BathroomBuilder.jsx:103-113 | marking adds one completed task when the element was not done, and none otherwise |
| `Checklist.ResetClearsAll` | website/src/BathroomBuilder.jsx:116-125 | after a reset no flag is set, and the count and percentage are 0 |
| `Checklist.MarkAllFlags` | website/src/BathroomBuilder.jsx:108-113 | after any sequence of clicks, a flag is set exactly when it was set before or its element was clicked |
| `Labels.SpaceBeforeCapitals` | website/src/BathroomBuilder.jsx:346 | the first replace adds one character per capital letter; its result starts with the key's first character or with the inserted space |
| `Labels.SpacedCapitalsFollowSpaces` | website/src/BathroomBuilder.jsx:346 | every capital in the result follows a space, and the result never starts with a capital |
| `Labels.SpaceBeforeCapitalsConcat` | website/src/BathroomBuilder.jsx:346 | the global replace works piecewise over a concatenation |
| `Labels.RemoveInsertedSpaces` | website/src/BathroomBuilder.jsx:346 | dropping the spaces gives back a key that held none |
| `Labels.CapitalizeFirst` | website/src/BathroomBuilder.jsx:346 | the second replace upper-cases the first character and keeps the rest and the length |
| `Labels.Label` | website/src/BathroomBuilder.jsx:346 | heading length = key length + number of capitals |
| `Labels.LabelOfCamelKey` | website/src/BathroomBuilder.jsx:346 | a camelCase key's heading starts with its first letter upper-cased, has a space before every capital, and reads back to the key |
| `Labels.TwoWords` | website/src/BathroomBuilder.jsx:346 | a key made of a lower-case word and one capitalised word is headed by the first word capitalised, a space, and the second word |
| `Labels.ThreeWords` | website/src/BathroomBuilder.jsx:346 | a key made of a lower-case word and two capitalised words is headed by the first word capitalised and the words separated by single spaces |
| `Labels.CabinetsRemovedHeading` | website/src/BathroomBuilder.jsx:346 | the record key `cabinetsRemoved` is headed `Cabinets Removed` |
| `Labels.StallsUpgradedHeading` | website/src/BathroomBuilder.jsx:346 | the record key `stallsUpgraded` is headed `Stalls Upgraded` |
| `Labels.GrabBarsAddedHeading` | website/src/BathroomBuilder.jsx:346 | the record key `grabBarsAdded` is headed `Grab Bars Added` |
| `Labels.SoapDispenserAddedHeading` | website/src/BathroomBuilder.jsx:346 | the record key `soapDispenserAdded` is headed `Soap Dispenser Added` |
| `Labels.ChangingStationAddedHeading` | website/src/BathroomBuilder.jsx:346 | the record key `changingStationAdded` is headed `Changing Station Added` |
| `Labels.EmergencyButtonAddedHeading` | website/src/BathroomBuilder.jsx:346 | the record key `emergencyButtonAdded` is headed `Emergency Button Added` |
| `Labels.KeysAreCamel` | website/src/BathroomBuilder.jsx:93-100 | every record key starts with a lower-case letter and holds no space, so `LabelOfCamelKey` applies to it |
| `Labels.KeyHeading` | website/src/BathroomBuilder.jsx:346 | each card heading is its record key formatted: `Cabinets Removed`, `Stalls Upgraded`, `Grab Bars Added`, `Soap Dispenser Added`, `Changing Station Added`, `Emergency Button Added` |
| `BathroomBuilderPage.BathroomBuilder.constructor` | website/src/BathroomBuilder.jsx:18-34 | on mount, the mode comes from `getInitialTheme`, the door hooks and the checklist start cleared, and the effect stores the mode |
| `BathroomBuilderPage.BathroomBuilder.ApplyTheme` | website/src/BathroomBuilder.jsx:25-34 | the effect sets the root's `dark` class to match the mode and stores the mode's name |
| `BathroomBuilderPage.BathroomBuilder.ToggleDarkMode` | website/src/BathroomBuilder.jsx:56-58 | the mode is negated and the stored entry follows it |
| `BathroomBuilderPage.BathroomBuilder.HandleVideoClick` | website/src/BathroomBuilder.jsx:66-90 | the four door hooks and the emitted navigation are those of `VideoClick`, and the round invariant is kept |
| `BathroomBuilderPage.BathroomBuilder.HandleElementClick` | website/src/BathroomBuilder.jsx:108-113 | the record becomes `MarkDone` of the previous one, with the clicked flag set; the component invariant (round invariant, stored theme, root class) is kept |
| `BathroomBuilderPage.BathroomBuilder.ResetGame` | website/src/BathroomBuilder.jsx:116-125 | all six flags are cleared; the component invariant is kept |
| `BathroomBuilderPage.BathroomBuilder.Progress` | website/src/BathroomBuilder.jsx:102-105 | the shown percentage is in [0, 100] and is 100 exactly when all flags are set |
| `BathroomBuilderPage.ToggleTwiceRestoresTheme` | website/src/BathroomBuilder.jsx:56-58 | two toggles restore the mode and the stored entry and touch nothing else |
| `BathroomBuilderPage.ReloadKeepsTheme` | website/src/BathroomBuilder.jsx:5-34 | a page mounted from the stored entry starts in the mode the previous page was left in |
| `RestroomMap.TableShape` | website/src/App.jsx:19-38 | the table has 18 entries, and entry i has id i + 1 |
| `RestroomMap.IdsUnique` | website/src/App.jsx:19-38 | no two locations share an id |
| `RestroomMap.MarkerList` | website/src/App.jsx:98-112 | one marker per location, in order, with the location's id as key, its position, and the location as click target |
| `RestroomMap.Markers` | website/src/App.jsx:97-115 | no marker before the script has loaded; once loaded, one per location |
| `RestroomMap.MarkerKeysInOrder` | website/src/App.jsx:98-112 | markers of a table with ids 1, 2, ... have those keys, so no two share a key |
| `RestroomMap.LoadedMarkerCount` | website/src/App.jsx:97-115 | once loaded, there are exactly 18 markers |
| `RestroomMap.LoadedMarkerKeys` | website/src/App.jsx:97-115 | in either load state, the markers are keyed 1, 2, ... in order, with no key repeated |
| `RestroomMap.LoadedMarkerTargets` | website/src/App.jsx:97-115 | in either load state, marker i sits at location i's position and selects location i |
| `RestroomMap.Step` | website/src/App.jsx:44-74 | a marker click sets the selection to its location and any other event keeps it; the map is loaded after a step exactly when it was before or the script has just loaded |
| `RestroomMap.ClickEffects` | website/src/App.jsx:44-51 | a marker click selects its location whatever was selected; a map click changes nothing |
| `RestroomMap.LastClickWins` | website/src/App.jsx:49-51 | after any event sequence, the selection is the last clicked marker's location, or the earlier selection if no marker was clicked |
| `RestroomMap.LoadedIff` | website/src/App.jsx:74 | after any event sequence, the map is loaded exactly when it was before or the load callback fired |
| `RestroomMap.NoMarkersBeforeLoad` | website/src/App.jsx:97-115 | starting from the first render, no marker is shown until the load callback fires |
| `RestroomMap.DetailsPanel` | website/src/App.jsx:129-134 | a panel exists exactly when a location is selected, and its heading is the location's name |
| `RestroomMap.PanelShownIffSelected` | website/src/App.jsx:129-134 | the details panel appears exactly when a location is selected, headed with its name |
| `RestroomMap.ClickedMarkerShowsName` | website/src/App.jsx:104-134 | for each of the 18 markers, clicking marker i shows location i's name in the panel |
| `RestroomMap.ClickTwoMarkers` | website/src/App.jsx:41-134 | an example session: load the script, click two markers, then the map; the panel shows the second location's name |
| `RestroomMap.App.constructor` | website/src/App.jsx:41-42 | initially nothing is selected and the map is not loaded |
| `RestroomMap.App.OnLoad` | website/src/App.jsx:74 | the load callback sets the loaded flag and nothing else |
| `RestroomMap.App.HandleMarkerClick` | website/src/App.jsx:49-51 | the selection becomes the clicked location |
| `RestroomMap.App.HandleMapClick` | website/src/App.jsx:44-47 | a click on the map changes no state |

## Left out

- Markup, CSS classes, icons, tooltips text, header and footer links: static presentation.
- `website/src/VideoPage.jsx`, `bathroom-finder/src/App.jsx`, `website/tailwind.config.js`: static markup and configuration with no state.
- The Google Maps library: it is reduced to the load callback, marker clicks and map clicks. Map options, icon sizing, the map centre and zoom, and the `onError` logging are not modelled.
- Console logging in `App.jsx` (debug logs, `handleMapClick`'s log, and the geolocation button at `website/src/App.jsx:136-149`): these only write to the console and change no state.
- The 500 ms `setTimeout` that stops the door shaking, and the injection and removal of the shake keyframes: timing and DOM side effects. The model keeps `isShaking` as the handler leaves it.
- React batching, and two clicks handled against the same stale render: each handler is modelled as seeing the state left by the previous one.
- `DoorGame.ClicksNeeded`: `Math.random()` is a real in [0, 1), not a double, so floating-point rounding of `random * 5` is not modelled.
- `Checklist.CompletionPercentage`: the floating-point division is replaced by exact integer round-half-up. With six tasks no value falls on a tie.
- `Checklist.MarkDone`: the handler accepts any string key, but the page only ever passes the six literal keys, so the model takes one of six elements. A new key would have changed `totalTasks`.
- `Labels.CapitalizeFirst`: `toUpperCase` is modelled for ASCII letters only. The record keys are ASCII, and upper-casing some non-ASCII characters (e.g. `ß`) changes the length.
