/**
 * The heading of each checklist card is the record key turned into words:
 * `key.replace(/([A-Z])/g, ' $1').replace(/^./, str => str.toUpperCase())`,
 * so `cabinetsRemoved` becomes `Cabinets Removed`.
 */
module Labels {
  import opened Checklist

  /** `[A-Z]`: the regular expression's class is ASCII only. */
  predicate IsCapital(c: char)
  {
    'A' <= c <= 'Z'
  }

  predicate IsSmall(c: char)
  {
    'a' <= c <= 'z'
  }

  /** `toUpperCase` on one ASCII character. */
  function ToUpper(c: char): char
  {
    if IsSmall(c) then (c as int - 32) as char else c
  }

  function ToLower(c: char): char
  {
    if IsCapital(c) then (c as int + 32) as char else c
  }

  function CountCapitals(s: string): nat
  {
    if s == [] then 0 else (if IsCapital(s[0]) then 1 else 0) + CountCapitals(s[1..])
  }

  /** `s` with every `' '` dropped. */
  function RemoveSpaces(s: string): string
  {
    if s == [] then [] else (if s[0] == ' ' then [] else [s[0]]) + RemoveSpaces(s[1..])
  }

  /** `.replace(/([A-Z])/g, ' $1')`: a space before every capital letter. */
  function SpaceBeforeCapitals(s: string): (r: string)
    ensures |r| == |s| + CountCapitals(s)
    ensures s != [] && !IsCapital(s[0]) ==> r != [] && r[0] == s[0]
    ensures s != [] && IsCapital(s[0]) ==> r != [] && r[0] == ' '
  {
    if s == [] then []
    else (if IsCapital(s[0]) then [' ', s[0]] else [s[0]]) + SpaceBeforeCapitals(s[1..])
  }

  /** Every capital letter of the result follows a space. */
  predicate CapitalsFollowSpaces(r: string)
  {
    forall i {:trigger r[i]} :: 0 < i < |r| ==> IsCapital(r[i]) ==> r[i - 1] == ' '
  }

  lemma {:induction false} SpacedCapitalsFollowSpaces(s: string)
    ensures CapitalsFollowSpaces(SpaceBeforeCapitals(s))
    ensures SpaceBeforeCapitals(s) != [] ==> !IsCapital(SpaceBeforeCapitals(s)[0])
  {
    if s != [] {
      SpacedCapitalsFollowSpaces(s[1..]);
      var rest := SpaceBeforeCapitals(s[1..]);
      var piece := if IsCapital(s[0]) then [' ', s[0]] else [s[0]];
      var r := piece + rest;
      forall i | 0 < i < |r| && IsCapital(r[i])
        ensures r[i - 1] == ' '
      {
        if i < |piece| {
          assert r[i] == s[0];
        } else {
          assert r[i] == rest[i - |piece|];
          assert i > |piece| ==> r[i - 1] == rest[i - 1 - |piece|];
        }
      }
    }
  }

  /** `.replace(/^./, str => str.toUpperCase())`: the first character
      upper-cased, an empty string left alone. */
  function CapitalizeFirst(s: string): (r: string)
    ensures |r| == |s|
    ensures s != [] ==> r[0] == ToUpper(s[0]) && r[1..] == s[1..]
  {
    if s == [] then [] else [ToUpper(s[0])] + s[1..]
  }

  /** The card heading for a record key. */
  function Label(key: string): (r: string)
    ensures |r| == |key| + CountCapitals(key)
  {
    CapitalizeFirst(SpaceBeforeCapitals(key))
  }

  /** A camelCase key: starts with a small letter and holds no space. */
  predicate IsCamelKey(key: string)
  {
    key != [] && IsSmall(key[0]) && forall i :: 0 <= i < |key| ==> key[i] != ' '
  }

  /** Back from a heading to the key: lower-case the first character and drop the spaces. */
  function Unlabel(heading: string): string
  {
    if heading == [] then [] else [ToLower(heading[0])] + RemoveSpaces(heading[1..])
  }

  /** Dropping the inserted spaces gives back a key that held none. */
  lemma {:induction false} RemoveInsertedSpaces(s: string)
    requires forall i :: 0 <= i < |s| ==> s[i] != ' '
    ensures RemoveSpaces(SpaceBeforeCapitals(s)) == s
  {
    if s != [] {
      RemoveInsertedSpaces(s[1..]);
      var rest := SpaceBeforeCapitals(s[1..]);
      if IsCapital(s[0]) {
        assert SpaceBeforeCapitals(s) == [' ', s[0]] + rest;
        assert ([' ', s[0]] + rest)[1..] == [s[0]] + rest;
        assert ([s[0]] + rest)[1..] == rest;
      } else {
        assert SpaceBeforeCapitals(s) == [s[0]] + rest;
        assert ([s[0]] + rest)[1..] == rest;
      }
    }
  }

  /** The heading of a camelCase key starts with its first letter upper-cased,
      every capital in it follows a space, and the key can be read back from it. */
  lemma {:induction false} LabelOfCamelKey(key: string)
    requires IsCamelKey(key)
    ensures var r := Label(key);
      && r[0] == ToUpper(key[0]) && IsCapital(r[0])
      && CapitalsFollowSpaces(r)
      && Unlabel(r) == key
  {
    var spaced := SpaceBeforeCapitals(key);
    RemoveInsertedSpaces(key);
    SpacedCapitalsFollowSpaces(key);
    assert spaced == [key[0]] + SpaceBeforeCapitals(key[1..]);
    assert RemoveSpaces(spaced) == [key[0]] + RemoveSpaces(spaced[1..]);
  }

  lemma {:induction false} SpaceBeforeCapitalsConcat(a: string, b: string)
    ensures SpaceBeforeCapitals(a + b) == SpaceBeforeCapitals(a) + SpaceBeforeCapitals(b)
  {
    if a == [] {
      assert a + b == b;
    } else {
      var ab := a + b;
      assert ab[0] == a[0] && ab[1..] == a[1..] + b;
      var rest := SpaceBeforeCapitals(a[1..] + b);
      assert rest == SpaceBeforeCapitals(a[1..]) + SpaceBeforeCapitals(b) by {
        SpaceBeforeCapitalsConcat(a[1..], b);
      }
      if IsCapital(a[0]) {
        assert SpaceBeforeCapitals(ab) == [' ', a[0]] + rest;
      } else {
        assert SpaceBeforeCapitals(ab) == [a[0]] + rest;
      }
    }
  }

  /** A word without capitals is left as it is. */
  lemma {:induction false} SmallWordUnchanged(w: string)
    requires forall i :: 0 <= i < |w| ==> !IsCapital(w[i])
    ensures SpaceBeforeCapitals(w) == w
  {
    if w != [] {
      SmallWordUnchanged(w[1..]);
    }
  }

  /** A word that starts with its only capital gets one space in front. */
  lemma CapitalWordSpaced(w: string)
    requires w != [] && IsCapital(w[0])
    requires forall i :: 1 <= i < |w| ==> !IsCapital(w[i])
    ensures SpaceBeforeCapitals(w) == " " + w
  {
    SmallWordUnchanged(w[1..]);
  }

  /** Appending a capitalised word appends a space and the word. */
  lemma AppendCapitalWord(x: string, w: string)
    requires w != [] && IsCapital(w[0])
    requires forall i :: 1 <= i < |w| ==> !IsCapital(w[i])
    ensures SpaceBeforeCapitals(x + w) == SpaceBeforeCapitals(x) + " " + w
  {
    SpaceBeforeCapitalsConcat(x, w);
    CapitalWordSpaced(w);
    var sx := SpaceBeforeCapitals(x);
    assert sx + " " + w == sx + (" " + w);
  }

  /** A small word followed by a capitalised word gets one space between them. */
  lemma SmallThenCapitalised(first: string, second: string)
    requires forall i :: 0 <= i < |first| ==> !IsCapital(first[i])
    requires second != [] && IsCapital(second[0])
    requires forall i :: 1 <= i < |second| ==> !IsCapital(second[i])
    ensures SpaceBeforeCapitals(first + second) == first + " " + second
  {
    AppendCapitalWord(first, second);
    SmallWordUnchanged(first);
  }

  /** Upper-casing the first character only touches the first piece. */
  lemma CapitalizeFirstAppend(a: string, b: string)
    requires a != []
    ensures CapitalizeFirst(a + b) == CapitalizeFirst(a) + b
  {
    assert (a + b)[0] == a[0];
    assert (a + b)[1..] == a[1..] + b;
  }

  /** The heading of a camelCase key made of a small word and two capitalised
      words: the small word capitalised, then the other two, space-separated. */
  lemma ThreeWords(key: string, first: string, second: string, third: string, word: string, heading: string)
    requires key == first + second + third
    requires first != [] && forall i :: 0 <= i < |first| ==> !IsCapital(first[i])
    requires second != [] && IsCapital(second[0])
    requires forall i :: 1 <= i < |second| ==> !IsCapital(second[i])
    requires third != [] && IsCapital(third[0])
    requires forall i :: 1 <= i < |third| ==> !IsCapital(third[i])
    requires word == [ToUpper(first[0])] + first[1..]
    requires heading == word + " " + second + " " + third
    ensures Label(key) == heading
  {
    SmallThenCapitalised(first, second);
    AppendCapitalWord(first + second, third);
    CapitalizeFirstAppend(first + " " + second + " ", third);
    CapitalizeFirstAppend(first + " " + second, " ");
    CapitalizeFirstAppend(first + " ", second);
    CapitalizeFirstAppend(first, " ");
  }

  /** The heading of a camelCase key made of a small word and one capitalised word. */
  lemma TwoWords(key: string, first: string, second: string, word: string, heading: string)
    requires key == first + second
    requires first != [] && forall i :: 0 <= i < |first| ==> !IsCapital(first[i])
    requires second != [] && IsCapital(second[0])
    requires forall i :: 1 <= i < |second| ==> !IsCapital(second[i])
    requires word == [ToUpper(first[0])] + first[1..]
    requires heading == word + " " + second
    ensures Label(key) == heading
  {
    SmallThenCapitalised(first, second);
    CapitalizeFirstAppend(first + " ", second);
    CapitalizeFirstAppend(first, " ");
  }

  /* Each record key is camelCase, one lemma per key. */

  lemma CabinetsRemovedIsCamel()
    ensures IsCamelKey(Key(CabinetsRemoved))
  {
  }

  lemma StallsUpgradedIsCamel()
    ensures IsCamelKey(Key(StallsUpgraded))
  {
  }

  lemma GrabBarsAddedIsCamel()
    ensures IsCamelKey(Key(GrabBarsAdded))
  {
  }

  lemma SoapDispenserAddedIsCamel()
    ensures IsCamelKey(Key(SoapDispenserAdded))
  {
  }

  lemma ChangingStationAddedIsCamel()
    ensures IsCamelKey(Key(ChangingStationAdded))
  {
  }

  lemma EmergencyButtonAddedIsCamel()
    ensures IsCamelKey(Key(EmergencyButtonAdded))
  {
  }

  /** Every record key is camelCase, so `LabelOfCamelKey` applies to each. */
  lemma KeysAreCamel(e: Element)
    ensures IsCamelKey(Key(e))
  {
    match e
    case CabinetsRemoved => CabinetsRemovedIsCamel();
    case StallsUpgraded => StallsUpgradedIsCamel();
    case GrabBarsAdded => GrabBarsAddedIsCamel();
    case SoapDispenserAdded => SoapDispenserAddedIsCamel();
    case ChangingStationAdded => ChangingStationAddedIsCamel();
    case EmergencyButtonAdded => EmergencyButtonAddedIsCamel();
  }

  /** The heading each checklist card shows for its record key. */
  function Heading(e: Element): string
  {
    match e
    case CabinetsRemoved => "Cabinets" + " " + "Removed"
    case StallsUpgraded => "Stalls" + " " + "Upgraded"
    case GrabBarsAdded => "Grab" + " " + "Bars" + " " + "Added"
    case SoapDispenserAdded => "Soap" + " " + "Dispenser" + " " + "Added"
    case ChangingStationAdded => "Changing" + " " + "Station" + " " + "Added"
    case EmergencyButtonAdded => "Emergency" + " " + "Button" + " " + "Added"
  }

  /* The heading of each card, one lemma per record key. */

  lemma CabinetsRemovedHeading()
    ensures Label(Key(CabinetsRemoved)) == Heading(CabinetsRemoved)
  {
    TwoWords(Key(CabinetsRemoved), "cabinets", "Removed", "Cabinets", Heading(CabinetsRemoved));
  }

  lemma StallsUpgradedHeading()
    ensures Label(Key(StallsUpgraded)) == Heading(StallsUpgraded)
  {
    TwoWords(Key(StallsUpgraded), "stalls", "Upgraded", "Stalls", Heading(StallsUpgraded));
  }

  lemma GrabBarsAddedHeading()
    ensures Label(Key(GrabBarsAdded)) == Heading(GrabBarsAdded)
  {
    ThreeWords(Key(GrabBarsAdded), "grab", "Bars", "Added", "Grab", Heading(GrabBarsAdded));
  }

  lemma SoapDispenserAddedHeading()
    ensures Label(Key(SoapDispenserAdded)) == Heading(SoapDispenserAdded)
  {
    ThreeWords(Key(SoapDispenserAdded), "soap", "Dispenser", "Added", "Soap", Heading(SoapDispenserAdded));
  }

  lemma ChangingStationAddedHeading()
    ensures Label(Key(ChangingStationAdded)) == Heading(ChangingStationAdded)
  {
    ThreeWords(Key(ChangingStationAdded), "changing", "Station", "Added", "Changing", Heading(ChangingStationAdded));
  }

  lemma EmergencyButtonAddedHeading()
    ensures Label(Key(EmergencyButtonAdded)) == Heading(EmergencyButtonAdded)
  {
    ThreeWords(Key(EmergencyButtonAdded), "emergency", "Button", "Added", "Emergency", Heading(EmergencyButtonAdded));
  }

  /** The formatter turns each record key into its card heading. */
  lemma KeyHeading(e: Element)
    ensures Label(Key(e)) == Heading(e)
  {
    match e
    case CabinetsRemoved => CabinetsRemovedHeading();
    case StallsUpgraded => StallsUpgradedHeading();
    case GrabBarsAdded => GrabBarsAddedHeading();
    case SoapDispenserAdded => SoapDispenserAddedHeading();
    case ChangingStationAdded => ChangingStationAddedHeading();
    case EmergencyButtonAdded => EmergencyButtonAddedHeading();
  }
}
