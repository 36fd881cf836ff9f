# Affirmations: search filter and per-card playback toggle

The Affirmations app shows a scrollable list of cards. Each card pairs an image
with a line of text and has a play/pause button that plays the card's sound.
A search box above the list narrows it down to the cards whose text contains
the query, ignoring case. Almost all of `MainActivity.kt` is Jetpack Compose
layout. This project models the three pieces of logic inside it:

- **The search filter** (`Search`, over `TextMatch`). `SearchableAffirmationsApp`
  keeps an affirmation exactly when the resolved text of its string resource
  contains `searchText`, ignoring case. `Search.Filter` is that `filter`
  expression. `TextMatch` models Kotlin's `contains(..., ignoreCase = true)`:
  it scans offsets 0 to `length` inclusive and compares characters with
  `Char.equals(ignoreCase = true)`. Two characters match if they are equal, or
  equal after upper-casing both, or equal after upper-casing and then
  lower-casing both. The resource lookup `getString` is a parameter: any total
  function from resource id to string.
- **The playback toggle** (`Playback`). Each card remembers `isClick` and a
  nullable `mediaPlayer`. The click handler flips `isClick`. When that switches
  the card on, it releases any held player, calls `MediaPlayer.create` and
  starts the result. When it switches the card off, it pauses and releases the
  held player and forgets it. The pure functions `Toggle` and `ToggleCalls`
  give the next state and the platform calls one click makes. The class
  `AffirmationsCard` performs the handler step by step and keeps a ghost log of
  its calls. Its `OnClick` is proved to match those functions and to keep the
  log invariant. The button icon is `iconPause` while `isClick` holds and
  `iconResourceId` otherwise.
- **Query forwarding** (`App`). The search text starts as `""`. Both listeners
  that `SearchViewComponent` installs forward a non-null string to
  `onQueryChanged`, ignore null, and report the event as handled.

A platform media player is an opaque `Handle`. The result of
`MediaPlayer.create` is an input to `OnClick` (`created`), and `None` stands
for the `null` returned when creation fails. A multiset of "live" players is
computed from the call log: created and not yet released. From it the model
proves three things for every sequence of clicks and every `create` outcome:

- The players created and not yet released are exactly the one the card holds,
  so at most one is alive at any time.
- Every other created player has already been released.
- Start, pause and release only ever go to a live player.

Some behaviour of the code is easy to get wrong:

- When `MediaPlayer.create` returns null, the code still switches the card on:
  `isClick` becomes true, so the pause icon shows with no player. It does not
  stay in the idle state. The next click switches the card off without any
  platform call (`Playback.CreateFails`).
- The code has no disposal hook. A card that leaves the screen while playing
  does not release its player, so the model has no "unmount" operation.
- The invariant that holds is `mediaPlayer != null ==> isClick`
  (`Playback.Consistent`). It is not an if-and-only-if, because of the
  create-failure case above.
- `mediaPlayer?.release()` before `create` (line 147) never finds a player
  when the card starts in a consistent state (`Playback.TurnOnReleasesNothing`).
  `OnClick` is still verified from any state whose log accounts for its
  player, so that branch is modelled and checked.

## Model

| member | source | states |
|---|---|---|
| TextMatch.IndexOfIgnoreCase | app/src/main/java/com/example/affirmations/MainActivity.kt:198 | the scan returns -1 exactly when no offset up to the text length matches; otherwise it returns a matching offset with no match before it |
| TextMatch.UpperAscii | app/src/main/java/com/example/affirmations/MainActivity.kt:198 | upper-casing of one character (ASCII only): no lower-case letter remains, letters stay letters, and only lower-case letters change |
| TextMatch.LowerAscii | app/src/main/java/com/example/affirmations/MainActivity.kt:198 | lower-casing of one character (ASCII only): no upper-case letter remains, letters stay letters, and only upper-case letters change |
| TextMatch.CharEqualsIgnoreCase | app/src/main/java/com/example/affirmations/MainActivity.kt:198 | the three-way character comparison of `ignoreCase = true` (equal, equal upper-case, equal lower-of-upper); under ASCII case mapping it holds iff the upper-case forms are equal |
| TextMatch.MatchesAt | app/src/main/java/com/example/affirmations/MainActivity.kt:198 | the query matches the text at an offset character by character; a match needs a text at least as long as the query, and the empty query matches at every offset up to the text length |
| TextMatch.ContainsIgnoreCase | app/src/main/java/com/example/affirmations/MainActivity.kt:198 | `contains(query, ignoreCase = true)` holds iff the query matches at some offset from 0 to the text length |
| TextMatch.CharEqualsIgnoreCaseIsEquivalence | app/src/main/java/com/example/affirmations/MainActivity.kt:198 | the ignore-case character comparison is reflexive, symmetric and transitive |
| TextMatch.CharEqualsIgnoreCaseOfCased | app/src/main/java/com/example/affirmations/MainActivity.kt:198 | ASCII upper- or lower-casing either character never changes whether they match |
| TextMatch.ContainsEmpty | app/src/main/java/com/example/affirmations/MainActivity.kt:195-198 | every text contains the empty search text |
| TextMatch.NotContainsLonger | app/src/main/java/com/example/affirmations/MainActivity.kt:198 | no text contains a search text longer than itself |
| TextMatch.ContainsCasedQuery | app/src/main/java/com/example/affirmations/MainActivity.kt:198 | ASCII upper- or lower-casing the search text does not change containment |
| TextMatch.ContainsInCasedText | app/src/main/java/com/example/affirmations/MainActivity.kt:198 | ASCII upper- or lower-casing the display text does not change containment |
| Search.Shown | app/src/main/java/com/example/affirmations/MainActivity.kt:198 | the filter's predicate: the resolved text of the affirmation's string resource contains the search text ignoring case; always true for the empty search text, false when the search text is longer than the display text |
| Search.Filter | app/src/main/java/com/example/affirmations/MainActivity.kt:197-199 | an affirmation is in the filtered list iff it is in the list and its resolved text contains the search text ignoring case; the result is no longer than the list |
| Search.FilterPositions | app/src/main/java/com/example/affirmations/MainActivity.kt:196-199 | gives strictly increasing positions of the list at which the filtered list's elements stand |
| Search.FilterIsSubsequence | app/src/main/java/com/example/affirmations/MainActivity.kt:196-199 | the filtered list is a subsequence of the list: relative order kept, nothing added |
| Search.FilterCount | app/src/main/java/com/example/affirmations/MainActivity.kt:196-199 | each shown affirmation occurs as often as in the list, each hidden one not at all: no duplication, no loss |
| Search.FilterAllShown | app/src/main/java/com/example/affirmations/MainActivity.kt:197-199 | when every affirmation's text contains the search text, the filter returns the list unchanged |
| Search.FilterEmptyQuery | app/src/main/java/com/example/affirmations/MainActivity.kt:195-199 | with the initial empty search text the filtered list equals the full list |
| Search.FilterLongQuery | app/src/main/java/com/example/affirmations/MainActivity.kt:197-199 | a search text longer than every display text yields the empty list |
| Search.FilterCaseInsensitive | app/src/main/java/com/example/affirmations/MainActivity.kt:197-199 | ASCII upper- or lower-casing the search text gives the same filtered list |
| Search.FilterIdempotent | app/src/main/java/com/example/affirmations/MainActivity.kt:197-199 | filtering the filtered list again with the same search text changes nothing |
| Search.FilterAppend | app/src/main/java/com/example/affirmations/MainActivity.kt:197-199 | filtering a concatenation is the concatenation of the filtered parts |
| Search.ExampleShown | app/src/main/java/com/example/affirmations/MainActivity.kt:198 | of cards with texts "hello", "world", "Hello there", the first and third are shown for "hel" and the second is not |
| Search.ExampleContains | app/src/main/java/com/example/affirmations/MainActivity.kt:198 | "hello" and "Hello there" contain "hel" ignoring case, "world" does not |
| Search.FilterExample | app/src/main/java/com/example/affirmations/MainActivity.kt:197-199 | cards "hello", "world", "Hello there" searched for "hel" leave the first and third, in order |
| Playback.Toggle | app/src/main/java/com/example/affirmations/MainActivity.kt:144-154 | one click's new state: `isClick` flips; switching on holds what `create` returned; switching off returns to false/no player; the result is always consistent |
| Playback.ToggleCalls | app/src/main/java/com/example/affirmations/MainActivity.kt:144-154 | one click's platform calls in order: switching on includes `create` of the card's sound, switching off creates nothing, and every other call goes to the held player or the new one |
| Playback.TurnOnCreatesOnce | app/src/main/java/com/example/affirmations/MainActivity.kt:146-149 | a click that switches on calls `create` exactly once |
| Playback.Icon | app/src/main/java/com/example/affirmations/MainActivity.kt:157-159 | the button icon is the pause icon or the play icon, and (when they differ) the pause icon exactly while `isClick` holds |
| Playback.AffirmationsCard.CurrentIcon | app/src/main/java/com/example/affirmations/MainActivity.kt:157-159 | the card's current icon: `iconPause` while `isClick`, `iconResourceId` otherwise |
| Playback.ToggleStep | app/src/main/java/com/example/affirmations/MainActivity.kt:144-154 | after any click the card is consistent, the live players are exactly the one it holds, and every call went to a live player |
| Playback.TurnOnReleasesNothing | app/src/main/java/com/example/affirmations/MainActivity.kt:146-149 | switching on from a consistent state makes no release call and begins with `create` |
| Playback.TurnOnReleasesFirst | app/src/main/java/com/example/affirmations/MainActivity.kt:146-149 | switching on while holding a player releases it before `create`; the new player is what `create` returned |
| Playback.TurnOffReleases | app/src/main/java/com/example/affirmations/MainActivity.kt:150-153 | switching off pauses then releases the held player (no call if none) and returns to `isClick == false`, no player |
| Playback.IconAfterToggle | app/src/main/java/com/example/affirmations/MainActivity.kt:144-159 | each click flips `isClick`; the icon becomes `iconPause` when switching on and `iconResourceId` when switching off |
| Playback.ClicksKeepInvariant | app/src/main/java/com/example/affirmations/MainActivity.kt:118-154 | from the initial state, after any clicks and `create` outcomes: `mediaPlayer != null ==> isClick`, the live players are exactly the held one, no call went to a dead player |
| Playback.TwoClicks | app/src/main/java/com/example/affirmations/MainActivity.kt:118-154 | two clicks from the initial state return to it; the created player is started, paused and released exactly once, in order |
| Playback.CreateFails | app/src/main/java/com/example/affirmations/MainActivity.kt:144-159 | a failed `create` leaves the card switched on with no player and the pause icon; the next click returns to the initial state with no call |
| Playback.AffirmationsCard.constructor | app/src/main/java/com/example/affirmations/MainActivity.kt:118-124 | a new card is `isClick == false`, no player, empty log, and valid |
| Playback.AffirmationsCard.OnClick | app/src/main/java/com/example/affirmations/MainActivity.kt:144-154 | the new state is `Toggle` of the old one, the log grows by exactly `ToggleCalls`, and the card is valid afterwards |
| Playback.ClickTwice | app/src/main/java/com/example/affirmations/MainActivity.kt:143-161 | a card clicked twice shows the pause icon in between and the play icon after, with calls create, start, pause, release |
| App.SearchableAffirmationsApp.constructor | app/src/main/java/com/example/affirmations/MainActivity.kt:194-199 | the search text starts empty and the shown list is the whole affirmation list |
| App.SearchableAffirmationsApp.FilteredList | app/src/main/java/com/example/affirmations/MainActivity.kt:197-199 | the shown list holds exactly the affirmations of the list whose text contains the search text, and is the whole list while the search text is empty |
| App.SearchableAffirmationsApp.OnQueryChanged | app/src/main/java/com/example/affirmations/MainActivity.kt:201-203 | the query becomes the search text and the shown list is exactly the affirmations whose text contains it |
| App.SearchableAffirmationsApp.OnQueryTextSubmit | app/src/main/java/com/example/affirmations/MainActivity.kt:215-220 | a non-null query becomes the search text, a null one leaves it unchanged; returns true |
| App.SearchableAffirmationsApp.OnQueryTextChange | app/src/main/java/com/example/affirmations/MainActivity.kt:222-227 | a non-null text becomes the search text, a null one leaves it unchanged; returns true |
| App.SubmitAndChangeAgree | app/src/main/java/com/example/affirmations/MainActivity.kt:214-227 | for any two screens with the same list, lookup and search text, a submit to one and a change to the other with the same query leave the same list shown; a null query leaves the shown list as it was |

## Left out

- Activity start-up, theming, `Surface`/`LazyColumn`/`Card`/`Column` layout, window-inset padding and the previews are user-interface composition with no logic to state.
- TextMatch.ContainsCasedQuery: proved only for ASCII casing of the query. Kotlin's full-Unicode `uppercase()`/`lowercase()` do not have this property: `"ß".uppercase()` is `"SS"`, so a text containing "ß" contains the query "ß" but not its upper-cased form.
- TextMatch.ContainsInCasedText: proved only for ASCII casing of the text. For the same reason, upper-casing a display text with Kotlin's `uppercase()` can change what it contains.
- Search.FilterCaseInsensitive: proved only for ASCII casing of the search text. With Kotlin's `uppercase()`/`lowercase()` the filtered list can change (the "ß" example above).
- TextMatch.CharEqualsIgnoreCase: with ASCII mapping the three-way comparison reduces to equal upper-case forms. Under Unicode it does not, for example 'ϴ' (U+03F4) and 'θ' (U+03B8) have different upper-case forms but match through the lower-of-upper comparison.
- Strings are sequences of Unicode scalar values, while Kotlin's `String` is a sequence of UTF-16 code units. Filter results agree for well-formed text, but lengths differ for characters outside the Basic Multilingual Plane. For example, the length comparison in the hypothesis of `Search.FilterLongQuery` counts scalar values.
- Unicode case mapping: `UpperAscii` and `LowerAscii` map only ASCII letters. Kotlin uses the full Unicode tables, so non-ASCII letters that differ only in case are treated as different here.
- Resource resolution (`getString`, `painterResource`, `stringResource`) is a total function parameter. Resource ids are opaque integers.
- `MediaPlayer` behaviour (decoding, audio output, its own state machine) is left out. A player is an opaque handle. `create` is an input that may be `None`. `start`, `pause` and `release` are only recorded in the log.
- `Datasource().loadAffirmations()` and the `Affirmation` class are not part of this model. The list is an arbitrary sequence. `Affirmation` is a record of five resource ids, in the order the preview at line 188 passes them.
- Compose recomposition and `remember` lifetimes are left out. So is the `SearchView` widget itself: each card's state lives as long as its `AffirmationsCard` object, and the search text lives in the `SearchableAffirmationsApp` object.
- Releasing a player when a card leaves the composition is not done by the code, so it is not modelled.
