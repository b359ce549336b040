# Tianzige session state, in Dafny

Tianzige is a small web application for young children who are learning to write
Chinese characters. This project models the part of it that holds and changes the
learning session:

- the session store: the list of characters, the position in it, the watch/practice
  mode and a loading flag, with its five operations;
- the previous/next navigation buttons: their enabled flags, their click handlers
  and the position counter;
- the custom-input page: it splits the typed text into UTF-16 code units, keeps those
  in U+4E00..U+9FA5, and submits them only when at least one was found;
- the preset table and the lookup by id, together with the preset picker, which loads
  a collection only when the lookup succeeds;
- the practice page: which character is on display, when the welcome screen is shown,
  and the "return home" reset.

JavaScript strings are sequences of UTF-16 code units, so strings are modelled as
`seq<CodeUnit>` (`JsText.JsString`). String literals of the program go through
`JsText.Utf16`. The store is the class `HanziStore.Store`, with the four fields of the
record. The store applies each operation by replacing its record with a function of
the old one. Those functions are the pure updaters `WithCharacters`, `Advance`,
`Retreat`, `WithMode` and `WithLoading`. Each method of the class, and each page
handler that writes the store, is proved to leave the store in exactly the record
its updater computes.

The store invariant is `HanziStore.Invariant`: `-1 <= currentIndex < |characters|`,
and the index is -1 exactly when the list is empty. The module `Session` composes the
page handlers into one step function over user actions. It proves that every record
reachable from the initial one satisfies the invariant and holds only non-empty
strings, so the welcome screen is shown exactly when no characters are loaded.

The custom filter tests U+4E00..U+9FA5. That range stops before U+9FFF, the end of
the CJK Unified Ideographs block. The model keeps the range as the code writes it
(`CustomRoute.IsHanzi`).

## Model

| member | source | states |
|---|---|---|
| `HanziStore.InitialSatisfiesInvariant` | src/stores/hanziStore.ts:14-19 | the initial record has an empty list, index -1, watch mode and no loading, and satisfies the store invariant |
| `HanziStore.Invariant` | src/stores/hanziStore.ts:6-7 | the store invariant: the index is -1 or a position of the list, and it is -1 exactly when the list is empty |
| `HanziStore.WithCharacters` | src/stores/hanziStore.ts:21-27 | `setCharacters` stores exactly the given list, sets the index to 0 for a non-empty list and -1 for an empty one, keeps mode and loading, and always yields a record satisfying the invariant |
| `HanziStore.Advance` | src/stores/hanziStore.ts:29-36 | `nextCharacter` changes only the index and preserves the store invariant |
| `HanziStore.Retreat` | src/stores/hanziStore.ts:38-45 | `previousCharacter` changes only the index and preserves the store invariant |
| `HanziStore.WithMode` | src/stores/hanziStore.ts:47-49 | `setMode` sets the mode, leaves list, index and loading unchanged, and preserves the invariant |
| `HanziStore.WithLoading` | src/stores/hanziStore.ts:51-53 | `setLoading` sets the loading flag, leaves everything else unchanged, and preserves the invariant |
| `HanziStore.AdvanceSteps` | src/stores/hanziStore.ts:29-36 | the index grows by one exactly when it is below the last position; otherwise the record is returned unchanged |
| `HanziStore.RetreatSteps` | src/stores/hanziStore.ts:38-45 | the index drops by one exactly when it is positive; otherwise the record is returned unchanged |
| `HanziStore.NavigationNoOpAtBoundary` | src/stores/hanziStore.ts:29-45 | next is a no-op at the last index and on the empty list; previous is a no-op at 0 and on the empty list |
| `HanziStore.AdvanceThenRetreat` | src/stores/hanziStore.ts:29-45 | a legal next followed by previous restores the record, and so does a legal previous followed by next |
| `HanziStore.ModeRoundTrip` | src/stores/hanziStore.ts:47-49 | switching to practice and back to watch changes nothing but the mode, and nothing at all when the mode was watch |
| `HanziStore.ThreeCharacterWalk` | src/stores/hanziStore.ts:21-36 | after loading three characters the index is 0, then 1 and 2 after two steps, and stays at 2 after a third step |
| `HanziStore.Store.constructor` | src/stores/hanziStore.ts:14-19 | a new store holds the initial record |
| `HanziStore.Store.SetCharacters` | src/stores/hanziStore.ts:21-27 | the store then holds the `WithCharacters` record, which satisfies the invariant |
| `HanziStore.Store.NextCharacter` | src/stores/hanziStore.ts:29-36 | the store then holds the `Advance` record; the invariant is kept |
| `HanziStore.Store.PreviousCharacter` | src/stores/hanziStore.ts:38-45 | the store then holds the `Retreat` record; the invariant is kept |
| `HanziStore.Store.SetMode` | src/stores/hanziStore.ts:47-49 | the store then holds the `WithMode` record; the invariant is kept |
| `HanziStore.Store.SetLoading` | src/stores/hanziStore.ts:51-53 | the store then holds the `WithLoading` record; the invariant is kept |
| `NavigationButtons.HasPrevious` | src/components/NavigationButtons.tsx:15 | the "previous" button is enabled exactly when the index is positive |
| `NavigationButtons.HasNext` | src/components/NavigationButtons.tsx:16 | the "next" button is enabled exactly when the index is below the last position |
| `NavigationButtons.FlagsMatchStore` | src/components/NavigationButtons.tsx:15-16 | "previous" is enabled exactly when the store's previous would move and "next" exactly when its next would move; both are off on the empty list, and one being on implies at least two characters |
| `NavigationButtons.Counter` | src/components/NavigationButtons.tsx:44 | the counter's total is the list length; under the invariant it reads 0 / 0 exactly for the empty list and otherwise shows a position between 1 and the total |
| `NavigationButtons.CounterTracksNavigation` | src/components/NavigationButtons.tsx:44 | under the invariant, an enabled next or previous moves the shown position by exactly one and an ignored one leaves the counter as it was; loading a non-empty list shows 1 over its length, and loading an empty list shows 0 / 0 |
| `NavigationButtons.HandlePrevious` | src/components/NavigationButtons.tsx:18-23 | the index drops by one when "previous" is enabled and the store is unchanged otherwise; the result equals the store's `previousCharacter`, and a non-empty list keeps the index within bounds |
| `NavigationButtons.HandleNext` | src/components/NavigationButtons.tsx:25-30 | the index grows by one when "next" is enabled and the store is unchanged otherwise; the result equals the store's `nextCharacter`, and a non-empty list keeps the index within bounds |
| `CustomRoute.IsHanzi` | src/routes/custom.tsx:13 | a code unit is recognised exactly when it lies in U+4E00..U+9FA5 inclusive |
| `CustomRoute.HanziChars` | src/routes/custom.tsx:11-13 | the filter returns at most as many strings as the input has code units, each a single code unit in U+4E00..U+9FA5 |
| `CustomRoute.HanziPositions` | src/routes/custom.tsx:11-13 | reference description of what is kept: the strictly increasing positions of exactly the in-range code units |
| `CustomRoute.HanziCharsAppend` | src/routes/custom.tsx:11-13 | filtering a concatenation gives the concatenation of the filtered parts |
| `CustomRoute.HanziCharsPicksPositions` | src/routes/custom.tsx:11-13 | the filter is the order-preserving subsequence of in-range code units: its k-th element is the code unit at the k-th in-range position |
| `CustomRoute.HanziCharsKeepsDuplicates` | src/routes/custom.tsx:11-13 | an in-range code unit occurs in the result as often as in the input, and an out-of-range one never occurs |
| `CustomRoute.HanziCharsIdempotent` | src/routes/custom.tsx:11-13 | joining the result and filtering again gives the same result |
| `CustomRoute.WorkedExample` | src/routes/custom.tsx:11-13 | "我爱1学习" yields 我, 爱, 学, 习: the digit is dropped |
| `CustomRoute.SubmitEnabled` | src/routes/custom.tsx:74 | the submit button is enabled exactly when at least one character was recognised |
| `CustomRoute.Submit` | src/routes/custom.tsx:15-20 | with no recognised character (the case where the button is disabled) the record is unchanged; otherwise the list is the recognised characters and the index 0; mode and loading are kept, and so is the invariant |
| `CustomRoute.HandleSubmit` | src/routes/custom.tsx:15-20 | the store then holds the `Submit` record; the invariant is kept |
| `PresetData.FindById` | src/data/presets.ts:29-31 | `find` by id returns nothing exactly when no entry has the id; otherwise it returns an entry with that id, with no earlier entry having it |
| `PresetData.GetPresetById` | src/data/presets.ts:29-31 | the lookup returns an entry of the table with the requested id, or nothing exactly when no entry has that id |
| `PresetData.PresetIdsDistinct` | src/data/presets.ts:8-27 | the ids of the table are pairwise distinct |
| `PresetData.PresetsWellFormed` | src/data/presets.ts:8-27 | the table has three collections of 8, 8 and 7 characters; none is empty and each character is a single code unit |
| `PresetData.LookupUnique` | src/data/presets.ts:8-31 | after a successful lookup, every entry with that id is the one returned |
| `PresetData.LookupExamples` | src/data/presets.ts:9-31 | "basic" yields 一 二 三 人 大 小 上 下, and "xyz" yields nothing |
| `PresetsRoute.SelectPreset` | src/routes/presets.tsx:13-19 | an unknown id leaves the record unchanged; a known id loads that preset's list exactly, with the index at 0; the page's own `find` agrees with `getPresetById`; mode, loading and the invariant are kept |
| `PresetsRoute.HandleSelectPreset` | src/routes/presets.tsx:13-19 | the store then holds the `SelectPreset` record; the invariant is kept |
| `IndexRoute.CurrentCharacter` | src/routes/index.tsx:24 | the displayed character is empty or an entry of the list; under the invariant and a non-empty list it is the entry at the index; whenever the index is outside the list, the empty list included, it is the empty string |
| `IndexRoute.ShowsWelcome` | src/routes/index.tsx:44 | the welcome screen is shown exactly when the displayed character is the empty string |
| `IndexRoute.WelcomeIffEmpty` | src/routes/index.tsx:43-44 | with the invariant and non-empty entries, the welcome screen is shown exactly when the list is empty |
| `IndexRoute.ReturnHome` | src/routes/index.tsx:93-97 | the home reset gives the same record as `setCharacters([])`, keeps mode and loading, and leads to the welcome screen |
| `IndexRoute.HandleReturnHome` | src/routes/index.tsx:93-97 | the store then holds the `ReturnHome` record, which satisfies the invariant |
| `Session.Step` | src/stores/hanziStore.ts:21-53 | each user action applies the handler of its page (preset choice, custom submit, previous, next, return home, mode switch); no action changes the loading flag, and every action keeps the store invariant |
| `Session.StepPreservesInvariant` | src/stores/hanziStore.ts:14-53 | every user action (choose a preset, submit custom text, previous, next, return home, switch mode) keeps the invariant and keeps every entry non-empty |
| `Session.RunPreservesInvariant` | src/stores/hanziStore.ts:14-53 | any sequence of user actions keeps the invariant and non-empty entries |
| `Session.ReachableStates` | src/routes/index.tsx:43-44 | every record reachable from the initial one satisfies the invariant, and in it the welcome screen is shown exactly when the list is empty |

## Left out

- src/components/HanziCanvas.tsx is not part of this model. It drives an external stroke-rendering library and fetches stroke data over the network.
- src/components/Celebration.tsx is not part of this model. It is a timer and animation loop around an external confetti library.
- src/types/hanzi-writer.d.ts declares types for a foreign library and has no behaviour.
- ModeSwitcher, ControlButtons, Mascot, the root route, the router, the app entry and the build configuration are presentation and wiring. Their only state effect is `setMode`, which `HanziStore.WithMode` and the `ChooseMode` session action model.
- Page navigation (`navigate`), the one-second `setTimeout` of the celebration flag, JSX and styling are UI plumbing. Only the store updates beside them are modelled.
- The subscription machinery of the store library (`useStore` and its observers) is library code. The store is a plain mutable object whose update replaces the record.
- NavigationButtons.HandlePrevious, NavigationButtons.HandleNext: the guard reads flags computed when the buttons were last drawn. The model takes them from the store's state when the click arrives. It does not model two clicks landing before a re-render.
- NavigationButtons.HandlePrevious, NavigationButtons.HandleNext: the optional `onPrevious`/`onNext` callbacks are not modelled. The practice page passes neither.
- `setLoading` is never called by any page, so it is not a session action. It is modelled in the store only.
- Preset names and icons are kept in the table but play no part in any property.

