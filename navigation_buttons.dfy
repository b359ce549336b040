/**
 * The previous/next buttons of the practice screen: two flags derived from
 * the store enable the buttons, the click handlers update the index behind
 * the same guard, and a counter shows the position.
 */
module NavigationButtons {
  import opened JsText
  import opened HanziStore

  /** Whether the "previous" button is enabled. */
  predicate HasPrevious(s: HanziState)
  {
    s.currentIndex > 0
  }

  /** Whether the "next" button is enabled. */
  predicate HasNext(s: HanziState)
  {
    s.currentIndex < |s.characters| - 1
  }

  /** The enabled flags are exactly the conditions under which the store's
      own navigation moves; on the empty list both are off. */
  lemma FlagsMatchStore(s: HanziState)
    requires Invariant(s)
    ensures HasPrevious(s) <==> Retreat(s) != s
    ensures HasNext(s) <==> Advance(s) != s
    ensures s.characters == [] ==> !HasPrevious(s) && !HasNext(s)
    ensures HasPrevious(s) || HasNext(s) ==> |s.characters| >= 2
  {
  }

  /** The position counter "current / total". */
  function Counter(s: HanziState): (c: (int, int))
    ensures c.1 == |s.characters|
    ensures Invariant(s) ==> (s.characters == [] <==> c == (0, 0))
    ensures Invariant(s) && s.characters != [] ==> 1 <= c.0 <= c.1
  {
    (s.currentIndex + 1, |s.characters|)
  }

  /** The counter follows the navigation: an enabled step moves the shown
      position by one and an ignored step leaves it; loading a list shows
      its first position, and loading an empty list shows 0 / 0. */
  lemma CounterTracksNavigation(s: HanziState, chars: seq<JsString>)
    requires Invariant(s)
    ensures HasNext(s) ==> Counter(Advance(s)) == (Counter(s).0 + 1, Counter(s).1)
    ensures !HasNext(s) ==> Counter(Advance(s)) == Counter(s)
    ensures HasPrevious(s) ==> Counter(Retreat(s)) == (Counter(s).0 - 1, Counter(s).1)
    ensures !HasPrevious(s) ==> Counter(Retreat(s)) == Counter(s)
    ensures chars != [] ==> Counter(WithCharacters(s, chars)) == (1, |chars|)
    ensures Counter(WithCharacters(s, [])) == (0, 0)
  {
  }

  /** The click handler of the "previous" button. In the page the guard
      reads the flag computed when the buttons were last drawn; the model
      reads it from the store's state when the click arrives. */
  method HandlePrevious(store: Store)
    modifies store
    ensures HasPrevious(old(store.State())) ==> store.currentIndex == old(store.currentIndex) - 1
    ensures !HasPrevious(old(store.State())) ==> store.State() == old(store.State())
    ensures store.characters == old(store.characters)
    ensures store.mode == old(store.mode) && store.isLoading == old(store.isLoading)
    ensures store.State() == Retreat(old(store.State()))
    ensures old(store.Valid()) ==> store.Valid()
    ensures old(store.Valid()) && store.characters != [] ==> 0 <= store.currentIndex < |store.characters|
  {
    var hasPrevious := HasPrevious(store.State());
    if hasPrevious {
      store.currentIndex := store.currentIndex - 1;
    }
  }

  /** The click handler of the "next" button, with its guard read as in
      `HandlePrevious`. */
  method HandleNext(store: Store)
    modifies store
    ensures HasNext(old(store.State())) ==> store.currentIndex == old(store.currentIndex) + 1
    ensures !HasNext(old(store.State())) ==> store.State() == old(store.State())
    ensures store.characters == old(store.characters)
    ensures store.mode == old(store.mode) && store.isLoading == old(store.isLoading)
    ensures store.State() == Advance(old(store.State()))
    ensures old(store.Valid()) ==> store.Valid()
    ensures old(store.Valid()) && store.characters != [] ==> 0 <= store.currentIndex < |store.characters|
  {
    var hasNext := HasNext(store.State());
    if hasNext {
      store.currentIndex := store.currentIndex + 1;
    }
  }
}
