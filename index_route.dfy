/**
 * The practice page: the character on display, the choice between the
 * welcome screen and the practice screen, and the "return home" button.
 */
module IndexRoute {
  import opened JsText
  import opened HanziStore

  /** The character on display: the entry at the current index, or the
      empty string when the index is outside the list. */
  function CurrentCharacter(s: HanziState): (c: JsString)
    ensures c == [] || c in s.characters
    ensures Invariant(s) && s.characters != [] ==> c == s.characters[s.currentIndex]
    ensures s.characters == [] ==> c == []
    ensures !(0 <= s.currentIndex < |s.characters|) ==> c == []
  {
    if 0 <= s.currentIndex < |s.characters| then s.characters[s.currentIndex] else []
  }

  /** The page shows the welcome screen instead of the practice screen. */
  predicate ShowsWelcome(s: HanziState)
  {
    CurrentCharacter(s) == []
  }

  /** Every entry of the list is a non-empty string. */
  predicate NonEmptyEntries(chars: seq<JsString>)
  {
    forall k :: 0 <= k < |chars| ==> chars[k] != []
  }

  /** With the store invariant and non-empty entries, the welcome screen is
      shown exactly when the list is empty. */
  lemma WelcomeIffEmpty(s: HanziState)
    requires Invariant(s) && NonEmptyEntries(s.characters)
    ensures ShowsWelcome(s) <==> s.characters == []
  {
  }

  /** The update made by the "return home" button. It writes the record
      directly rather than calling `setCharacters`. */
  function ReturnHome(s: HanziState): (r: HanziState)
    ensures r == WithCharacters(s, [])
    ensures r.mode == s.mode && r.isLoading == s.isLoading
    ensures Invariant(r) && ShowsWelcome(r)
  {
    s.(characters := [], currentIndex := -1)
  }

  /** The click handler of the "return home" button. */
  method HandleReturnHome(store: Store)
    modifies store
    ensures store.State() == ReturnHome(old(store.State()))
    ensures store.Valid()
  {
    store.characters := [];
    store.currentIndex := -1;
  }
}
