/**
 * The session store: one process-wide record holding the character list,
 * the position in it, the watch/practice mode and a loading flag. Every
 * exported operation replaces the record with a function of the old one;
 * those functions are stated here as pure updaters (`WithCharacters`,
 * `Advance`, ...) and the `Store` class applies them in place.
 */
module HanziStore {
  import opened JsText

  datatype Mode = Watch | Practice

  /** The record kept by the store. */
  datatype HanziState = HanziState(
    characters: seq<JsString>,
    currentIndex: int,
    mode: Mode,
    isLoading: bool)

  /** The store invariant: the index points into the list, and it is the
      sentinel -1 exactly when the list is empty. */
  predicate Invariant(s: HanziState)
  {
    && -1 <= s.currentIndex < |s.characters|
    && (s.currentIndex == -1 <==> s.characters == [])
  }

  /** The record the store is created with. */
  const Initial := HanziState([], -1, Watch, false)

  lemma InitialSatisfiesInvariant()
    ensures Invariant(Initial)
    ensures Initial.characters == [] && Initial.currentIndex == -1
    ensures Initial.mode == Watch && !Initial.isLoading
  {
  }

  /** The update made by `setCharacters(chars)`. */
  function WithCharacters(s: HanziState, chars: seq<JsString>): (r: HanziState)
    ensures Invariant(r)
    ensures r.characters == chars
    ensures r.currentIndex == (if chars == [] then -1 else 0)
    ensures r.mode == s.mode && r.isLoading == s.isLoading
  {
    s.(characters := chars, currentIndex := if |chars| > 0 then 0 else -1)
  }

  /** The update made by `nextCharacter()`. */
  function Advance(s: HanziState): (r: HanziState)
    ensures r.characters == s.characters && r.mode == s.mode && r.isLoading == s.isLoading
    ensures Invariant(s) ==> Invariant(r)
  {
    if s.currentIndex < |s.characters| - 1 then s.(currentIndex := s.currentIndex + 1) else s
  }

  /** The update made by `previousCharacter()`. */
  function Retreat(s: HanziState): (r: HanziState)
    ensures r.characters == s.characters && r.mode == s.mode && r.isLoading == s.isLoading
    ensures Invariant(s) ==> Invariant(r)
  {
    if s.currentIndex > 0 then s.(currentIndex := s.currentIndex - 1) else s
  }

  /** The update made by `setMode(m)`. */
  function WithMode(s: HanziState, m: Mode): (r: HanziState)
    ensures r.mode == m
    ensures r.characters == s.characters && r.currentIndex == s.currentIndex
    ensures r.isLoading == s.isLoading
    ensures Invariant(s) ==> Invariant(r)
  {
    s.(mode := m)
  }

  /** The update made by `setLoading(b)`. */
  function WithLoading(s: HanziState, b: bool): (r: HanziState)
    ensures r.isLoading == b
    ensures r.characters == s.characters && r.currentIndex == s.currentIndex
    ensures r.mode == s.mode
    ensures Invariant(s) ==> Invariant(r)
  {
    s.(isLoading := b)
  }

  /** `nextCharacter` moves forward by one exactly when the index is before
      the last position, and otherwise leaves the record as it is. */
  lemma AdvanceSteps(s: HanziState)
    ensures s.currentIndex < |s.characters| - 1 <==> Advance(s).currentIndex == s.currentIndex + 1
    ensures s.currentIndex >= |s.characters| - 1 <==> Advance(s) == s
  {
  }

  /** `previousCharacter` moves back by one exactly when the index is
      positive, and otherwise leaves the record as it is. */
  lemma RetreatSteps(s: HanziState)
    ensures s.currentIndex > 0 <==> Retreat(s).currentIndex == s.currentIndex - 1
    ensures s.currentIndex <= 0 <==> Retreat(s) == s
  {
  }

  /** At the boundaries navigation is a no-op: at the last index, at 0, and
      on the empty list. */
  lemma NavigationNoOpAtBoundary(s: HanziState)
    requires Invariant(s)
    ensures s.characters == [] ==> Advance(s) == s && Retreat(s) == s
    ensures s.characters != [] && s.currentIndex == |s.characters| - 1 ==> Advance(s) == s
    ensures s.currentIndex == 0 ==> Retreat(s) == s
  {
  }

  /** A legal step forward followed by a step back restores the record, and
      so does a legal step back followed by a step forward. */
  lemma AdvanceThenRetreat(s: HanziState)
    requires Invariant(s)
    ensures s.currentIndex < |s.characters| - 1 ==> Retreat(Advance(s)) == s
    ensures s.currentIndex > 0 ==> Advance(Retreat(s)) == s
  {
  }

  /** Switching to practice and back to watch touches nothing but the mode. */
  lemma ModeRoundTrip(s: HanziState)
    ensures WithMode(WithMode(s, Practice), Watch) == s.(mode := Watch)
    ensures s.mode == Watch ==> WithMode(WithMode(s, Practice), Watch) == s
  {
  }

  /** The worked scenario: three characters, then three steps forward; the
      third step is stopped at the last index. */
  lemma ThreeCharacterWalk(chars: seq<JsString>, s: HanziState)
    requires |chars| == 3
    ensures WithCharacters(s, chars).currentIndex == 0
    ensures Advance(WithCharacters(s, chars)).currentIndex == 1
    ensures Advance(Advance(WithCharacters(s, chars))).currentIndex == 2
    ensures Advance(Advance(Advance(WithCharacters(s, chars)))).currentIndex == 2
  {
  }

  /** The store object. Each method replaces the record with its updater's
      result and leaves nothing else changed. */
  class Store {
    var characters: seq<JsString>
    var currentIndex: int
    var mode: Mode
    var isLoading: bool

    /** The record the store currently holds. */
    function State(): HanziState
      reads this
    {
      HanziState(characters, currentIndex, mode, isLoading)
    }

    predicate Valid()
      reads this
    {
      Invariant(State())
    }

    constructor ()
      ensures State() == Initial
      ensures Valid()
    {
      characters := [];
      currentIndex := -1;
      mode := Watch;
      isLoading := false;
    }

    method SetCharacters(chars: seq<JsString>)
      modifies this
      ensures State() == WithCharacters(old(State()), chars)
      ensures Valid()
    {
      characters := chars;
      currentIndex := if |chars| > 0 then 0 else -1;
    }

    method NextCharacter()
      modifies this
      ensures State() == Advance(old(State()))
      ensures old(Valid()) ==> Valid()
    {
      if currentIndex < |characters| - 1 {
        currentIndex := currentIndex + 1;
      }
    }

    method PreviousCharacter()
      modifies this
      ensures State() == Retreat(old(State()))
      ensures old(Valid()) ==> Valid()
    {
      if currentIndex > 0 {
        currentIndex := currentIndex - 1;
      }
    }

    method SetMode(m: Mode)
      modifies this
      ensures State() == WithMode(old(State()), m)
      ensures old(Valid()) ==> Valid()
    {
      mode := m;
    }

    method SetLoading(b: bool)
      modifies this
      ensures State() == WithLoading(old(State()), b)
      ensures old(Valid()) ==> Valid()
    {
      isLoading := b;
    }
  }
}
