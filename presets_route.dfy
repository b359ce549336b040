/**
 * The preset picker page: choosing a collection looks it up by id and,
 * when found, loads its characters into the store.
 */
module PresetsRoute {
  import opened JsText
  import opened HanziStore
  import opened PresetData

  /** The effect of choosing a preset on the store record. The page runs
      its own `find` over the table rather than calling `GetPresetById`;
      the contract is stated through `GetPresetById`, so it also says the
      two agree. */
  function SelectPreset(s: HanziState, presetId: JsString): (r: HanziState)
    ensures GetPresetById(presetId).None? ==> r == s
    ensures GetPresetById(presetId).Some? ==>
              r.characters == GetPresetById(presetId).value.characters && r.currentIndex == 0
    ensures r.mode == s.mode && r.isLoading == s.isLoading
    ensures Invariant(s) ==> Invariant(r)
  {
    PresetsWellFormed();
    var preset := FindById(Presets, presetId);
    if preset.Some? then WithCharacters(s, preset.value.characters) else s
  }

  /** The click handler of a preset card. */
  method HandleSelectPreset(store: Store, presetId: JsString)
    modifies store
    ensures store.State() == SelectPreset(old(store.State()), presetId)
    ensures old(store.Valid()) ==> store.Valid()
  {
    var preset := FindById(Presets, presetId);
    if preset.Some? {
      store.SetCharacters(preset.value.characters);
    }
  }
}
