/**
 * The built-in character collections and the lookup by id.
 */
module PresetData {
  import opened JsText

  datatype Option<T> = None | Some(value: T)

  datatype HanziPreset = HanziPreset(
    id: JsString,
    name: JsString,
    icon: JsString,
    characters: seq<JsString>)

  const Basic := HanziPreset(Utf16("basic"), Utf16("基础字"), Utf16("🔤"),
    [Utf16("一"), Utf16("二"), Utf16("三"), Utf16("人"),
     Utf16("大"), Utf16("小"), Utf16("上"), Utf16("下")])

  const Nature := HanziPreset(Utf16("nature"), Utf16("大自然"), Utf16("🌳"),
    [Utf16("山"), Utf16("水"), Utf16("火"), Utf16("日"),
     Utf16("月"), Utf16("云"), Utf16("雨"), Utf16("雪")])

  const Animals := HanziPreset(Utf16("animals"), Utf16("小动物"), Utf16("🐱"),
    [Utf16("马"), Utf16("牛"), Utf16("羊"), Utf16("鸟"),
     Utf16("鱼"), Utf16("虫"), Utf16("犬")])

  /** The preset table, in display order. */
  const Presets: seq<HanziPreset> := [Basic, Nature, Animals]

  /** `ps.find(p => p.id === id)`: the first preset with that id, if any. */
  function FindById(ps: seq<HanziPreset>, id: JsString): (r: Option<HanziPreset>)
    ensures r.None? <==> forall k :: 0 <= k < |ps| ==> ps[k].id != id
    ensures r.Some? ==> r.value.id == id
    ensures r.Some? ==>
              exists k :: 0 <= k < |ps| && ps[k] == r.value && forall j :: 0 <= j < k ==> ps[j].id != id
  {
    if ps == [] then None
    else if ps[0].id == id then Some(ps[0])
    else
      var r := FindById(ps[1..], id);
      assert r.Some? ==> exists k :: 0 <= k < |ps[1..]| && ps[1..][k] == r.value
                                 && forall j :: 0 <= j < k ==> ps[1..][j].id != id;
      assert forall k :: 0 <= k < |ps[1..]| ==> ps[1..][k] == ps[k + 1];
      r
  }

  /** `getPresetById(id)`. */
  function GetPresetById(id: JsString): (r: Option<HanziPreset>)
    ensures r.Some? ==> r.value in Presets && r.value.id == id
    ensures r.None? <==> forall k :: 0 <= k < |Presets| ==> Presets[k].id != id
  {
    FindById(Presets, id)
  }

  /** Each collection's characters, one code unit each. */
  predicate SingleUnits(chars: seq<JsString>)
  {
    forall c :: 0 <= c < |chars| ==> |chars[c]| == 1
  }

  lemma BasicShape()
    ensures Basic.id == [0x62, 0x61, 0x73, 0x69, 0x63]
    ensures |Basic.characters| == 8 && SingleUnits(Basic.characters)
  {
  }

  lemma NatureShape()
    ensures Nature.id == [0x6E, 0x61, 0x74, 0x75, 0x72, 0x65]
    ensures |Nature.characters| == 8 && SingleUnits(Nature.characters)
  {
  }

  lemma AnimalsShape()
    ensures Animals.id == [0x61, 0x6E, 0x69, 0x6D, 0x61, 0x6C, 0x73]
    ensures |Animals.characters| == 7 && SingleUnits(Animals.characters)
  {
  }

  /** No two presets share an id. */
  lemma PresetIdsDistinct()
    ensures forall i, j :: 0 <= i < j < |Presets| ==> Presets[i].id != Presets[j].id
  {
  }

  /** The three collections hold 8, 8 and 7 characters, each a single
      code unit. */
  lemma PresetsWellFormed()
    ensures |Presets| == 3
    ensures |Presets[0].characters| == 8 && |Presets[1].characters| == 8
    ensures |Presets[2].characters| == 7
    ensures forall k :: 0 <= k < |Presets| ==> Presets[k].characters != []
    ensures forall k :: 0 <= k < |Presets| ==> SingleUnits(Presets[k].characters)
  {
    BasicShape();
    NatureShape();
    AnimalsShape();
  }

  /** A successful lookup has exactly one matching entry. */
  lemma LookupUnique(id: JsString)
    requires GetPresetById(id).Some?
    ensures forall k :: 0 <= k < |Presets| && Presets[k].id == id ==> Presets[k] == GetPresetById(id).value
  {
  }

  /** "basic" yields 一 二 三 人 大 小 上 下, and an unknown id yields nothing. */
  lemma LookupExamples()
    ensures GetPresetById(Utf16("basic")).Some?
    ensures GetPresetById(Utf16("basic")).value.characters ==
      [Utf16("一"), Utf16("二"), Utf16("三"), Utf16("人"),
       Utf16("大"), Utf16("小"), Utf16("上"), Utf16("下")]
    ensures GetPresetById(Utf16("xyz")).None?
  {
    PresetIdsDistinct();
    assert Utf16("basic") == Basic.id;
    assert Utf16("xyz") == [0x78, 0x79, 0x7A];
  }
}
