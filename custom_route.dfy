/**
 * The custom-input page: the typed text is split into UTF-16 code units,
 * the units in U+4E00..U+9FA5 are kept as one-unit strings, and submitting
 * loads them into the store unless none were found.
 */
module CustomRoute {
  import opened JsText
  import opened HanziStore

  /** The character class the page tests each code unit against: U+4E00
      to U+9FA5 inclusive. It stops short of the end of the CJK Unified
      Ideographs block at U+9FFF. */
  predicate IsHanzi(u: CodeUnit)
  {
    0x4E00 <= u <= 0x9FA5
  }

  /** The recognised characters: each code unit of the input that passes
      `IsHanzi`, as a one-unit string, in input order. */
  function HanziChars(input: JsString): (r: seq<JsString>)
    ensures |r| <= |input|
    ensures forall k :: 0 <= k < |r| ==> |r[k]| == 1 && IsHanzi(r[k][0])
  {
    if input == [] then []
    else (if IsHanzi(input[0]) then [[input[0]]] else []) + HanziChars(input[1..])
  }

  /** Positions of the in-range code units of `input`, in increasing order:
      a reference description of what the filter keeps. */
  ghost function HanziPositions(input: JsString): (p: seq<nat>)
    ensures forall k :: 0 <= k < |p| ==> p[k] < |input| && IsHanzi(input[p[k]])
    ensures forall k, l :: 0 <= k < l < |p| ==> p[k] < p[l]
    ensures forall i :: 0 <= i < |input| && IsHanzi(input[i]) ==> i in p
  {
    if input == [] then []
    else
      var init := input[..|input| - 1];
      var p := HanziPositions(init);
      assert forall k :: 0 <= k < |p| ==> input[p[k]] == init[p[k]];
      assert forall i :: 0 <= i < |init| ==> input[i] == init[i];
      if IsHanzi(input[|input| - 1]) then p + [|input| - 1] else p
  }

  lemma {:induction false} HanziCharsAppend(a: JsString, b: JsString)
    ensures HanziChars(a + b) == HanziChars(a) + HanziChars(b)
  {
    if a == [] {
      assert a + b == b;
    } else {
      assert (a + b)[0] == a[0];
      assert (a + b)[1..] == a[1..] + b;
      HanziCharsAppend(a[1..], b);
    }
  }

  /** The filter keeps exactly the in-range code units, in order:
      its k-th element is the code unit at the k-th in-range position. */
  lemma {:induction false} HanziCharsPicksPositions(input: JsString)
    ensures |HanziChars(input)| == |HanziPositions(input)|
    ensures forall k :: 0 <= k < |HanziChars(input)| ==>
              HanziChars(input)[k] == [input[HanziPositions(input)[k]]]
    decreases |input|
  {
    if input != [] {
      var init, last := input[..|input| - 1], input[|input| - 1];
      assert input == init + [last];
      HanziCharsAppend(init, [last]);
      assert [last][1..] == [];
      HanziCharsPicksPositions(init);
    }
  }

  /** Duplicates are kept: an in-range code unit occurs in the result as
      often as in the input, and nothing else occurs in it. */
  lemma {:induction false} HanziCharsKeepsDuplicates(input: JsString, u: CodeUnit)
    ensures multiset(HanziChars(input))[[u]] == if IsHanzi(u) then multiset(input)[u] else 0
  {
    if input != [] {
      assert input == [input[0]] + input[1..];
      HanziCharsKeepsDuplicates(input[1..], u);
    }
  }

  /** Filtering the joined result again gives the same result. */
  lemma {:induction false} HanziCharsIdempotent(input: JsString)
    ensures HanziChars(Join(HanziChars(input))) == HanziChars(input)
  {
    if input != [] {
      var head := if IsHanzi(input[0]) then [[input[0]]] else [];
      var rest := HanziChars(input[1..]);
      JoinAppend(head, rest);
      HanziCharsAppend(Join(head), Join(rest));
      if IsHanzi(input[0]) {
        assert Join(head) == [input[0]];
        assert HanziChars([input[0]]) == head;
      }
      HanziCharsIdempotent(input[1..]);
    }
  }

  /** "我爱1学习" yields 我, 爱, 学, 习: the digit is dropped. */
  lemma WorkedExample()
    ensures HanziChars(Utf16("我爱1学习")) == [Utf16("我"), Utf16("爱"), Utf16("学"), Utf16("习")]
  {
    var units: JsString := [0x6211, 0x7231, 0x31, 0x5B66, 0x4E60];
    assert Utf16("我爱1学习") == units;
    assert Utf16("我") == [0x6211] && Utf16("爱") == [0x7231];
    assert Utf16("学") == [0x5B66] && Utf16("习") == [0x4E60];
    assert HanziChars(units) == [[0x6211], [0x7231], [0x5B66], [0x4E60]];
  }

  /** Whether the submit button is enabled. */
  predicate SubmitEnabled(input: JsString)
  {
    |HanziChars(input)| != 0
  }

  /** The effect of the submit handler on the store record. */
  function Submit(s: HanziState, input: JsString): (r: HanziState)
    ensures !SubmitEnabled(input) ==> r == s
    ensures SubmitEnabled(input) ==> r.characters == HanziChars(input) && r.currentIndex == 0
    ensures r.mode == s.mode && r.isLoading == s.isLoading
    ensures Invariant(s) ==> Invariant(r)
  {
    var hanziChars := HanziChars(input);
    if |hanziChars| > 0 then WithCharacters(s, hanziChars) else s
  }

  /** The submit handler: loads the recognised characters into the store
      when there is at least one. */
  method HandleSubmit(store: Store, input: JsString)
    modifies store
    ensures store.State() == Submit(old(store.State()), input)
    ensures old(store.Valid()) ==> store.Valid()
  {
    var hanziChars := HanziChars(input);
    if |hanziChars| > 0 {
      store.SetCharacters(hanziChars);
    }
  }
}
