/**
 * JavaScript strings are sequences of UTF-16 code units. The application
 * splits text into code units (`split("")`) and compares strings with `===`,
 * so strings are modelled here as sequences of code units, and the string
 * literals of the program are turned into that form by `Utf16`.
 */
module JsText {

  /** One UTF-16 code unit. */
  type CodeUnit = x: int | 0 <= x < 0x1_0000

  /** A JavaScript string value. */
  type JsString = seq<CodeUnit>

  /** The UTF-16 encoding of one Unicode scalar value: one code unit inside
      the Basic Multilingual Plane, a surrogate pair outside it. */
  function EncodeChar(c: char): (r: JsString)
    ensures (c as int < 0x1_0000) <==> |r| == 1
    ensures |r| == 1 ==> r[0] == c as int
    ensures |r| == 2 ==> 0xD800 <= r[0] < 0xDC00 <= r[1] < 0xE000
  {
    var v := c as int;
    if v < 0x1_0000 then [v]
    else [0xD800 + (v - 0x1_0000) / 0x400, 0xDC00 + (v - 0x1_0000) % 0x400]
  }

  /** The code units of a string literal. */
  function Utf16(s: string): (r: JsString)
    ensures |s| <= |r| <= 2 * |s|
  {
    if s == [] then [] else EncodeChar(s[0]) + Utf16(s[1..])
  }

  /** `parts.join("")`: the concatenation of the parts in order. */
  function Join(parts: seq<JsString>): (r: JsString)
    ensures (forall k :: 0 <= k < |parts| ==> |parts[k]| == 1) ==> |r| == |parts|
  {
    if parts == [] then [] else parts[0] + Join(parts[1..])
  }

  lemma {:induction false} JoinAppend(a: seq<JsString>, b: seq<JsString>)
    ensures Join(a + b) == Join(a) + Join(b)
  {
    if a == [] {
      assert a + b == b;
    } else {
      assert (a + b)[1..] == a[1..] + b;
      JoinAppend(a[1..], b);
    }
  }
}
