/** String helpers with Python's meaning: `needle in text`, `str.startswith` and `sep.join`. */
module Strings {

  predicate StartsWith(text: string, prefix: string) {
    |prefix| <= |text| && text[..|prefix|] == prefix
  }

  /** Python's substring test `needle in text`. */
  predicate Contains(text: string, needle: string)
    decreases |text|
  {
    StartsWith(text, needle) || (|text| > 0 && Contains(text[1..], needle))
  }

  /** `needle` occurs in `text` starting at index `i`. */
  ghost predicate OccursAt(text: string, needle: string, i: int) {
    0 <= i && i + |needle| <= |text| && text[i..i + |needle|] == needle
  }

  /** The recursive search agrees with the positional definition of a substring. */
  lemma {:induction false} ContainsIffOccurs(text: string, needle: string)
    ensures Contains(text, needle) <==> exists i :: OccursAt(text, needle, i)
    decreases |text|
  {
    if StartsWith(text, needle) {
      assert text[0..|needle|] == text[..|needle|];
      assert OccursAt(text, needle, 0);
    }
    if |text| > 0 {
      ContainsIffOccurs(text[1..], needle);
      if Contains(text[1..], needle) {
        var i :| OccursAt(text[1..], needle, i);
        assert text[1..][i..i + |needle|] == text[i + 1..i + 1 + |needle|];
        assert OccursAt(text, needle, i + 1);
      }
      if !StartsWith(text, needle) && exists i :: OccursAt(text, needle, i) {
        var i :| OccursAt(text, needle, i);
        assert i != 0;
        assert text[1..][i - 1..i - 1 + |needle|] == text[i..i + |needle|];
        assert OccursAt(text[1..], needle, i - 1);
      }
    } else {
      if exists i :: OccursAt(text, needle, i) {
        var i :| OccursAt(text, needle, i);
        assert |needle| == 0;
        assert needle == [] && text[..0] == [];
        assert StartsWith(text, needle);
      }
    }
  }

  /** Whatever stands between a prefix and a suffix is a substring of the whole. */
  lemma InfixContained(before: string, needle: string, after: string)
    ensures Contains(before + needle + after, needle)
  {
    var text := before + needle + after;
    assert text[|before|..|before| + |needle|] == needle;
    assert OccursAt(text, needle, |before|);
    ContainsIffOccurs(text, needle);
  }

  /** The first and the last of three concatenated pieces occur in the whole. */
  lemma OuterPiecesContained(a: string, b: string, c: string)
    ensures Contains(a + b + c, a) && Contains(a + b + c, c)
  {
    InfixContained([], a, b + c);
    assert [] + a + (b + c) == a + b + c;
    InfixContained(a + b, c, []);
    assert a + b + c + [] == a + b + c;
  }

  /** A needle longer than the text never occurs in it. */
  lemma LongerNeverContained(text: string, needle: string)
    requires |text| < |needle|
    ensures !Contains(text, needle)
  {
    ContainsIffOccurs(text, needle);
  }

  /** A needle holding a character the text lacks never occurs in it. */
  lemma AbsentCharNotContained(text: string, needle: string, k: nat)
    requires k < |needle| && needle[k] !in text
    ensures !Contains(text, needle)
  {
    ContainsIffOccurs(text, needle);
  }

  /** Python's `sep.join(parts)`. */
  function Join(sep: string, parts: seq<string>): string {
    if parts == [] then ""
    else if |parts| == 1 then parts[0]
    else parts[0] + sep + Join(sep, parts[1..])
  }
}
