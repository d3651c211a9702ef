/**
 * The three pieces of `std::string` behaviour the notebook relies on:
 * lower-casing with `::tolower`, `std::string::find`, and the
 * lexicographic `operator<` used to compare `YYYY-MM-DD` dates.
 */
module Text {
  import opened Wrappers

  /** `::tolower` in the "C" locale: only ASCII 'A'..'Z' are changed. */
  function LowerChar(c: char): char {
    if 'A' <= c <= 'Z' then (c as int - 'A' as int + 'a' as int) as char else c
  }

  /**
   * `std::transform(s.begin(), s.end(), s.begin(), ::tolower)`: every
   * character is lower-cased in place, the length is kept.
   */
  function ToLower(s: string): (r: string)
    ensures |r| == |s|
    ensures forall i :: 0 <= i < |s| ==> r[i] == LowerChar(s[i])
  {
    if s == [] then [] else [LowerChar(s[0])] + ToLower(s[1..])
  }

  /** Lower-casing twice changes nothing more. */
  lemma ToLowerIdempotent(s: string)
    ensures ToLower(ToLower(s)) == ToLower(s)
  {
    var once := ToLower(s);
    assert forall i :: 0 <= i < |s| ==> LowerChar(once[i]) == once[i];
  }

  /** Lower-casing works character by character, so it distributes over concatenation. */
  lemma ToLowerAppend(a: string, b: string)
    ensures ToLower(a + b) == ToLower(a) + ToLower(b)
  {
    assert forall i :: 0 <= i < |a + b| ==> ToLower(a + b)[i] == (ToLower(a) + ToLower(b))[i];
  }

  /** `needle` occurs in `hay` starting at position `i`. */
  ghost predicate OccursAt(hay: string, needle: string, i: int) {
    0 <= i && i + |needle| <= |hay| && hay[i..i + |needle|] == needle
  }

  /** `needle` is a substring of `hay`. */
  ghost predicate Occurs(hay: string, needle: string) {
    exists i :: OccursAt(hay, needle, i)
  }

  /**
   * `hay.find(needle, from)`: the first position at or after `from` where
   * `needle` occurs, or `None` for `std::string::npos`.
   */
  function FindFrom(hay: string, needle: string, from: nat): (r: Option<nat>)
    ensures r.Some? ==> from <= r.value && OccursAt(hay, needle, r.value)
    ensures r.Some? ==> forall j :: from <= j < r.value ==> !OccursAt(hay, needle, j)
    ensures r.None? ==> forall j :: from <= j ==> !OccursAt(hay, needle, j)
    decreases |hay| - from
  {
    if from + |needle| > |hay| then None
    else if hay[from..from + |needle|] == needle then Some(from)
    else FindFrom(hay, needle, from + 1)
  }

  /** `hay.find(needle) != std::string::npos`. */
  predicate Contains(hay: string, needle: string) {
    FindFrom(hay, needle, 0).Some?
  }

  /** `Contains` is exactly "occurs somewhere". */
  lemma ContainsIff(hay: string, needle: string)
    ensures Contains(hay, needle) <==> Occurs(hay, needle)
  {
    var r := FindFrom(hay, needle, 0);
    if r.Some? {
      assert OccursAt(hay, needle, r.value);
    }
  }

  /** The empty string is found in every string, the empty one included. */
  lemma ContainsEmpty(hay: string)
    ensures Contains(hay, [])
  {
    assert OccursAt(hay, [], 0);
  }

  /** A word is found, lower-cased, in the lower-cased form of any text that contains it. */
  lemma FoundInside(before: string, word: string, after: string)
    ensures Contains(ToLower(before + word + after), ToLower(word))
  {
    ToLowerAppend(before + word, after);
    ToLowerAppend(before, word);
    var lowered := ToLower(before) + ToLower(word) + ToLower(after);
    assert lowered[|before|..|before| + |word|] == ToLower(word);
    assert OccursAt(lowered, ToLower(word), |before|);
    ContainsIff(lowered, ToLower(word));
  }

  /** A needle holding a character the haystack lacks is not found in it. */
  lemma NotFoundWithout(hay: string, needle: string, c: char)
    requires c in needle && c !in hay
    ensures !Contains(hay, needle)
  {
    ContainsIff(hay, needle);
  }

  /**
   * `std::string` `operator<`: lexicographic comparison of character codes,
   * a proper prefix ordering before the longer string.
   */
  predicate Less(a: string, b: string)
    decreases |a|
  {
    if a == [] then b != []
    else if b == [] then false
    else if a[0] != b[0] then a[0] < b[0]
    else Less(a[1..], b[1..])
  }

  /** `std::string` `operator>=`. */
  predicate AtLeast(a: string, b: string) {
    !Less(a, b)
  }

  /** The first position at which `a` and `b` differ sorts them. */
  ghost predicate FirstDifferenceBelow(a: string, b: string) {
    (|a| < |b| && a == b[..|a|])
    || exists k :: 0 <= k < |a| && k < |b| && a[..k] == b[..k] && a[k] < b[k]
  }

  /** `Less` agrees with the textbook definition of lexicographic order. */
  lemma {:induction false} LessIff(a: string, b: string)
    ensures Less(a, b) <==> FirstDifferenceBelow(a, b)
    decreases |a|
  {
    if a == [] {
      assert b != [] ==> a == b[..0];
    } else if b == [] {
    } else if a[0] != b[0] {
      if a[0] < b[0] {
        assert a[..0] == b[..0];
      }
    } else {
      LessIff(a[1..], b[1..]);
      if FirstDifferenceBelow(a[1..], b[1..]) {
        if |a[1..]| < |b[1..]| && a[1..] == b[1..][..|a[1..]|] {
          assert a == b[..|a|];
        } else {
          var k :| 0 <= k < |a[1..]| && k < |b[1..]| && a[1..][..k] == b[1..][..k] && a[1..][k] < b[1..][k];
          assert a[..k + 1] == [a[0]] + a[1..][..k];
          assert b[..k + 1] == [b[0]] + b[1..][..k];
        }
      }
      if FirstDifferenceBelow(a, b) {
        if |a| < |b| && a == b[..|a|] {
          assert a[1..] == b[1..][..|a[1..]|];
        } else {
          var k :| 0 <= k < |a| && k < |b| && a[..k] == b[..k] && a[k] < b[k];
          assert k != 0;
          assert a[1..][..k - 1] == a[1..k] == b[1..k] == b[1..][..k - 1];
          assert a[1..][k - 1] < b[1..][k - 1];
        }
      }
    }
  }

  lemma {:induction false} LessIrreflexive(a: string)
    ensures !Less(a, a)
    decreases |a|
  {
    if a != [] {
      LessIrreflexive(a[1..]);
    }
  }

  lemma {:induction false} LessTransitive(a: string, b: string, c: string)
    requires Less(a, b) && Less(b, c)
    ensures Less(a, c)
    decreases |a|
  {
    if a != [] && a[0] == b[0] && b[0] == c[0] {
      LessTransitive(a[1..], b[1..], c[1..]);
    }
  }

  /** Any two different strings are ordered one way or the other. */
  lemma {:induction false} LessTotal(a: string, b: string)
    requires a != b
    ensures Less(a, b) || Less(b, a)
    decreases |a|
  {
    if a != [] && b != [] && a[0] == b[0] {
      assert a == [a[0]] + a[1..] && b == [b[0]] + b[1..];
      LessTotal(a[1..], b[1..]);
    }
  }

  /** `operator>=` is transitive, which makes a later cut-off date select fewer notes. */
  lemma AtLeastTransitive(a: string, b: string, c: string)
    requires AtLeast(a, b) && AtLeast(b, c)
    ensures AtLeast(a, c)
  {
    if Less(a, c) {
      if a == b {
      } else {
        LessTotal(a, b);
        LessTransitive(b, a, c);
      }
    }
  }
}
