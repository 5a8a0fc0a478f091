/** Extraction of the quoted payload of `key = "..."` from a page
    (the `*_PATTERN` regexes `key = "([^"]*)"` of src/api.rs, and their
    `captures(..).get(1)`). The regex engine is replaced by a direct
    search with the same leftmost-match result. */
module Scrape {
  import opened Wrappers

  /** `pat` occurs in `s` starting at index `i`. */
  predicate StartsAt(s: string, pat: string, i: nat) {
    i + |pat| <= |s| && s[i..i + |pat|] == pat
  }

  /** The first index at or after `from` where `pat` occurs, if any. */
  function Find(s: string, pat: string, from: nat): (r: Option<nat>)
    requires from <= |s|
    ensures r.Some? ==> from <= r.value && StartsAt(s, pat, r.value)
    ensures r.Some? ==> forall j :: from <= j < r.value ==> !StartsAt(s, pat, j)
    ensures r.None? ==> forall j :: from <= j <= |s| ==> !StartsAt(s, pat, j)
    decreases |s| - from
  {
    if StartsAt(s, pat, from) then Some(from)
    else if from == |s| then None
    else Find(s, pat, from + 1)
  }

  /** The literal text that precedes the payload: `key = "`. */
  function Opening(key: string): string {
    key + " = \""
  }

  /** The capture group of the first match of `key = "([^"]*)"` in `text`:
      the text after the first `key = "` up to the next `"`. */
  function Capture(text: string, key: string): (r: Option<string>)
    ensures r.Some? ==> '"' !in r.value && |r.value| < |text|
  {
    var open := Opening(key);
    match Find(text, open, 0)
    case None => None
    case Some(i) =>
      match Find(text, "\"", i + |open|)
      case None => None
      case Some(j) =>
        assert forall k :: i + |open| <= k < j ==> text[k] != '"' by {
          forall k | i + |open| <= k < j ensures text[k] != '"' {
            assert !StartsAt(text, "\"", k);
            assert text[k..k + 1] == [text[k]];
          }
        }
        Some(text[i + |open|..j])
  }

  /** Reference semantics: the regex `key = "([^"]*)"` matches at index `i`
      with capture `v`. */
  predicate MatchAt(text: string, key: string, i: nat, v: string) {
    StartsAt(text, Opening(key) + v + "\"", i) && '"' !in v
  }

  /** `v` is the capture of the leftmost match. */
  ghost predicate LeftmostMatch(text: string, key: string, v: string) {
    exists i: nat :: MatchAt(text, key, i, v) &&
      forall i': nat, v': string :: i' < i ==> !MatchAt(text, key, i', v')
  }

  lemma MatchAtOpening(text: string, key: string, i: nat, v: string)
    requires MatchAt(text, key, i, v)
    ensures StartsAt(text, Opening(key), i)
    ensures i + |Opening(key)| + |v| < |text|
    ensures text[i + |Opening(key)| + |v|] == '"'
    ensures text[i + |Opening(key)|..i + |Opening(key)| + |v|] == v
  {
    var open := Opening(key);
    var m := open + v + "\"";
    assert text[i..i + |m|] == m;
    assert m[..|open|] == open && m[|open|..|open| + |v|] == v && m[|open| + |v|] == '"';
    assert text[i..i + |open|] == text[i..i + |m|][..|open|];
    forall k | 0 <= k < |v| ensures text[i + |open| + k] == v[k] {
      assert text[i + |open| + k] == text[i..i + |m|][|open| + k];
    }
    assert text[i + |open| + |v|] == text[i..i + |m|][|open| + |v|];
  }

  /** Two matches at the same index have the same capture: `[^"]*` stops at
      the first quote. */
  lemma MatchAtUnique(text: string, key: string, i: nat, v: string, w: string)
    requires MatchAt(text, key, i, v) && MatchAt(text, key, i, w)
    ensures v == w
  {
    MatchAtOpening(text, key, i, v);
    MatchAtOpening(text, key, i, w);
    var b := i + |Opening(key)|;
    if |v| < |w| {
      assert false;
    } else if |w| < |v| {
      assert false;
    }
    assert v == text[b..b + |v|] == w;
  }

  /** A successful capture is the capture of a match at the first `key = "`. */
  lemma CaptureMatches(text: string, key: string)
    requires Capture(text, key).Some?
    ensures exists i: nat :: Find(text, Opening(key), 0) == Some(i) &&
                             MatchAt(text, key, i, Capture(text, key).value)
  {
    var open := Opening(key);
    var i := Find(text, open, 0).value;
    var j := Find(text, "\"", i + |open|).value;
    var v := text[i + |open|..j];
    assert Capture(text, key) == Some(v);
    var m := open + v + "\"";
    assert text[i..i + |open|] == open;
    assert text[j..j + 1] == "\"";
    assert text[i..i + |m|] == text[i..i + |open|] + text[i + |open|..j] + text[j..j + 1];
    assert MatchAt(text, key, i, v);
  }

  /** The regex has a match exactly when the capture is present. */
  lemma {:induction false} CaptureNoneIffNoMatch(text: string, key: string)
    ensures Capture(text, key).None? <==> forall i: nat, v: string :: !MatchAt(text, key, i, v)
  {
    if Capture(text, key).Some? {
      CaptureMatches(text, key);
    } else {
      forall i: nat, v: string ensures !MatchAt(text, key, i, v) {
        if MatchAt(text, key, i, v) {
          var open := Opening(key);
          MatchAtOpening(text, key, i, v);
          var i1 := Find(text, open, 0).value;
          assert i1 <= i;
          var q := if i1 == i then i + |open| + |v| else i + |open| - 1;
          assert text[q..q + 1] == "\"";
          assert StartsAt(text, "\"", q);
          assert false;
        }
      }
    }
  }

  /** The extraction returns exactly the capture of the leftmost match of
      `key = "([^"]*)"`. */
  lemma {:induction false} CaptureIsLeftmostMatch(text: string, key: string, v: string)
    ensures Capture(text, key) == Some(v) <==> LeftmostMatch(text, key, v)
  {
    var open := Opening(key);
    if Capture(text, key) == Some(v) {
      CaptureMatches(text, key);
      var i :| Find(text, open, 0) == Some(i) && MatchAt(text, key, i, v);
      forall i': nat, v': string | i' < i ensures !MatchAt(text, key, i', v') {
        if MatchAt(text, key, i', v') {
          MatchAtOpening(text, key, i', v');
        }
      }
    }
    if LeftmostMatch(text, key, v) {
      var i: nat :| MatchAt(text, key, i, v) &&
        forall i': nat, v': string :: i' < i ==> !MatchAt(text, key, i', v');
      CaptureNoneIffNoMatch(text, key);
      CaptureMatches(text, key);
      var i1: nat :| Find(text, open, 0) == Some(i1) && MatchAt(text, key, i1, Capture(text, key).value);
      MatchAtOpening(text, key, i, v);
      assert i1 <= i;
      assert !(i1 < i);
      MatchAtUnique(text, key, i, v, Capture(text, key).value);
    }
  }
}
