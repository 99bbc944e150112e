/** Case-sensitive text tests on strings as sequences of characters. */
module Text {

  /** JavaScript's `s.includes(sub)`, scanning the offsets of `s` from the left. */
  function Contains(s: string, sub: string): bool
    decreases |s|
  {
    if sub <= s then true
    else if s == [] then false
    else Contains(s[1..], sub)
  }

  /** `Contains` holds exactly when `sub` occurs in `s` at some offset
    * (the empty string occurs everywhere). */
  lemma {:induction false} ContainsIff(s: string, sub: string)
    ensures Contains(s, sub) <==> exists i :: 0 <= i <= |s| && sub <= s[i..]
    decreases |s|
  {
    if sub <= s {
      assert sub <= s[0..];
    } else if s != [] {
      ContainsIff(s[1..], sub);
      if Contains(s, sub) {
        var j :| 0 <= j <= |s[1..]| && sub <= s[1..][j..];
        assert s[1..][j..] == s[j + 1..];
      }
      if exists i :: 0 <= i <= |s| && sub <= s[i..] {
        var i :| 0 <= i <= |s| && sub <= s[i..];
        assert i != 0;
        assert s[1..][i - 1..] == s[i..];
      }
    }
  }

  /** An occurrence at a given offset makes `Contains` true. */
  lemma ContainsAt(s: string, sub: string, i: nat)
    requires i <= |s| && sub <= s[i..]
    ensures Contains(s, sub)
  {
    ContainsIff(s, sub);
  }

  /** Every character of an occurring `sub` is a character of `s`. */
  lemma ContainsCharsIn(s: string, sub: string, c: char)
    requires Contains(s, sub)
    requires c in sub
    ensures c in s
  {
    ContainsIff(s, sub);
    var i :| 0 <= i <= |s| && sub <= s[i..];
    var j :| 0 <= j < |sub| && sub[j] == c;
    assert s[i + j] == c;
  }

  /** `word` does not occur in `s` when one of its characters is missing from `s`:
    * how a keyword is shown absent from a fixed issue text. */
  lemma Absent(s: string, word: string, c: char)
    requires c in word && c !in s
    ensures !Contains(s, word)
  {
    if Contains(s, word) {
      ContainsCharsIn(s, word, c);
    }
  }

  /** A text that contains `own` at offset `at` and has none of the characters
    * `c1`, `c2`, `c3` contains `own` and none of the keywords `w1`, `w2`, `w3`
    * those characters come from. */
  lemma OnlyKeyword(s: string, own: string, at: nat, w1: string, c1: char, w2: string, c2: char, w3: string, c3: char)
    requires at <= |s| && own <= s[at..]
    requires c1 in w1 && c2 in w2 && c3 in w3
    requires forall i :: 0 <= i < |s| ==> s[i] != c1 && s[i] != c2 && s[i] != c3
    ensures Contains(s, own)
    ensures !Contains(s, w1) && !Contains(s, w2) && !Contains(s, w3)
  {
    ContainsAt(s, own, at);
    Absent(s, w1, c1);
    Absent(s, w2, c2);
    Absent(s, w3, c3);
  }

  /** Python's `s.endswith(suffix)`. */
  function EndsWith(s: string, suffix: string): (r: bool)
    ensures r ==> |suffix| <= |s| && s == s[..|s| - |suffix|] + suffix
  {
    |suffix| <= |s| && s[|s| - |suffix|..] == suffix
  }

  /** Any text followed by `suffix` ends with it, and nothing shorter does. */
  lemma EndsWithConcat(prefix: string, suffix: string)
    ensures EndsWith(prefix + suffix, suffix)
    ensures forall t :: |t| < |suffix| ==> !EndsWith(t, suffix)
  {
    assert (prefix + suffix)[|prefix|..] == suffix;
  }
}
