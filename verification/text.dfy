/** The string operations the pages rely on: `toLowerCase`, `includes`,
    `split(' ')[0]`, `trim`, and the regular-expression rewrites that turn a
    metric key into a display label.  Case mapping covers ASCII letters only. */
module Text {

  function LowerChar(c: char): char
  {
    if 'A' <= c <= 'Z' then (c as int + 32) as char else c
  }

  function UpperChar(c: char): char
  {
    if 'a' <= c <= 'z' then (c as int - 32) as char else c
  }

  /** `String.prototype.toLowerCase`, on ASCII letters. */
  function ToLower(s: string): (r: string)
    ensures |r| == |s|
    ensures forall i :: 0 <= i < |s| ==> r[i] == LowerChar(s[i])
  {
    if s == [] then [] else [LowerChar(s[0])] + ToLower(s[1..])
  }

  /** `t` occurs in `s` starting at index `i`. */
  predicate OccursAt(s: string, t: string, i: int)
  {
    0 <= i && i + |t| <= |s| && s[i..i + |t|] == t
  }

  /** `s.includes(t)`: `t` is a substring of `s` (the empty string always is). */
  function Contains(s: string, t: string): (r: bool)
    ensures r <==> exists i :: OccursAt(s, t, i)
  {
    if |t| > |s| then false
    else if s[..|t|] == t then
      assert OccursAt(s, t, 0);
      true
    else
      var r := Contains(s[1..], t);
      assert r ==> exists i :: OccursAt(s, t, i) by {
        if r {
          var j :| OccursAt(s[1..], t, j);
          assert s[1..][j..j + |t|] == s[j + 1..j + 1 + |t|];
          assert OccursAt(s, t, j + 1);
        }
      }
      assert (exists i :: OccursAt(s, t, i)) ==> r by {
        if exists i :: OccursAt(s, t, i) {
          var i :| OccursAt(s, t, i);
          assert i != 0;
          assert s[1..][i - 1..i - 1 + |t|] == s[i..i + |t|];
          assert OccursAt(s[1..], t, i - 1);
        }
      }
      r
  }

  /** Case-insensitive `includes`, as both pages and the region regex use it. */
  predicate ContainsIgnoreCase(s: string, t: string)
  {
    Contains(ToLower(s), ToLower(t))
  }

  /** `s.split(' ')[0]`: the text before the first space (all of `s` if none). */
  function FirstToken(s: string): (r: string)
    ensures r <= s
    ensures ' ' !in r
    ensures |r| < |s| ==> s[|r|] == ' '
  {
    if s == [] || s[0] == ' ' then [] else [s[0]] + FirstToken(s[1..])
  }

  /** The characters `String.prototype.trim` removes (white space and line
      terminators of ECMA-262). */
  predicate IsSpace(c: char)
  {
    || c == ' ' || c == '\t' || c == '\n' || c == '\r'
    || c == '\U{000B}' || c == '\U{000C}' || c == '\U{00A0}' || c == '\U{1680}'
    || ('\U{2000}' <= c <= '\U{200A}')
    || c == '\U{2028}' || c == '\U{2029}' || c == '\U{202F}' || c == '\U{205F}'
    || c == '\U{3000}' || c == '\U{FEFF}'
  }

  function TrimStart(s: string): (r: string)
    ensures r == [] || !IsSpace(r[0])
    ensures exists k :: 0 <= k <= |s| && r == s[k..] && forall j :: 0 <= j < k ==> IsSpace(s[j])
  {
    if s != [] && IsSpace(s[0]) then
      var r := TrimStart(s[1..]);
      var k :| 0 <= k <= |s[1..]| && r == s[1..][k..] && forall j :: 0 <= j < k ==> IsSpace(s[1..][j]);
      assert r == s[k + 1..];
      r
    else
      assert s == s[0..];
      s
  }

  function TrimEnd(s: string): (r: string)
    ensures r == [] || !IsSpace(r[|r| - 1])
    ensures r <= s
    ensures forall j :: |r| <= j < |s| ==> IsSpace(s[j])
  {
    if s != [] && IsSpace(s[|s| - 1]) then TrimEnd(s[..|s| - 1]) else s
  }

  /** `r` is `s` with only white space cut away: the first `k` characters and
      everything after `r` are white space. */
  predicate TrimmedAt(s: string, r: string, k: int)
  {
    && 0 <= k <= |s| && r <= s[k..]
    && (forall j :: 0 <= j < k ==> IsSpace(s[j]))
    && (forall j :: k + |r| <= j < |s| ==> IsSpace(s[j]))
  }

  /** `String.prototype.trim`: no white space is left at either end, and only
      white space was removed. */
  function Trim(s: string): (r: string)
    ensures r == [] || (!IsSpace(r[0]) && !IsSpace(r[|r| - 1]))
    ensures exists k :: TrimmedAt(s, r, k)
  {
    var t := TrimStart(s);
    var k :| 0 <= k <= |s| && t == s[k..] && forall j :: 0 <= j < k ==> IsSpace(s[j]);
    var r := TrimEnd(t);
    assert TrimmedAt(s, r, k) by {
      forall j | k + |r| <= j < |s| ensures IsSpace(s[j]) {
        assert s[j] == t[j - k];
      }
    }
    r
  }

  /** `s.replace(/_/g, ' ')`. */
  function UnderscoresToSpaces(s: string): (r: string)
    ensures |r| == |s|
    ensures '_' !in r
    ensures forall i :: 0 <= i < |s| ==> r[i] == (if s[i] == '_' then ' ' else s[i])
  {
    if s == [] then [] else [if s[0] == '_' then ' ' else s[0]] + UnderscoresToSpaces(s[1..])
  }

  /** `s` starts with `w`, ignoring ASCII case. */
  predicate StartsWithIgnoreCase(s: string, w: string)
  {
    |w| <= |s| && ToLower(s[..|w|]) == ToLower(w)
  }

  /** The length of the match of `/score|rating/i` at the start of `s`, or 0. */
  function ScoreWordAt(s: string): (n: nat)
    ensures n == 0 || n == 5 || n == 6
    ensures n <= |s|
  {
    if StartsWithIgnoreCase(s, "score") then 5
    else if StartsWithIgnoreCase(s, "rating") then 6
    else 0
  }

  /** The leftmost index at or after `from` where `/score|rating/i` matches,
      or `|s|` when it matches nowhere. */
  function LeftmostScoreWord(s: string, from: nat): (i: nat)
    requires from <= |s|
    ensures from <= i <= |s|
    ensures i < |s| ==> ScoreWordAt(s[i..]) > 0
    ensures forall j :: from <= j < i ==> ScoreWordAt(s[j..]) == 0
    decreases |s| - from
  {
    if from == |s| || ScoreWordAt(s[from..]) > 0 then from else LeftmostScoreWord(s, from + 1)
  }

  /** The pattern `/score|rating/i` matches at `i` and at no earlier index. */
  predicate FirstScoreWordAt(s: string, i: int)
  {
    && 0 <= i < |s|
    && ScoreWordAt(s[i..]) > 0
    && forall j :: 0 <= j < i ==> ScoreWordAt(s[j..]) == 0
  }

  /** `s.replace(/score|rating/i, '')`: removes the leftmost occurrence of
      "score" or "rating" in any letter case; `s` is unchanged when there is
      none. */
  function RemoveScoreWord(s: string): (r: string)
    ensures (forall j :: 0 <= j < |s| ==> ScoreWordAt(s[j..]) == 0) <==> r == s
    ensures forall i :: FirstScoreWordAt(s, i) ==> r == s[..i] + s[i + ScoreWordAt(s[i..])..]
  {
    var i := LeftmostScoreWord(s, 0);
    LeftmostIsFirst(s);
    if i == |s| then s else s[..i] + s[i + ScoreWordAt(s[i..])..]
  }

  /** The leftmost match is the only first match. */
  lemma LeftmostIsFirst(s: string)
    ensures forall j :: FirstScoreWordAt(s, j) ==> j == LeftmostScoreWord(s, 0)
  {
    var i := LeftmostScoreWord(s, 0);
    forall j | FirstScoreWordAt(s, j) ensures j == i {
      if j < i {
        assert false;
      } else if i < j {
        assert false;
      }
    }
  }

  predicate IsWordChar(c: char)
  {
    ('a' <= c <= 'z') || ('A' <= c <= 'Z') || ('0' <= c <= '9') || c == '_'
  }

  /** `s.replace(/\b\w/g, c => c.toUpperCase())`: every word character that
      starts a word is upper-cased; nothing else changes. */
  function CapitalizeWords(s: string): (r: string)
    ensures |r| == |s|
    ensures forall i :: 0 <= i < |s| ==>
              r[i] == (if IsWordChar(s[i]) && (i == 0 || !IsWordChar(s[i - 1])) then UpperChar(s[i]) else s[i])
  {
    seq(|s|, i requires 0 <= i < |s| =>
      if IsWordChar(s[i]) && (i == 0 || !IsWordChar(s[i - 1])) then UpperChar(s[i]) else s[i])
  }
}
