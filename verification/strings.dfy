/**
 * The JavaScript string operations the controller and the demo filter rely
 * on: `length` in UTF-16 code units, `toLowerCase` restricted to ASCII
 * letters, and `includes` (substring search).
 */
module JsStrings {

  /** The UTF-16 code units that encode `c`: two for a character outside the Basic Multilingual Plane. */
  function CodeUnits(c: char): (n: nat)
    ensures 1 <= n <= 2
    ensures n == 2 <==> c as int > 0xFFFF
  {
    if c as int > 0xFFFF then 2 else 1
  }

  /** `s.length`: the number of UTF-16 code units, not of characters. */
  function JsLength(s: string): (n: nat)
    ensures |s| <= n <= 2 * |s|
    ensures n == 0 <==> s == []
    ensures n == |s| <==> forall i :: 0 <= i < |s| ==> s[i] as int <= 0xFFFF
    ensures |s| == 1 ==> n == CodeUnits(s[0])
    decreases |s|
  {
    if s == [] then 0
    else
      var n := CodeUnits(s[0]) + JsLength(s[1..]);
      assert (forall i :: 0 <= i < |s| ==> s[i] as int <= 0xFFFF)
             <==> s[0] as int <= 0xFFFF && forall i :: 0 <= i < |s[1..]| ==> s[1..][i] as int <= 0xFFFF
      by {
        forall i | 0 < i < |s| ensures s[i] == s[1..][i - 1] { }
      }
      n
  }

  /**
   * `length` is additive over concatenation; with the single-character case
   * and the empty string this fixes it as the sum of the code units of the
   * characters.
   */
  lemma {:induction false} JsLengthAppend(a: string, b: string)
    ensures JsLength(a + b) == JsLength(a) + JsLength(b)
    decreases |a|
  {
    if a == [] {
      assert a + b == b;
    } else {
      assert (a + b)[0] == a[0];
      assert (a + b)[1..] == a[1..] + b;
      JsLengthAppend(a[1..], b);
    }
  }

  /** True iff `c` is an upper-case ASCII letter. */
  predicate IsUpper(c: char) {
    'A' <= c <= 'Z'
  }

  /** Lower-cases one character; only ASCII letters are folded. */
  function LowerChar(c: char): (d: char)
    ensures !IsUpper(d)
    ensures IsUpper(c) ==> d as int - c as int == 'a' as int - 'A' as int
    ensures !IsUpper(c) ==> d == c
  {
    if IsUpper(c) then (c as int + ('a' as int - 'A' as int)) as char else c
  }

  /** `s.toLowerCase()`, with ASCII case folding only. */
  function Lower(s: string): (r: string)
    ensures |r| == |s|
    ensures forall i :: 0 <= i < |s| ==> r[i] == LowerChar(s[i])
  {
    seq(|s|, i requires 0 <= i < |s| => LowerChar(s[i]))
  }

  /** Lower-casing twice is lower-casing once. */
  lemma LowerIdempotent(s: string)
    ensures Lower(Lower(s)) == Lower(s)
  {
    var l := Lower(s);
    assert forall i :: 0 <= i < |l| ==> LowerChar(l[i]) == l[i];
  }

  /** `t` occurs in `s` starting at offset `i`. */
  ghost predicate OccursAt(s: string, t: string, i: int) {
    0 <= i && i + |t| <= |s| && s[i..i + |t|] == t
  }

  /** Reference definition of substring containment: `t` occurs in `s` at some offset. */
  ghost predicate Contains(s: string, t: string) {
    exists i :: OccursAt(s, t, i)
  }

  /** An occurrence past the first character is an occurrence in the tail, one offset earlier. */
  lemma OccursAtShift(s: string, t: string, i: int)
    requires 0 < i && i + |t| <= |s|
    ensures OccursAt(s, t, i) <==> OccursAt(s[1..], t, i - 1)
  {
    assert s[i..i + |t|] == s[1..][i - 1..i - 1 + |t|];
  }

  /** `s.includes(t)`: searches `t` at every offset of `s`, left to right. */
  function Includes(s: string, t: string): (b: bool)
    ensures b <==> Contains(s, t)
    decreases |s|
  {
    if |t| > |s| then
      assert forall i :: !OccursAt(s, t, i);
      false
    else if s[..|t|] == t then
      assert OccursAt(s, t, 0);
      true
    else
      var b := Includes(s[1..], t);
      if b then
        assert Contains(s, t) by {
          var i :| OccursAt(s[1..], t, i);
          OccursAtShift(s, t, i + 1);
        }
        b
      else
        assert !Contains(s, t) by {
          forall i | OccursAt(s, t, i)
            ensures false
          {
            if i > 0 {
              OccursAtShift(s, t, i);
            }
          }
        }
        b
  }

  /** The empty string occurs in every string, as `"".includes("")` and `s.includes("")` are true. */
  lemma IncludesEmpty(s: string)
    ensures Includes(s, "")
  {
    assert OccursAt(s, "", 0);
  }
}
