/**
 * The search box of components/project-card.tsx: `toLowerCase` on both sides
 * and `String.prototype.includes`.
 *
 * Lower-casing covers the capitals of ASCII and of Latin-1 (À to Þ, without
 * the multiplication sign), which is every capital a French title is written
 * with; the rest of Unicode case mapping is not modelled.
 */
module TextSearch {

  /** A capital letter that `toLowerCase` maps 32 code points up. */
  predicate IsUpper(c: char) {
    ('A' <= c <= 'Z') || ('\U{C0}' <= c <= '\U{DE}' && c != '\U{D7}')
  }

  /** `toLowerCase` on one character. */
  function LowerChar(c: char): (r: char)
    ensures !IsUpper(r)
    ensures IsUpper(c) ==> r as int == c as int + 32
    ensures !IsUpper(c) ==> r == c
  {
    if IsUpper(c) then (c as int + 32) as char else c
  }

  /** `s.toLowerCase()`, character by character. */
  function Lower(s: string): (r: string)
    ensures |r| == |s|
    ensures forall i :: 0 <= i < |s| ==> r[i] == LowerChar(s[i])
  {
    seq(|s|, i requires 0 <= i < |s| => LowerChar(s[i]))
  }

  /** Lower-casing twice changes nothing more. */
  lemma LowerIdempotent(s: string)
    ensures Lower(Lower(s)) == Lower(s)
  {
    assert forall i :: 0 <= i < |s| ==> LowerChar(LowerChar(s[i])) == LowerChar(s[i]);
  }

  /** Lower-casing commutes with taking a slice. */
  lemma LowerSlice(s: string, i: nat, j: nat)
    requires i <= j <= |s|
    ensures Lower(s[i..j]) == Lower(s)[i..j]
  {
  }

  /** `q` sits in `s` at position `i`. */
  ghost predicate At(s: string, q: string, i: int) {
    0 <= i && i + |q| <= |s| && s[i..i + |q|] == q
  }

  /** `q` occurs somewhere in `s`: the meaning of `s.includes(q)`. */
  ghost predicate Occurs(s: string, q: string) {
    exists i :: At(s, q, i)
  }

  /** `s` starts with `q`. */
  predicate StartsWith(s: string, q: string) {
    |q| <= |s| && s[..|q|] == q
  }

  /** `s.includes(q)`: tries every starting position from the left. */
  function Includes(s: string, q: string): bool
    decreases |s|
  {
    StartsWith(s, q) || (|s| > 0 && Includes(s[1..], q))
  }

  /** The search finds `q` exactly when `q` occurs in `s`. */
  lemma {:induction false} IncludesIffOccurs(s: string, q: string)
    ensures Includes(s, q) <==> Occurs(s, q)
    decreases |s|
  {
    if StartsWith(s, q) {
      assert At(s, q, 0);
    } else if |s| > 0 {
      IncludesIffOccurs(s[1..], q);
      if Occurs(s[1..], q) {
        var i :| At(s[1..], q, i);
        assert s[1..][i..i + |q|] == s[i + 1..i + 1 + |q|];
        assert At(s, q, i + 1);
      }
      if Occurs(s, q) {
        var i :| At(s, q, i);
        assert i != 0;
        assert s[1..][i - 1..i - 1 + |q|] == s[i..i + |q|];
        assert At(s[1..], q, i - 1);
      }
    }
  }

  /** The empty query is found in every text. */
  lemma EmptyQueryFound(s: string)
    ensures Includes(s, "")
  {
    assert StartsWith(s, "");
  }

  /** A text found in `s` is still found once both are lower-cased: the search ignores case. */
  lemma FoundIgnoringCase(s: string, q: string)
    requires Includes(s, q)
    ensures Includes(Lower(s), Lower(q))
  {
    IncludesIffOccurs(s, q);
    var i :| At(s, q, i);
    LowerSlice(s, i, i + |q|);
    assert At(Lower(s), Lower(q), i);
    IncludesIffOccurs(Lower(s), Lower(q));
  }
}
