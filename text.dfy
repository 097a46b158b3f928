/** The `icontains` lookup: substring match that ignores letter case.
    Case folding is ASCII only (A-Z to a-z). */
module Text {

  function Lower(c: char): char {
    if 'A' <= c <= 'Z' then (c as int + 32) as char else c
  }

  function Upper(c: char): char {
    if 'a' <= c <= 'z' then (c as int - 32) as char else c
  }

  function LowerAll(s: string): (r: string)
    ensures |r| == |s|
    ensures forall i :: 0 <= i < |s| ==> r[i] == Lower(s[i])
  {
    seq(|s|, i requires 0 <= i < |s| => Lower(s[i]))
  }

  function UpperAll(s: string): (r: string)
    ensures |r| == |s|
    ensures forall i :: 0 <= i < |s| ==> r[i] == Upper(s[i])
  {
    seq(|s|, i requires 0 <= i < |s| => Upper(s[i]))
  }

  predicate StartsWith(s: string, prefix: string) {
    |prefix| <= |s| && s[..|prefix|] == prefix
  }

  /** `sub` is a contiguous part of `s`, found by scanning left to right. */
  predicate Contains(s: string, sub: string)
    decreases |s|
  {
    StartsWith(s, sub) || (|s| > 0 && Contains(s[1..], sub))
  }

  /** `sub` occurs in `s` starting at index `i`. */
  ghost predicate OccursAt(s: string, sub: string, i: int) {
    0 <= i && i + |sub| <= |s| && s[i..i + |sub|] == sub
  }

  /** The scan finds `sub` exactly when it occurs at some index. */
  lemma {:induction false} ContainsIffOccurs(s: string, sub: string)
    ensures Contains(s, sub) <==> exists i :: OccursAt(s, sub, i)
    decreases |s|
  {
    if StartsWith(s, sub) {
      assert OccursAt(s, sub, 0);
    }
    if |s| > 0 {
      ContainsIffOccurs(s[1..], sub);
      if Contains(s[1..], sub) {
        var i :| OccursAt(s[1..], sub, i);
        assert s[1..][i..i + |sub|] == s[i + 1..i + 1 + |sub|];
        assert OccursAt(s, sub, i + 1);
      }
      if i :| OccursAt(s, sub, i) {
        if i > 0 {
          assert s[1..][i - 1..i - 1 + |sub|] == s[i..i + |sub|];
          assert OccursAt(s[1..], sub, i - 1);
        } else {
          assert StartsWith(s, sub);
        }
      }
    } else {
      if i :| OccursAt(s, sub, i) {
        assert StartsWith(s, sub);
      }
    }
  }

  /** The `icontains` lookup. The empty pattern matches every value. */
  function IContains(s: string, sub: string): (r: bool)
    ensures |sub| == 0 ==> r
  {
    assert |sub| == 0 ==> LowerAll(sub) == [] && StartsWith(LowerAll(s), []);
    Contains(LowerAll(s), LowerAll(sub))
  }

  lemma LowerUpperAll(s: string)
    ensures LowerAll(UpperAll(s)) == LowerAll(s)
  {
    assert forall i :: 0 <= i < |s| ==> Lower(Upper(s[i])) == Lower(s[i]);
  }

  /** Upper-casing either the value or the pattern does not change the outcome. */
  lemma IContainsIgnoresCase(s: string, sub: string)
    ensures IContains(UpperAll(s), sub) == IContains(s, sub)
    ensures IContains(s, UpperAll(sub)) == IContains(s, sub)
  {
    LowerUpperAll(s);
    LowerUpperAll(sub);
  }

  /** A case-sensitive match is also a case-insensitive one. */
  lemma {:induction false} ContainsImpliesIContains(s: string, sub: string)
    requires Contains(s, sub)
    ensures IContains(s, sub)
  {
    ContainsIffOccurs(s, sub);
    var i :| OccursAt(s, sub, i);
    var ls, lsub := LowerAll(s), LowerAll(sub);
    assert ls[i..i + |sub|] == lsub;
    assert OccursAt(ls, lsub, i);
    ContainsIffOccurs(ls, lsub);
  }
}
