/** String operations the section header relies on: an ASCII model of
    `String.prototype.toLowerCase` and the substring test
    `String.prototype.includes`. */
module Text {

  predicate IsUpper(c: char) {
    'A' <= c <= 'Z'
  }

  /** Lower-cases one ASCII letter; every other character is kept. */
  function LowerChar(c: char): (d: char)
    ensures !IsUpper(d)
    ensures IsUpper(c) ==> 'a' <= d <= 'z' && d as int - c as int == 'a' as int - 'A' as int
    ensures !IsUpper(c) ==> d == c
  {
    if IsUpper(c) then (c as int + ('a' as int - 'A' as int)) as char else c
  }

  /** ASCII model of `s.toLowerCase()`: each character lower-cased in place. */
  function ToLower(s: string): (r: string)
    ensures |r| == |s|
    ensures forall i :: 0 <= i < |r| ==> !IsUpper(r[i])
    ensures forall i :: 0 <= i < |s| && !IsUpper(s[i]) ==> r[i] == s[i]
    ensures forall i :: 0 <= i < |s| && IsUpper(s[i]) ==>
      'a' <= r[i] <= 'z' && r[i] as int == s[i] as int + ('a' as int - 'A' as int)
  {
    seq(|s|, i requires 0 <= i < |s| => LowerChar(s[i]))
  }

  /** Lower-casing a string that is already lower-case changes nothing. */
  lemma ToLowerIdempotent(s: string)
    ensures ToLower(ToLower(s)) == ToLower(s)
  {
  }

  /** The reference meaning of an occurrence: `pat` sits in `s` at index `i`. */
  predicate OccursAt(s: string, pat: string, i: int) {
    0 <= i && i + |pat| <= |s| && s[i..i + |pat|] == pat
  }

  /** The characters of `pat` from offset `k` on match those of `s` from
      index `i + k` on. */
  predicate MatchesAt(s: string, pat: string, i: nat, k: nat)
    requires i + |pat| <= |s| && k <= |pat|
    decreases |pat| - k
  {
    k == |pat| || (s[i + k] == pat[k] && MatchesAt(s, pat, i, k + 1))
  }

  /** `pat` starts at some index of `s` no smaller than `i`. */
  predicate ContainsFrom(s: string, pat: string, i: nat)
    decreases |s| + 1 - i
  {
    i + |pat| <= |s| && (MatchesAt(s, pat, i, 0) || ContainsFrom(s, pat, i + 1))
  }

  /** `s.includes(pat)`: tries every start index in turn. */
  predicate Contains(s: string, pat: string)
    ensures Contains(s, pat) ==> |pat| <= |s|
    ensures |pat| == 0 ==> Contains(s, pat)
  {
    ContainsFrom(s, pat, 0)
  }

  lemma {:induction false} MatchesAtIff(s: string, pat: string, i: nat, k: nat)
    requires i + |pat| <= |s| && k <= |pat|
    ensures MatchesAt(s, pat, i, k) <==> s[i + k..i + |pat|] == pat[k..]
    decreases |pat| - k
  {
    if k < |pat| {
      MatchesAtIff(s, pat, i, k + 1);
      assert s[i + k..i + |pat|] == [s[i + k]] + s[i + k + 1..i + |pat|];
      assert pat[k..] == [pat[k]] + pat[k + 1..];
    }
  }

  lemma {:induction false} ContainsFromIff(s: string, pat: string, i: nat)
    ensures ContainsFrom(s, pat, i) <==> exists j :: i <= j && OccursAt(s, pat, j)
    decreases |s| + 1 - i
  {
    if i + |pat| <= |s| {
      MatchesAtIff(s, pat, i, 0);
      ContainsFromIff(s, pat, i + 1);
      assert pat[0..] == pat;
      if MatchesAt(s, pat, i, 0) {
        assert OccursAt(s, pat, i);
      }
    }
  }

  /** The scan finds `pat` exactly when `pat` occurs somewhere in `s`. */
  lemma ContainsIff(s: string, pat: string)
    ensures Contains(s, pat) <==> exists i :: OccursAt(s, pat, i)
  {
    ContainsFromIff(s, pat, 0);
  }

  /** A string containing `p` contains everything `p` contains. */
  lemma ContainsTransitive(s: string, p: string, q: string)
    requires Contains(s, p) && Contains(p, q)
    ensures Contains(s, q)
  {
    ContainsIff(s, p);
    ContainsIff(p, q);
    ContainsIff(s, q);
    var i :| OccursAt(s, p, i);
    var j :| OccursAt(p, q, j);
    forall t | 0 <= t < |q| ensures s[i + j + t] == q[t] {
      assert q[t] == p[j..j + |q|][t] == p[j + t];
      assert p[j + t] == s[i..i + |p|][j + t];
    }
    assert s[i + j..i + j + |q|] == q;
    assert OccursAt(s, q, i + j);
  }
}
