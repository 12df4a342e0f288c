/**
 * String helpers standing in for the JavaScript string methods the server
 * and client call: `startsWith`, `includes` and `toUpperCase`.
 */
module Text {

  /** `s.startsWith(p)`. */
  predicate StartsWith(s: string, p: string) {
    |p| <= |s| && s[..|p|] == p
  }

  /** `t` occurs in `s` starting at index `i`. */
  predicate OccursAt(s: string, t: string, i: int) {
    0 <= i <= |s| - |t| && s[i..i + |t|] == t
  }

  /** `s.includes(t)`: `t` occurs somewhere in `s` as a contiguous piece. */
  function Contains(s: string, t: string): (r: bool)
    ensures r <==> exists i :: OccursAt(s, t, i)
    decreases |s|
  {
    if StartsWith(s, t) then
      assert OccursAt(s, t, 0);
      true
    else if |s| == 0 then
      false
    else
      var r := Contains(s[1..], t);
      if r then
        var j :| OccursAt(s[1..], t, j);
        assert s[1..][j..j + |t|] == s[j + 1..j + 1 + |t|];
        assert OccursAt(s, t, j + 1);
        true
      else
        assert forall i :: OccursAt(s, t, i) ==> i == 0 || OccursAt(s[1..], t, i - 1) by {
          forall i | OccursAt(s, t, i) && i != 0 ensures OccursAt(s[1..], t, i - 1) {
            assert s[1..][i - 1..i - 1 + |t|] == s[i..i + |t|];
          }
        }
        false
  }

  /** Upper-cases one ASCII letter; every other character is left alone. */
  function UpperChar(c: char): char {
    if 'a' <= c <= 'z' then (c as int - 32) as char else c
  }

  /** `s.toUpperCase()` on ASCII letters. */
  function ToUpper(s: string): string {
    if s == [] then [] else [UpperChar(s[0])] + ToUpper(s[1..])
  }

  /** No ASCII lower-case letter occurs in `s`. */
  predicate IsUpper(s: string) {
    forall i :: 0 <= i < |s| ==> !('a' <= s[i] <= 'z')
  }

  /** Upper-casing keeps the length, changes every character by itself only, and leaves no lower-case letter. */
  lemma {:induction false} ToUpperShape(s: string)
    ensures |ToUpper(s)| == |s|
    ensures forall i :: 0 <= i < |s| ==> ToUpper(s)[i] == UpperChar(s[i])
    ensures IsUpper(ToUpper(s))
  {
    if s != [] {
      ToUpperShape(s[1..]);
      assert ToUpper(s) == [UpperChar(s[0])] + ToUpper(s[1..]);
    }
  }

  /** Upper-casing an upper-case string changes nothing, so doing it twice is doing it once. */
  lemma {:induction false} ToUpperIdempotent(s: string)
    ensures IsUpper(s) ==> ToUpper(s) == s
    ensures ToUpper(ToUpper(s)) == ToUpper(s)
  {
    if s != [] {
      ToUpperIdempotent(s[1..]);
      ToUpperShape(s);
      ToUpperShape(ToUpper(s));
      var u := ToUpper(s);
      assert ToUpper(u) == [UpperChar(u[0])] + ToUpper(u[1..]);
      assert u[1..] == ToUpper(s[1..]);
      if IsUpper(s) {
        assert IsUpper(s[1..]);
      }
    }
  }
}
