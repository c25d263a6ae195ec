/** The three `java.lang.String` operations the topic code relies on:
    `toLowerCase` (the sort key), `compareTo` (the order the sort uses) and
    `contains` (the `cleanup.policy` test). */
module JavaStrings {

  /** `Character.toLowerCase` on the ASCII range; other characters are kept. */
  function ToLowerChar(c: char): char {
    if 'A' <= c <= 'Z' then (c as int + 32) as char else c
  }

  /** `String.toLowerCase`, character by character. */
  function ToLowerCase(s: string): (r: string)
    ensures |r| == |s|
    ensures forall i :: 0 <= i < |s| ==> r[i] == ToLowerChar(s[i])
    ensures forall i :: 0 <= i < |r| ==> !('A' <= r[i] <= 'Z')
  {
    if s == [] then [] else [ToLowerChar(s[0])] + ToLowerCase(s[1..])
  }

  /** `a.compareTo(b) <= 0`: lexicographic order on characters, a proper
      prefix coming first. */
  predicate CompareLe(a: string, b: string) {
    if a == [] then true
    else if b == [] then false
    else if a[0] != b[0] then a[0] < b[0]
    else CompareLe(a[1..], b[1..])
  }

  /** Every string compares equal to itself. */
  lemma {:induction false} CompareLeReflexive(a: string)
    ensures CompareLe(a, a)
  {
    if a != [] {
      CompareLeReflexive(a[1..]);
    }
  }

  /** `compareTo` orders every pair of strings. */
  lemma {:induction false} CompareLeTotal(a: string, b: string)
    ensures CompareLe(a, b) || CompareLe(b, a)
  {
    if a != [] && b != [] && a[0] == b[0] {
      CompareLeTotal(a[1..], b[1..]);
    }
  }

  /** `compareTo` is transitive. */
  lemma {:induction false} CompareLeTransitive(a: string, b: string, c: string)
    requires CompareLe(a, b) && CompareLe(b, c)
    ensures CompareLe(a, c)
  {
    if a != [] && b != [] && c != [] && a[0] == b[0] == c[0] {
      CompareLeTransitive(a[1..], b[1..], c[1..]);
    }
  }

  /** `compareTo` returns 0 only on equal strings. */
  lemma {:induction false} CompareLeAntisymmetric(a: string, b: string)
    requires CompareLe(a, b) && CompareLe(b, a)
    ensures a == b
  {
    if a != [] && b != [] {
      CompareLeAntisymmetric(a[1..], b[1..]);
      assert a == [a[0]] + a[1..] && b == [b[0]] + b[1..];
    }
  }

  /** `sub` occurs in `s` starting at index `i`. */
  predicate OccursAt(s: string, sub: string, i: int) {
    0 <= i <= |s| - |sub| && s[i..i + |sub|] == sub
  }

  /** `s.contains(sub)`: `sub` occurs in `s` at some position. */
  ghost predicate Occurs(s: string, sub: string) {
    exists i :: OccursAt(s, sub, i)
  }

  /** `String.contains`, scanning start positions from the left. */
  function Contains(s: string, sub: string): (r: bool)
    ensures r <==> Occurs(s, sub)
  {
    if sub <= s then
      assert OccursAt(s, sub, 0);
      true
    else if |s| <= |sub| then
      assert s[0..|s|] == s;
      assert !Occurs(s, sub);
      false
    else
      var rest := Contains(s[1..], sub);
      assert Occurs(s[1..], sub) ==> Occurs(s, sub) by {
        if Occurs(s[1..], sub) {
          var i :| OccursAt(s[1..], sub, i);
          assert s[i + 1..i + 1 + |sub|] == s[1..][i..i + |sub|];
          assert OccursAt(s, sub, i + 1);
        }
      }
      assert Occurs(s, sub) ==> Occurs(s[1..], sub) by {
        if Occurs(s, sub) {
          var i :| OccursAt(s, sub, i);
          assert s[0..|sub|] == sub ==> sub <= s;
          if i != 0 {
            assert i - 1 + |sub| <= |s[1..]|;
            assert s[1..][i - 1..i - 1 + |sub|] == s[i..i + |sub|];
            assert OccursAt(s[1..], sub, i - 1);
          }
        }
      }
      rest
  }
}
