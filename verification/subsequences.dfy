/** The subsequence relation ("obtained by deleting elements, order kept"),
    used to state what a filter keeps. */
module Subsequences {

  /** `a` is obtained from `b` by deleting elements (order kept). */
  ghost predicate IsSubsequence<T>(a: seq<T>, b: seq<T>)
    decreases |b|
  {
    if |a| == 0 then true
    else if |b| == 0 then false
    else if a[0] == b[0] then IsSubsequence(a[1..], b[1..])
    else IsSubsequence(a, b[1..])
  }

  lemma {:induction false} SubsequenceOfSelf<T>(s: seq<T>)
    ensures IsSubsequence(s, s)
    decreases |s|
  {
    if |s| > 0 {
      SubsequenceOfSelf(s[1..]);
    }
  }

  /** A subsequence of a slice is a subsequence of the whole sequence. */
  lemma {:induction false} SubsequenceOfSlice<T>(a: seq<T>, s: seq<T>, i: nat, j: nat)
    requires i <= j <= |s|
    requires IsSubsequence(a, s[i..j])
    ensures IsSubsequence(a, s)
  {
    assert s[i..][..j - i] == s[i..j];
    SubsequenceOfPrefix(a, s[i..], j - i);
    SubsequenceOfSuffix(a, s, i);
  }

  /** A subsequence of a suffix is a subsequence of the whole sequence. */
  lemma {:induction false} SubsequenceOfSuffix<T>(a: seq<T>, s: seq<T>, i: nat)
    requires i <= |s| && IsSubsequence(a, s[i..])
    ensures IsSubsequence(a, s)
    decreases i
  {
    if i > 0 {
      assert s[1..][i - 1..] == s[i..];
      SubsequenceOfSuffix(a, s[1..], i - 1);
      SubsequenceExtendFront(a, s);
    }
  }

  /** Adding an element in front of the longer sequence keeps the relation. */
  lemma {:induction false} SubsequenceExtendFront<T>(a: seq<T>, s: seq<T>)
    requires |s| > 0 && IsSubsequence(a, s[1..])
    ensures IsSubsequence(a, s)
    decreases |s|, 0
  {
    if |a| > 0 && a[0] == s[0] {
      SubsequenceDropHead(a, s[1..]);
    }
  }

  /** A subsequence stays one after its first element is dropped. */
  lemma {:induction false} SubsequenceDropHead<T>(a: seq<T>, s: seq<T>)
    requires |a| > 0 && IsSubsequence(a, s)
    ensures IsSubsequence(a[1..], s)
    decreases |s|, 1
  {
    if a[0] != s[0] {
      SubsequenceDropHead(a, s[1..]);
    }
    SubsequenceExtendFront(a[1..], s);
  }

  /** A subsequence of a prefix is a subsequence of the whole sequence. */
  lemma {:induction false} SubsequenceOfPrefix<T>(a: seq<T>, s: seq<T>, j: nat)
    requires j <= |s| && IsSubsequence(a, s[..j])
    ensures IsSubsequence(a, s)
    decreases j
  {
    if |a| == 0 {
    } else if j == 0 {
      assert false;
    } else if a[0] == s[0] {
      assert s[..j][1..] == s[1..][..j - 1];
      SubsequenceOfPrefix(a[1..], s[1..], j - 1);
    } else {
      assert s[..j][1..] == s[1..][..j - 1];
      SubsequenceOfPrefix(a, s[1..], j - 1);
    }
  }

  /** A prefix of a subsequence is a subsequence. */
  lemma {:induction false} PrefixOfSubsequence<T>(a: seq<T>, s: seq<T>, k: nat)
    requires k <= |a| && IsSubsequence(a, s)
    ensures IsSubsequence(a[..k], s)
    decreases |s|
  {
    if k == 0 || |a| == 0 {
    } else if a[0] == s[0] {
      assert a[..k][1..] == a[1..][..k - 1];
      PrefixOfSubsequence(a[1..], s[1..], k - 1);
    } else {
      PrefixOfSubsequence(a, s[1..], k);
    }
  }

  /** Subsequence is transitive. */
  lemma {:induction false} SubsequenceTransitive<T>(a: seq<T>, b: seq<T>, c: seq<T>)
    requires IsSubsequence(a, b) && IsSubsequence(b, c)
    ensures IsSubsequence(a, c)
    decreases |c|
  {
    if |a| == 0 {
    } else if a[0] == c[0] {
      // b is non-empty; its head either matches c[0] or is found later
      if b[0] == c[0] {
        SubsequenceTransitive<T>(a[1..], b[1..], c[1..]);
      } else {
        SubsequenceDropHead(a, b);
        SubsequenceTransitive(a, b, c[1..]);
        SubsequenceExtendFront(a, c);
      }
    } else {
      if b[0] == c[0] {
        assert a[0] != b[0];
        SubsequenceTransitive(a, b[1..], c[1..]);
      } else {
        SubsequenceTransitive(a, b, c[1..]);
      }
    }
  }

  /** Every element of a subsequence occurs in the sequence it comes from. */
  lemma {:induction false} SubsequenceMembers<T>(a: seq<T>, b: seq<T>)
    requires IsSubsequence(a, b)
    ensures forall x :: x in a ==> x in b
    decreases |b|
  {
    if |a| > 0 {
      if a[0] == b[0] {
        SubsequenceMembers(a[1..], b[1..]);
        forall x | x in a ensures x in b {
          if x != a[0] {
            assert x in a[1..];
            assert x in b[1..];
          }
        }
      } else {
        SubsequenceMembers(a, b[1..]);
        forall x | x in a ensures x in b {
          assert x in b[1..];
        }
      }
    }
  }

  /** A subsequence is never longer than the sequence it comes from. */
  lemma {:induction false} SubsequenceLength<T>(a: seq<T>, b: seq<T>)
    requires IsSubsequence(a, b)
    ensures |a| <= |b|
    decreases |b|
  {
    if |a| > 0 {
      if a[0] == b[0] {
        SubsequenceLength(a[1..], b[1..]);
      } else {
        SubsequenceLength(a, b[1..]);
      }
    }
  }
}
