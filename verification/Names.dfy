/** Node and service names as strings: Go's string order and lower-casing. */
module Names {
  import opened Sorting

  /** Go compares strings lexicographically. */
  predicate LexLe(a: string, b: string) {
    a == [] || (b != [] && (a[0] < b[0] || (a[0] == b[0] && LexLe(a[1..], b[1..]))))
  }

  function LowerChar(c: char): char {
    if 'A' <= c <= 'Z' then c + 32 as char else c
  }

  /** Lower-casing of the ASCII letters, the only ones Kubernetes names may contain. */
  function ToLower(s: string): string {
    seq(|s|, i requires 0 <= i < |s| => LowerChar(s[i]))
  }

  lemma {:induction false} LexTotal(a: string, b: string)
    ensures LexLe(a, b) || LexLe(b, a)
  {
    if a != [] && b != [] && a[0] == b[0] {
      LexTotal(a[1..], b[1..]);
    }
  }

  lemma {:induction false} LexAntisymmetric(a: string, b: string)
    requires LexLe(a, b) && LexLe(b, a)
    ensures a == b
  {
    if a != [] {
      LexAntisymmetric(a[1..], b[1..]);
      assert a == [a[0]] + a[1..] && b == [b[0]] + b[1..];
    }
  }

  lemma {:induction false} LexTransitive(a: string, b: string, c: string)
    requires LexLe(a, b) && LexLe(b, c)
    ensures LexLe(a, c)
  {
    if a != [] && a[0] == b[0] && b[0] == c[0] {
      LexTransitive(a[1..], b[1..], c[1..]);
    }
  }

  lemma {:induction false} LexTotalOrder()
    ensures TotalOrder(LexLe)
  {
    forall a: string, b: string ensures LexLe(a, b) || LexLe(b, a) {
      LexTotal(a, b);
    }
    forall a, b | LexLe(a, b) && LexLe(b, a) ensures a == b {
      LexAntisymmetric(a, b);
    }
    forall a, b, c | LexLe(a, b) && LexLe(b, c) ensures LexLe(a, c) {
      LexTransitive(a, b, c);
    }
  }

  lemma SamePrefix(a: string, b: string, k: nat)
    requires k < |a| && k < |b| && a[0] == b[0]
    ensures a[..k + 1] == b[..k + 1] <==> a[1..][..k] == b[1..][..k]
  {
    assert a[..k + 1] == [a[0]] + a[1..][..k] && b[..k + 1] == [b[0]] + b[1..][..k];
    assert a[..k + 1][1..] == a[1..][..k] && b[..k + 1][1..] == b[1..][..k];
  }

  /** The order is the one of dictionaries: a prefix comes first, and otherwise the first
      characters that differ decide. */
  lemma {:induction false} LexExactly(a: string, b: string)
    ensures LexLe(a, b) <==>
              a <= b || exists k: nat :: k < |a| && k < |b| && a[..k] == b[..k] && a[k] < b[k]
  {
    if a != [] && b != [] && a[0] == b[0] {
      LexExactly(a[1..], b[1..]);
      assert a <= b <==> a[1..] <= b[1..] by {
        assert a == [a[0]] + a[1..] && b == [b[0]] + b[1..];
      }
      forall k: nat | k < |a[1..]| && k < |b[1..]|
        ensures a[..k + 1] == b[..k + 1] <==> a[1..][..k] == b[1..][..k]
      {
        SamePrefix(a, b, k);
      }
      if k: nat :| k < |a[1..]| && k < |b[1..]| && a[1..][..k] == b[1..][..k] && a[1..][k] < b[1..][k] {
        var j: nat := k + 1;
        assert j < |a| && j < |b| && a[..j] == b[..j] && a[j] < b[j];
      }
      if k: nat :| k < |a| && k < |b| && a[..k] == b[..k] && a[k] < b[k] {
        var j: nat := k - 1;
        assert j < |a[1..]| && j < |b[1..]| && a[1..][..j] == b[1..][..j] && a[1..][j] < b[1..][j];
      }
    }
  }

  /** Lower-casing turns each capital into its small letter and leaves everything else alone;
      doing it twice changes nothing more. */
  lemma LowerExactly(s: string)
    ensures |ToLower(s)| == |s| && ToLower(ToLower(s)) == ToLower(s)
    ensures forall i, k :: 0 <= i < |s| && 0 <= k < 26 && s[i] == CAPITALS[k] ==> ToLower(s)[i] == SMALL[k]
    ensures forall i :: 0 <= i < |s| && s[i] !in CAPITALS ==> ToLower(s)[i] == s[i]
  {
    Letters();
  }

  const CAPITALS := "ABCDEFGHIJKLMNOPQRSTUVWXYZ"
  const SMALL := "abcdefghijklmnopqrstuvwxyz"

  lemma Letters()
    ensures |CAPITALS| == |SMALL| == 26
    ensures forall k :: 0 <= k < 26 ==> CAPITALS[k] == 'A' + k as char && SMALL[k] == 'a' + k as char
    ensures forall c: char :: c in CAPITALS <==> 'A' <= c <= 'Z'
  {
    forall c: char | 'A' <= c <= 'Z' ensures c in CAPITALS {
      assert CAPITALS[c as int - 'A' as int] == c;
    }
  }
}
