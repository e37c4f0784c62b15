/** The order in which the world state's range scan yields its keys.
    Keys are compared lexicographically, character by character, by code
    point; a proper prefix comes first. */
module KeyOrder {

  /** Strict lexicographic order on keys. */
  predicate Less(a: string, b: string)
    decreases |a|
  {
    if |a| == 0 then |b| > 0
    else if |b| == 0 then false
    else a[0] < b[0] || (a[0] == b[0] && Less(a[1..], b[1..]))
  }

  lemma {:induction false} LessIrreflexive(a: string)
    ensures !Less(a, a)
    decreases |a|
  {
    if |a| > 0 {
      LessIrreflexive(a[1..]);
    }
  }

  lemma {:induction false} LessAsymmetric(a: string, b: string)
    ensures Less(a, b) ==> !Less(b, a)
    decreases |a|
  {
    if |a| > 0 && |b| > 0 && a[0] == b[0] {
      LessAsymmetric(a[1..], b[1..]);
    }
  }

  lemma {:induction false} LessTransitive(a: string, b: string, c: string)
    requires Less(a, b) && Less(b, c)
    ensures Less(a, c)
    decreases |a|
  {
    if |a| > 0 && a[0] == b[0] && b[0] == c[0] {
      LessTransitive(a[1..], b[1..], c[1..]);
    }
  }

  lemma {:induction false} LessTotal(a: string, b: string)
    ensures a == b || Less(a, b) || Less(b, a)
    decreases |a|
  {
    if |a| > 0 && |b| > 0 && a[0] == b[0] {
      LessTotal(a[1..], b[1..]);
      if a[1..] == b[1..] {
        assert a == [a[0]] + a[1..] && b == [b[0]] + b[1..];
      }
    }
  }

  /** `m` is the first of the keys `ks` in key order. */
  predicate IsLeast(m: string, ks: set<string>) {
    m in ks && forall k :: k in ks && k != m ==> Less(m, k)
  }

  lemma {:induction false} LeastExists(ks: set<string>)
    requires ks != {}
    ensures exists m :: IsLeast(m, ks)
    decreases ks
  {
    var x :| x in ks;
    if ks == {x} {
      assert IsLeast(x, ks);
    } else {
      LeastExists(ks - {x});
      var m :| IsLeast(m, ks - {x});
      LessTotal(x, m);
      if Less(x, m) {
        forall k | k in ks && k != x
          ensures Less(x, k)
        {
          if k != m {
            LessTransitive(x, m, k);
          }
        }
        assert IsLeast(x, ks);
      } else {
        assert IsLeast(m, ks);
      }
    }
  }

  lemma LeastUnique(m: string, n: string, ks: set<string>)
    requires IsLeast(m, ks) && IsLeast(n, ks)
    ensures m == n
  {
    LessAsymmetric(m, n);
  }

  /** The first key of a non-empty key set. */
  ghost function Least(ks: set<string>): (m: string)
    requires ks != {}
    ensures IsLeast(m, ks)
  {
    LeastExists(ks);
    var m :| IsLeast(m, ks);
    m
  }

  /** Finds the first key of a non-empty key set by one pass over it. */
  method LeastKey(ks: set<string>) returns (m: string)
    requires ks != {}
    ensures IsLeast(m, ks)
  {
    m :| m in ks;
    var rest := ks - {m};
    while rest != {}
      invariant rest <= ks && m in ks && m !in rest
      invariant forall k :: k in ks && k !in rest && k != m ==> Less(m, k)
      decreases rest
    {
      var k :| k in rest;
      LessTotal(m, k);
      if Less(k, m) {
        forall j | j in ks && j !in rest && j != k
          ensures Less(k, j)
        {
          if j != m {
            LessTransitive(k, m, j);
          }
        }
        m := k;
      }
      rest := rest - {k};
    }
  }

  ghost predicate StrictlySorted(s: seq<string>) {
    forall i, j :: 0 <= i < j < |s| ==> Less(s[i], s[j])
  }

  /** Order between neighbours extends to every pair. */
  lemma {:induction false} SortedChainLess(s: seq<string>, i: nat, j: nat)
    requires forall k :: 0 <= k < |s| - 1 ==> Less(s[k], s[k + 1])
    requires i < j < |s|
    ensures Less(s[i], s[j])
    decreases j - i
  {
    if j > i + 1 {
      SortedChainLess(s, i + 1, j);
      LessTransitive(s[i], s[i + 1], s[j]);
    }
  }

  /** The keys of `ks` in the order a full range scan visits them. */
  ghost function SortedKeys(ks: set<string>): (r: seq<string>)
    ensures |r| == |ks|
    decreases ks
  {
    if ks == {} then []
    else
      var m := Least(ks);
      [m] + SortedKeys(ks - {m})
  }

  /** The scan order lists every key of `ks` once, in strictly ascending order. */
  lemma {:induction false} SortedKeysOrdered(ks: set<string>)
    ensures forall i :: 0 <= i < |SortedKeys(ks)| ==> SortedKeys(ks)[i] in ks
    ensures forall k :: k in ks ==> k in SortedKeys(ks)
    ensures StrictlySorted(SortedKeys(ks))
    decreases ks
  {
    if ks != {} {
      var m := Least(ks);
      var rest := SortedKeys(ks - {m});
      SortedKeysOrdered(ks - {m});
      assert SortedKeys(ks) == [m] + rest;
      forall k | k in ks
        ensures k in [m] + rest
      {
        if k != m {
          assert k in ks - {m};
        }
      }
    }
  }

  /** Any strictly sorted listing of exactly the keys `ks` is the scan order. */
  lemma {:induction false} SortedKeysUnique(a: seq<string>, ks: set<string>)
    requires StrictlySorted(a)
    requires forall i :: 0 <= i < |a| ==> a[i] in ks
    requires forall k :: k in ks ==> k in a
    ensures a == SortedKeys(ks)
    decreases |a|
  {
    if |a| > 0 {
      var m := a[0];
      forall k | k in ks && k != m
        ensures Less(m, k)
      {
        var j :| 0 <= j < |a| && a[j] == k;
      }
      LeastUnique(m, Least(ks), ks);
      LessIrreflexive(m);
      var rest := ks - {m};
      forall k | k in rest
        ensures k in a[1..]
      {
        var j :| 0 <= j < |a| && a[j] == k;
        assert a[1..][j - 1] == k;
      }
      SortedKeysUnique(a[1..], rest);
    }
  }
}
