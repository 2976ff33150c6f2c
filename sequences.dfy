/**
 * List operations the game loop performs on its Python lists, stated over Dafny sequences:
 * removing the indices a pass has marked (`pop` at several indices), looking up the
 * object paired with each element, `remove(x)`, and popping while iterating with
 * `enumerate`.
 */
module Sequences {

  predicate Distinct<T(==)>(s: seq<T>) {
    forall i, j :: 0 <= i < j < |s| ==> s[i] != s[j]
  }

  /** n flags, all set. */
  function AllTrue(n: nat): (m: seq<bool>)
    ensures |m| == n && forall i :: 0 <= i < n ==> m[i]
  {
    seq(n, _ => true)
  }

  /** The flags set in both `a` and `b`. */
  function And(a: seq<bool>, b: seq<bool>): (r: seq<bool>)
    requires |a| == |b|
    ensures |r| == |a| && forall i :: 0 <= i < |a| ==> r[i] == (a[i] && b[i])
  {
    seq(|a|, i requires 0 <= i < |a| => a[i] && b[i])
  }

  /** The number of set flags. */
  function Count(m: seq<bool>): nat {
    if m == [] then 0 else (if m[0] then 1 else 0) + Count(m[1..])
  }

  /**
   * The elements of `s` whose flag in `m` is set, in their original order: what a
   * list holds after every index whose flag is clear has been popped.
   */
  function Keep<T>(s: seq<T>, m: seq<bool>): (r: seq<T>)
    requires |s| == |m|
    ensures |r| == Count(m) <= |s|
    ensures forall x :: x in r ==> x in s
  {
    if s == [] then [] else (if m[0] then [s[0]] else []) + Keep(s[1..], m[1..])
  }

  /** A set flag is counted. */
  lemma {:induction false} CountPositive(m: seq<bool>, i: nat)
    requires i < |m| && m[i]
    ensures Count(m) > 0
  {
    if i > 0 {
      CountPositive(m[1..], i - 1);
    }
  }

  /** A positive count has a set flag behind it. */
  lemma {:induction false} CountWitness(m: seq<bool>) returns (i: nat)
    requires Count(m) > 0
    ensures i < |m| && m[i]
  {
    if m[0] {
      i := 0;
    } else {
      var j := CountWitness(m[1..]);
      i := j + 1;
    }
  }

  /** Filtering twice is filtering once by the flags set in both passes. */
  lemma {:induction false} KeepKeep<T>(s: seq<T>, a: seq<bool>, b: seq<bool>)
    requires |s| == |a| == |b|
    ensures Keep(Keep(s, a), Keep(b, a)) == Keep(s, And(a, b))
  {
    if s != [] {
      KeepKeep(s[1..], a[1..], b[1..]);
      assert And(a, b)[1..] == And(a[1..], b[1..]);
      if a[0] {
        var k1, k2 := Keep(s[1..], a[1..]), Keep(b[1..], a[1..]);
        assert Keep(s, a) == [s[0]] + k1 && Keep(b, a) == [b[0]] + k2;
        assert ([s[0]] + k1)[1..] == k1 && ([b[0]] + k2)[1..] == k2;
        calc {
          Keep(Keep(s, a), Keep(b, a));
          Keep([s[0]] + k1, [b[0]] + k2);
          (if b[0] then [s[0]] else []) + Keep(k1, k2);
          (if b[0] then [s[0]] else []) + Keep(s[1..], And(a, b)[1..]);
          Keep(s, And(a, b));
        }
      } else {
        assert Keep(s, a) == Keep(s[1..], a[1..]) && Keep(b, a) == Keep(b[1..], a[1..]);
        assert Keep(s, And(a, b)) == Keep(s[1..], And(a, b)[1..]);
      }
    }
  }

  /** Every element of a filtered list is one whose flag was set. */
  lemma {:induction false} KeepIndex<T>(s: seq<T>, m: seq<bool>, j: nat)
    requires |s| == |m| && j < |Keep(s, m)|
    ensures exists i :: 0 <= i < |s| && m[i] && s[i] == Keep(s, m)[j]
  {
    if m[0] && j == 0 {
      assert s[0] == Keep(s, m)[0];
    } else {
      var k := if m[0] then j - 1 else j;
      KeepIndex(s[1..], m[1..], k);
      var i :| 0 <= i < |s| - 1 && m[1..][i] && s[1..][i] == Keep(s[1..], m[1..])[k];
      assert s[i + 1] == Keep(s, m)[j];
    }
  }

  /** A filtered list holds nothing the list did not. */
  lemma KeepSubset<T>(s: seq<T>, m: seq<bool>)
    requires |s| == |m|
    ensures forall x :: x in Keep(s, m) ==> x in s
  {
    forall x | x in Keep(s, m)
      ensures x in s
    {
      var j :| 0 <= j < |Keep(s, m)| && Keep(s, m)[j] == x;
      KeepIndex(s, m, j);
    }
  }

  /** Splitting off the element at index x of the part still to be filtered. */
  lemma {:induction false} KeepFrom<T>(s: seq<T>, m: seq<bool>, x: nat)
    requires |s| == |m| && x < |s|
    ensures Keep(s[x..], m[x..]) == (if m[x] then [s[x]] else []) + Keep(s[x + 1..], m[x + 1..])
  {
    assert s[x..][1..] == s[x + 1..];
    assert m[x..][1..] == m[x + 1..];
  }

  /** A kept element sits in the filtered list at its rank: the number of kept elements before it. */
  lemma {:induction false} KeepAt<T>(s: seq<T>, m: seq<bool>, i: nat)
    requires |s| == |m| && i < |s| && m[i]
    ensures Count(m[..i]) < |Keep(s, m)| && Keep(s, m)[Count(m[..i])] == s[i]
  {
    if i > 0 {
      KeepAt(s[1..], m[1..], i - 1);
      assert m[1..][..i - 1] == m[..i][1..];
    }
  }

  /** Two lists filtered by the same flags keep a flagged pair at the same position. */
  lemma KeepPair<T, U>(s: seq<T>, t: seq<U>, m: seq<bool>, i: nat) returns (r: nat)
    requires |s| == |t| == |m| && i < |s| && m[i]
    ensures r < |Keep(s, m)| == |Keep(t, m)| && Keep(s, m)[r] == s[i] && Keep(t, m)[r] == t[i]
  {
    KeepAt(s, m, i);
    KeepAt(t, m, i);
    r := Count(m[..i]);
  }

  lemma {:induction false} KeepDistinct<T>(s: seq<T>, m: seq<bool>)
    requires |s| == |m| && Distinct(s)
    ensures Distinct(Keep(s, m))
  {
    if s != [] {
      KeepDistinct(s[1..], m[1..]);
      assert s[0] !in s[1..];
    }
  }

  /** In a list without repeats, an element survives exactly when its own flag is set. */
  lemma {:induction false} KeepIn<T>(s: seq<T>, m: seq<bool>, i: nat)
    requires |s| == |m| && Distinct(s) && i < |s|
    ensures s[i] in Keep(s, m) <==> m[i]
  {
    if i == 0 {
      assert s[0] !in s[1..];
    } else {
      KeepIn(s[1..], m[1..], i - 1);
      assert s[i] != s[0];
    }
  }

  /** Filtering with every flag set changes nothing. */
  lemma {:induction false} KeepAll<T>(s: seq<T>, m: seq<bool>)
    requires |s| == |m| && forall i :: 0 <= i < |m| ==> m[i]
    ensures Keep(s, m) == s
  {
    if s != [] {
      KeepAll(s[1..], m[1..]);
    }
  }

  /** Filtering a list that had one element appended. */
  lemma {:induction false} KeepAppend<T>(s: seq<T>, m: seq<bool>, x: T, b: bool)
    requires |s| == |m|
    ensures Keep(s + [x], m + [b]) == Keep(s, m) + (if b then [x] else [])
  {
    if s == [] {
      assert Keep([x], [b]) == (if b then [x] else []) + Keep([x][1..], [b][1..]);
    } else {
      assert (s + [x])[1..] == s[1..] + [x];
      assert (m + [b])[1..] == m[1..] + [b];
      KeepAppend(s[1..], m[1..], x, b);
    }
  }

  /** A filter that keeps the last element ends with it. */
  lemma KeepLast<T>(s: seq<T>, m: seq<bool>)
    requires |s| == |m| && |s| > 0 && m[|s| - 1]
    ensures |Keep(s, m)| > 0 && Keep(s, m)[|Keep(s, m)| - 1] == s[|s| - 1]
  {
    var n := |s| - 1;
    assert s == s[..n] + [s[n]];
    assert m == m[..n] + [m[n]];
    KeepAppend(s[..n], m[..n], s[n], m[n]);
  }

  /**
   * One step of popping flagged elements while walking a list from its last index down:
   * `s` holds the untouched prefix up to and including index x, followed by the
   * filtered rest. Keeping or popping index x moves the boundary down by one.
   */
  lemma PopDownStep<T>(s: seq<T>, B: seq<T>, m: seq<bool>, x: nat)
    requires |B| == |m| && x < |B|
    requires s == B[..x + 1] + Keep(B[x + 1..], m[x + 1..])
    ensures x < |s| && s[x] == B[x]
    ensures (if m[x] then s else s[..x] + s[x + 1..]) == B[..x] + Keep(B[x..], m[x..])
  {
    KeepFrom(B, m, x);
    assert B[..x + 1] == B[..x] + [B[x]];
  }

  /** Once the walk has reached index 0, the whole list is filtered. */
  lemma PopDownDone<T>(s: seq<T>, B: seq<T>, m: seq<bool>)
    requires |B| == |m| && s == B[..0] + Keep(B[0..], m[0..])
    ensures s == Keep(B, m)
  {
    assert B[0..] == B && m[0..] == m;
  }

  /**
   * One step of popping while enumerating (see `EnumeratePopKeep`): `s` holds the
   * filtered part of `B` before index j, then the rest of `B` untouched, and the
   * enumeration index x points at `B[j]`.
   */
  lemma EnumerateKeepStep<T>(s: seq<T>, B: seq<T>, M: seq<bool>, j: nat, x: nat)
    requires |M| == j < |B| && s == Keep(B[..j], M) + B[j..] && x == |Keep(B[..j], M)|
    ensures x < |s| && s[x] == B[j]
    ensures s == Keep(B[..j + 1], M + [true]) + B[j + 1..]
    ensures x + 1 == |Keep(B[..j + 1], M + [true])|
  {
    assert B[..j + 1] == B[..j] + [B[j]];
    KeepAppend(B[..j], M, B[j], true);
  }

  /** Popping `B[j]`: the elements after it move down by one. */
  lemma EnumeratePop<T>(s: seq<T>, B: seq<T>, M: seq<bool>, j: nat, x: nat)
    requires |M| == j < |B| && s == Keep(B[..j], M) + B[j..] && x == |Keep(B[..j], M)|
    ensures x < |s| && s[x] == B[j]
    ensures s[..x] + s[x + 1..] == Keep(B[..j + 1], M + [false]) + B[j + 1..]
    ensures x == |Keep(B[..j + 1], M + [false])|
  {
    assert B[..j + 1] == B[..j] + [B[j]];
    KeepAppend(B[..j], M, B[j], false);
  }

  /** Popping `B[j]` when another element follows: that one slides into slot x and is skipped. */
  lemma EnumeratePopSkip<T>(s: seq<T>, B: seq<T>, M: seq<bool>, j: nat, x: nat)
    requires |M| == j && j + 1 < |B| && s == Keep(B[..j], M) + B[j..] && x == |Keep(B[..j], M)|
    ensures x < |s| && s[x] == B[j]
    ensures s[..x] + s[x + 1..] == Keep(B[..j + 2], M + [false, true]) + B[j + 2..]
    ensures x + 1 == |Keep(B[..j + 2], M + [false, true])|
  {
    EnumeratePop(s, B, M, j, x);
    EnumerateKeepStep(s[..x] + s[x + 1..], B, M + [false], j + 1, x);
    assert (M + [false]) + [true] == M + [false, true];
  }

  /** `Lookup(M, ks)` is the list of the values paired with the keys `ks`, position by position. */
  function Lookup<K, V>(M: map<K, V>, ks: seq<K>): (r: seq<V>)
    requires forall k :: k in ks ==> k in M
    ensures |r| == |ks|
    ensures forall i :: 0 <= i < |ks| ==> r[i] == M[ks[i]]
  {
    if ks == [] then [] else [M[ks[0]]] + Lookup(M, ks[1..])
  }

  /** Popping the same indices from two aligned lists keeps them aligned. */
  lemma {:induction false} KeepLookup<K, V>(M: map<K, V>, ks: seq<K>, m: seq<bool>)
    requires |ks| == |m| && forall k :: k in ks ==> k in M
    ensures Keep(Lookup(M, ks), m) == Lookup(M, Keep(ks, m))
  {
    if ks != [] {
      assert Lookup(M, ks)[1..] == Lookup(M, ks[1..]);
      KeepLookup(M, ks[1..], m[1..]);
    }
  }

  /**
   * Python's `list.remove(x)`: drops the first occurrence of `x`. What is left is the
   * list with one `x` fewer; `RemoveFirstKeep` gives the order on a list without repeats.
   */
  function RemoveFirst<T(==)>(s: seq<T>, x: T): (r: seq<T>)
    requires x in s
    ensures |r| == |s| - 1
    ensures forall y :: y in r ==> y in s
    ensures multiset(r) == multiset(s) - multiset{x}
  {
    assert s == [s[0]] + s[1..];
    if s[0] == x then s[1..] else [s[0]] + RemoveFirst(s[1..], x)
  }

  /** The flags of `m`, with the flag of every occurrence of `x` cleared. */
  function Unmark<T(==)>(s: seq<T>, m: seq<bool>, x: T): (r: seq<bool>)
    requires |s| == |m|
    ensures |r| == |s|
  {
    seq(|s|, i requires 0 <= i < |s| => m[i] && s[i] != x)
  }

  lemma {:induction false} KeepWithout<T>(s: seq<T>, m: seq<bool>, x: T)
    requires |s| == |m| && x !in s
    ensures Keep(s, Unmark(s, m, x)) == Keep(s, m)
  {
    if s != [] {
      assert Unmark(s, m, x)[1..] == Unmark(s[1..], m[1..], x);
      KeepWithout(s[1..], m[1..], x);
    }
  }

  /** Removing a kept element from a filtered list without repeats clears its flag. */
  lemma {:induction false} RemoveFirstKeep<T>(s: seq<T>, m: seq<bool>, x: T)
    requires |s| == |m| && Distinct(s) && x in Keep(s, m)
    ensures RemoveFirst(Keep(s, m), x) == Keep(s, Unmark(s, m, x))
  {
    var u := Unmark(s, m, x);
    assert u[1..] == Unmark(s[1..], m[1..], x);
    assert s[0] !in s[1..];
    if s[0] == x {
      assert x !in s[1..];
      assert x !in Keep(s[1..], m[1..]);
      assert m[0];
      KeepWithout(s[1..], m[1..], x);
    } else if m[0] {
      assert Keep(s, m) == [s[0]] + Keep(s[1..], m[1..]);
      assert x in Keep(s[1..], m[1..]);
      RemoveFirstKeep(s[1..], m[1..], x);
    } else {
      assert Keep(s, m) == Keep(s[1..], m[1..]);
      RemoveFirstKeep(s[1..], m[1..], x);
    }
  }

  /** For each element of `s`, whether it is absent from `rem`. */
  function Absent<T(==)>(s: seq<T>, rem: seq<T>): (m: seq<bool>)
    ensures |m| == |s|
    ensures forall i :: 0 <= i < |s| ==> m[i] == (s[i] !in rem)
  {
    seq(|s|, i requires 0 <= i < |s| => s[i] !in rem)
  }

  /** Elements appended after `s` that are not in `rem` stay after what is left of `s`. */
  lemma {:induction false} AbsentAppend<T>(s: seq<T>, x: seq<T>, rem: seq<T>)
    requires forall y :: y in x ==> y !in rem
    ensures Keep(s + x, Absent(s + x, rem)) == Keep(s, Absent(s, rem)) + x
  {
    if x == [] {
      assert s + x == s;
    } else {
      var x', y := x[..|x| - 1], x[|x| - 1];
      assert x == x' + [y];
      AbsentAppend(s, x', rem);
      assert s + x == (s + x') + [y];
      assert Absent(s + x, rem) == Absent(s + x', rem) + [true];
      KeepAppend(s + x', Absent(s + x', rem), y, true);
    }
  }

  /**
   * One step of `for r in rem: s.remove(r)`: after the first j removals the list is `s`
   * without `rem[..j]`, and the next removal takes out `rem[j]`.
   */
  lemma AbsentStep<T>(s: seq<T>, rem: seq<T>, j: nat)
    requires Distinct(s) && Distinct(rem) && j < |rem| && forall r :: r in rem ==> r in s
    ensures rem[j] in Keep(s, Absent(s, rem[..j]))
    ensures RemoveFirst(Keep(s, Absent(s, rem[..j])), rem[j]) == Keep(s, Absent(s, rem[..j + 1]))
  {
    var m := Absent(s, rem[..j]);
    var r := rem[j];
    assert r in rem;
    var i :| 0 <= i < |s| && s[i] == r;
    AbsentNext(s, rem, j);
    KeepIn(s, m, i);
    RemoveFirstKeep(s, m, r);
  }

  /** Striking `rem[j]` from the flags of `s` without `rem[..j]` gives the flags of `s` without `rem[..j + 1]`. */
  lemma AbsentNext<T>(s: seq<T>, rem: seq<T>, j: nat)
    requires Distinct(rem) && j < |rem|
    ensures rem[j] !in rem[..j]
    ensures Unmark(s, Absent(s, rem[..j]), rem[j]) == Absent(s, rem[..j + 1])
  {
    assert rem[..j + 1] == rem[..j] + [rem[j]];
  }

  /**
   * The survivors of `for x, e in enumerate(s): if bad[x]: s.pop(x)`, as keep-flags over
   * the original list. Popping index x moves the next element into slot x, which the
   * iteration has already left, so that element is kept without being examined. No
   * element that is not bad is popped, and the first is popped exactly when it is bad.
   */
  function EnumeratePopKeep(bad: seq<bool>): (m: seq<bool>)
    ensures |m| == |bad|
    ensures forall i :: 0 <= i < |bad| && !bad[i] ==> m[i]
    ensures |bad| > 0 ==> (m[0] <==> !bad[0])
  {
    if bad == [] then []
    else if !bad[0] then [true] + EnumeratePopKeep(bad[1..])
    else if |bad| == 1 then [false]
    else [false, true] + EnumeratePopKeep(bad[2..])
  }

  /**
   * The exact rule of popping while enumerating: an element is kept exactly when it
   * is not bad or its predecessor has just been popped.
   */
  lemma {:induction false} EnumeratePopKeepAt(bad: seq<bool>, i: nat)
    requires i < |bad|
    ensures EnumeratePopKeep(bad)[i] <==> !bad[i] || (i > 0 && !EnumeratePopKeep(bad)[i - 1])
    decreases |bad|
  {
    var m := EnumeratePopKeep(bad);
    if !bad[0] {
      assert m == [true] + EnumeratePopKeep(bad[1..]);
      if i > 0 {
        EnumeratePopKeepAt(bad[1..], i - 1);
      }
    } else if |bad| > 1 {
      assert m == [false, true] + EnumeratePopKeep(bad[2..]);
      if i > 1 {
        EnumeratePopKeepAt(bad[2..], i - 2);
        if i == 2 {
          assert m[1];
        }
      }
    }
  }

  /** One unfolding of `EnumeratePopKeep` at index j. */
  lemma EnumeratePopKeepFrom(bad: seq<bool>, j: nat)
    requires j < |bad|
    ensures EnumeratePopKeep(bad[j..]) ==
      if !bad[j] then [true] + EnumeratePopKeep(bad[j + 1..])
      else if j + 1 == |bad| then [false]
      else [false, true] + EnumeratePopKeep(bad[j + 2..])
  {
    assert bad[j..][1..] == bad[j + 1..];
    if j + 1 < |bad| {
      assert bad[j..][2..] == bad[j + 2..];
    }
  }

  /**
   * The enumeration at index j: M flags the elements before j, and the element at j
   * decides the next one flag (kept) or the next two (popped, then skipped), or just one
   * when it is the last.
   */
  lemma EnumeratePopKeepNext(bad: seq<bool>, M: seq<bool>, j: nat) returns (M': seq<bool>, j': nat)
    requires j < |bad|
    ensures M' == M + (if !bad[j] then [true] else if j + 1 == |bad| then [false] else [false, true])
    ensures j' == j + |M'| - |M| && j' <= |bad|
    ensures M + EnumeratePopKeep(bad[j..]) == M' + EnumeratePopKeep(bad[j'..])
  {
    EnumeratePopKeepFrom(bad, j);
    if !bad[j] {
      M', j' := M + [true], j + 1;
      assert M + ([true] + EnumeratePopKeep(bad[j'..])) == M' + EnumeratePopKeep(bad[j'..]);
    } else if j + 1 == |bad| {
      M', j' := M + [false], j + 1;
      assert bad[j'..] == [];
    } else {
      M', j' := M + [false, true], j + 2;
      assert M + ([false, true] + EnumeratePopKeep(bad[j'..])) == M' + EnumeratePopKeep(bad[j'..]);
    }
  }

  /** The dictionary that pairs each key with the value at the same position. */
  function Zip<K, V>(ks: seq<K>, vs: seq<V>): (m: map<K, V>)
    requires |ks| == |vs| && Distinct(ks)
    ensures m.Keys == set i | 0 <= i < |ks| :: ks[i]
    ensures forall i :: 0 <= i < |ks| ==> m[ks[i]] == vs[i]
  {
    if ks == [] then map[] else Zip(ks[1..], vs[1..])[ks[0] := vs[0]]
  }

  /** Distinct values make the pairing one-to-one, and looking the keys up gives the values back. */
  lemma ZipInjective<K, V>(ks: seq<K>, vs: seq<V>)
    requires |ks| == |vs| && Distinct(ks) && Distinct(vs)
    ensures Lookup(Zip(ks, vs), ks) == vs
    ensures forall k1, k2 :: k1 in Zip(ks, vs) && k2 in Zip(ks, vs) && k1 != k2 ==> Zip(ks, vs)[k1] != Zip(ks, vs)[k2]
  {
    var m := Zip(ks, vs);
    forall k1, k2 | k1 in m && k2 in m && k1 != k2
      ensures m[k1] != m[k2]
    {
      var i1 :| 0 <= i1 < |ks| && ks[i1] == k1;
      var i2 :| 0 <= i2 < |ks| && ks[i2] == k2;
    }
  }
}
