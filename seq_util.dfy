// Small sequence vocabulary shared by the pools and systems.
module SeqUtil {

  /** No element occurs twice. */
  predicate NoDup<T(==)>(s: seq<T>) {
    forall i, j :: 0 <= i < j < |s| ==> s[i] != s[j]
  }

  /** Array.prototype.indexOf: the first position of `x`, or -1. */
  function IndexOf<T(==)>(s: seq<T>, x: T): (i: int)
    ensures -1 <= i < |s|
    ensures 0 <= i ==> s[i] == x && x !in s[..i]
    ensures i == -1 <==> x !in s
  {
    if |s| == 0 then -1
    else if s[0] == x then 0
    else
      var k := IndexOf(s[1..], x);
      if k < 0 then -1
      else
        assert s[..k + 1] == [s[0]] + s[1..][..k];
        k + 1
  }

  /** The position of the first set mark, or -1 when none is set. */
  function First(m: seq<bool>): (k: int)
    ensures -1 <= k < |m|
    ensures k >= 0 ==> m[k]
    ensures forall j :: 0 <= j < |m| && (k < 0 || j < k) ==> !m[j]
  {
    if m == [] then -1
    else
      var k := First(m[..|m| - 1]);
      if k >= 0 then k else if m[|m| - 1] then |m| - 1 else -1
  }

  /** `s` with position `i` cut out (Array.prototype.splice(i, 1)). */
  function RemoveAt<T>(s: seq<T>, i: nat): (r: seq<T>)
    requires i < |s|
    ensures |r| == |s| - 1
    ensures forall k :: 0 <= k < i ==> r[k] == s[k]
    ensures forall k :: i <= k < |r| ==> r[k] == s[k + 1]
  {
    s[..i] + s[i + 1..]
  }

  lemma {:induction false} NoDupRemoveAt<T>(s: seq<T>, i: nat)
    requires NoDup(s) && i < |s|
    ensures NoDup(RemoveAt(s, i))
    ensures s[i] !in RemoveAt(s, i)
    ensures forall x :: x in RemoveAt(s, i) <==> x in s && x != s[i]
  {
    var r := RemoveAt(s, i);
    forall x | x in s && x != s[i] ensures x in r {
      var k :| 0 <= k < |s| && s[k] == x;
      if k < i { assert r[k] == x; } else { assert r[k - 1] == x; }
    }
  }

  function Reverse<T>(s: seq<T>): (r: seq<T>)
    ensures |r| == |s|
    ensures forall i :: 0 <= i < |s| ==> r[i] == s[|s| - 1 - i]
  {
    if |s| == 0 then [] else Reverse(s[1..]) + [s[0]]
  }

  /** Reversing keeps every element, as often as it occurs. */
  lemma {:induction false} ReverseMultiset<T>(s: seq<T>)
    ensures multiset(Reverse(s)) == multiset(s)
  {
    if |s| > 0 {
      ReverseMultiset(s[1..]);
      assert s == [s[0]] + s[1..];
    }
  }

  lemma {:induction false} IndexOfNoDup<T>(s: seq<T>, i: nat)
    requires NoDup(s) && i < |s|
    ensures IndexOf(s, s[i]) == i
  {
    assert forall j :: 0 <= j < |s| && j != i ==> s[j] != s[i];
  }

  /** The elements of `s` whose mark in `m` is set, in order. */
  function Kept<T>(s: seq<T>, m: seq<bool>): (r: seq<T>)
    requires |s| == |m|
    ensures |r| <= |s|
  {
    if s == [] then [] else (if m[0] then [s[0]] else []) + Kept(s[1..], m[1..])
  }

  /** Marking one more element at the end extends what is kept by it exactly when its mark is set. */
  lemma {:induction false} KeptSnoc<T>(s: seq<T>, m: seq<bool>, x: T, b: bool)
    requires |s| == |m|
    ensures Kept(s + [x], m + [b]) == Kept(s, m) + (if b then [x] else [])
  {
    if s == [] {
      assert (s + [x])[1..] == [] && (m + [b])[1..] == [];
    } else {
      assert (s + [x])[1..] == s[1..] + [x] && (m + [b])[1..] == m[1..] + [b];
      KeptSnoc(s[1..], m[1..], x, b);
    }
  }

  /** Kept keeps as many elements as there are set marks. */
  lemma {:induction false} KeptCount<T>(s: seq<T>, m: seq<bool>)
    requires |s| == |m|
    ensures |Kept(s, m)| == |set i | 0 <= i < |m| && m[i]|
  {
    if s != [] {
      var n := |s| - 1;
      KeptCount(s[..n], m[..n]);
      KeptSnoc(s[..n], m[..n], s[n], m[n]);
      assert s[..n] + [s[n]] == s && m[..n] + [m[n]] == m;
      var before := set i | 0 <= i < n && m[..n][i];
      assert before == set i | 0 <= i < n && m[i];
      assert (set i | 0 <= i < |m| && m[i]) == before + (if m[n] then {n} else {});
      assert n !in before;
    }
  }

  /** The elements of `s` whose mark is clear, last first. */
  function DroppedBackwards<T>(s: seq<T>, m: seq<bool>): (r: seq<T>)
    requires |s| == |m|
    ensures |r| <= |s|
  {
    if s == [] then [] else DroppedBackwards(s[1..], m[1..]) + (if m[0] then [] else [s[0]])
  }

  lemma {:induction false} KeptAt<T>(s: seq<T>, m: seq<bool>, i: nat)
    requires |s| == |m| && i < |s|
    ensures Kept(s[i..], m[i..]) == (if m[i] then [s[i]] else []) + Kept(s[i + 1..], m[i + 1..])
    ensures DroppedBackwards(s[i..], m[i..]) == DroppedBackwards(s[i + 1..], m[i + 1..]) + (if m[i] then [] else [s[i]])
  {
    assert s[i..][1..] == s[i + 1..] && m[i..][1..] == m[i + 1..];
  }

  /** Kept keeps exactly the marked elements. */
  lemma {:induction false} KeptMembers<T>(s: seq<T>, m: seq<bool>, x: T)
    requires |s| == |m| && NoDup(s)
    ensures x in Kept(s, m) <==> exists i :: 0 <= i < |s| && s[i] == x && m[i]
  {
    if s != [] {
      KeptMembers(s[1..], m[1..], x);
      if x in Kept(s[1..], m[1..]) {
        var i :| 0 <= i < |s| - 1 && s[1..][i] == x && m[1..][i];
        assert s[i + 1] == x && m[i + 1];
      }
      if exists i :: 0 <= i < |s| && s[i] == x && m[i] {
        var i :| 0 <= i < |s| && s[i] == x && m[i];
        if i > 0 { assert s[1..][i - 1] == x && m[1..][i - 1]; }
      }
    }
  }

  /** Moving the head of `s` onto the end of `p`. */
  lemma {:induction false} ShiftHead<T>(p: seq<T>, s: seq<T>)
    requires s != []
    ensures p + s == (p + [s[0]]) + s[1..]
  {
    assert s == [s[0]] + s[1..];
  }

  /** Splicing out the first entry after `p`: the second one moves up. */
  lemma {:induction false} RemoveAtHead<T>(p: seq<T>, s: seq<T>)
    requires s != []
    ensures |s| == 1 ==> RemoveAt(p + s, |p|) == p
    ensures 1 < |s| ==> RemoveAt(p + s, |p|) == (p + [s[1]]) + s[2..]
  {
    assert (p + s)[..|p|] == p;
    assert (p + s)[|p| + 1..] == s[1..];
    if 1 < |s| {
      assert s[1..] == [s[1]] + s[2..];
    }
  }

  lemma {:induction false} RemoveAtJoin<T>(p: seq<T>, x: T, q: seq<T>)
    ensures RemoveAt(p + [x] + q, |p|) == p + q
  {
    assert (p + [x] + q)[..|p|] == p;
    assert (p + [x] + q)[|p| + 1..] == q;
  }

  /** The list bookkeeping of one sweep step at position `i`: element `i` is the
      last of the unswept prefix, and freeing it (when it is not kept) or
      leaving it (when it is) extends the swept suffix by one. */
  lemma {:induction false} SweepStep<T>(act: seq<T>, keep: seq<bool>, free: seq<T>, i: int, active: seq<T>, pool: seq<T>)
    requires 0 <= i < |act| == |keep| && NoDup(active)
    requires active == act[..i + 1] + Kept(act[i + 1..], keep[i + 1..])
    requires pool == free + DroppedBackwards(act[i + 1..], keep[i + 1..])
    ensures i < |active| && active[i] == act[i] && IndexOf(active, act[i]) == i
    ensures keep[i] ==> active == act[..(i - 1) + 1] + Kept(act[(i - 1) + 1..], keep[(i - 1) + 1..])
    ensures keep[i] ==> pool == free + DroppedBackwards(act[(i - 1) + 1..], keep[(i - 1) + 1..])
    ensures !keep[i] ==> RemoveAt(active, i) == act[..(i - 1) + 1] + Kept(act[(i - 1) + 1..], keep[(i - 1) + 1..])
    ensures !keep[i] ==> pool + [act[i]] == free + DroppedBackwards(act[(i - 1) + 1..], keep[(i - 1) + 1..])
  {
    KeptAt(act, keep, i);
    assert active[i] == act[i];
    IndexOfNoDup(active, i);
    if keep[i] {
      SweepKeep(act, keep, i);
    } else {
      SweepDrop(act, keep, i);
    }
  }

  lemma {:induction false} SweepKeep<T>(act: seq<T>, keep: seq<bool>, i: int)
    requires 0 <= i < |act| == |keep| && keep[i]
    ensures act[..i + 1] + Kept(act[i + 1..], keep[i + 1..]) == act[..i] + Kept(act[i..], keep[i..])
  {
    KeptAt(act, keep, i);
    assert act[..i + 1] == act[..i] + [act[i]];
  }

  lemma {:induction false} SweepDrop<T>(act: seq<T>, keep: seq<bool>, i: int)
    requires 0 <= i < |act| == |keep| && !keep[i]
    ensures RemoveAt(act[..i + 1] + Kept(act[i + 1..], keep[i + 1..]), i) == act[..i] + Kept(act[i..], keep[i..])
  {
    KeptAt(act, keep, i);
    assert act[..i + 1] == act[..i] + [act[i]];
    RemoveAtJoin(act[..i], act[i], Kept(act[i + 1..], keep[i + 1..]));
  }

  lemma {:induction false} NoDupSplit<T>(a: seq<T>, b: seq<T>)
    requires NoDup(a + b)
    ensures NoDup(a) && NoDup(b) && forall x :: x in a ==> x !in b
  {
    forall i, j | 0 <= i < j < |a| ensures a[i] != a[j] {
      assert (a + b)[i] == a[i] && (a + b)[j] == a[j];
    }
    forall i, j | 0 <= i < j < |b| ensures b[i] != b[j] {
      assert (a + b)[|a| + i] == b[i] && (a + b)[|a| + j] == b[j];
    }
    forall i, j | 0 <= i < |a| && 0 <= j < |b| ensures a[i] != b[j] {
      assert (a + b)[i] == a[i] && (a + b)[|a| + j] == b[j];
    }
  }

  lemma {:induction false} NoDupJoin<T>(a: seq<T>, b: seq<T>)
    requires NoDup(a) && NoDup(b) && forall x :: x in a ==> x !in b
    ensures NoDup(a + b)
  {
    forall i, j | 0 <= i < j < |a + b| ensures (a + b)[i] != (a + b)[j] {
      if j < |a| {
      } else if i >= |a| {
        assert (a + b)[i] == b[i - |a|] && (a + b)[j] == b[j - |a|];
      } else {
        assert (a + b)[i] in a && (a + b)[j] in b;
      }
    }
  }

  /** Popping the last free object and appending it to the in-use list keeps the lists duplicate-free. */

  /** No duplicates exactly when every element occurs at most once in the multiset. */
  lemma {:induction false} NoDupMultiset<T>(s: seq<T>)
    ensures NoDup(s) <==> forall x :: multiset(s)[x] <= 1
    decreases |s|
  {
    if s != [] {
      var h, t := s[0], s[1..];
      assert s == [h] + t;
      assert forall x :: multiset(s)[x] == (if x == h then 1 else 0) + multiset(t)[x];
      NoDupMultiset(t);
      if NoDup(s) {
        NoDupSplit([h], t);
        assert multiset(t)[h] == 0;
      }
      if forall x :: multiset(s)[x] <= 1 {
        assert multiset(t)[h] == 0;
        assert forall x :: multiset(t)[x] <= 1 by {
          forall x ensures multiset(t)[x] <= 1 {
            assert multiset(s)[x] <= 1;
          }
        }
        NoDupJoin([h], t);
      }
    }
  }

  /** Extending a prefix of `s` by one element, behind a fixed head `d`. */
  lemma {:induction false} PrefixSnoc<T>(d: seq<T>, s: seq<T>, j: int)
    requires 0 <= j < |s|
    ensures d + s[..j + 1] == (d + s[..j]) + [s[j]]
  {
    assert s[..j + 1] == s[..j] + [s[j]];
  }
}
