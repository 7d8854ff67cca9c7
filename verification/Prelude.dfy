/** Shared vocabulary: identifiers, options and facts about sequences without repetition. */
module Prelude {
  datatype Option<+T> = None | Some(value: T)

  /** io_id_t: 0 is the value that means "no source". */
  type IoId = nat

  /** A truth value as a number, for counting. */
  function One(b: bool): nat {
    if b then 1 else 0
  }

  predicate NoDup<T(==)>(s: seq<T>) {
    forall i, j :: 0 <= i < j < |s| ==> s[i] != s[j]
  }

  lemma NoDupConcat<T>(a: seq<T>, b: seq<T>)
    ensures NoDup(a + b) <==> NoDup(a) && NoDup(b) && forall x :: x in a ==> x !in b
  {
    var c := a + b;
    assert forall i :: 0 <= i < |a| ==> a[i] == c[i];
    assert forall i :: 0 <= i < |b| ==> b[i] == c[|a| + i];
    if NoDup(a) && NoDup(b) && forall x :: x in a ==> x !in b {
      forall i, j | 0 <= i < j < |c| ensures c[i] != c[j] {
        if i < |a| <= j {
          assert a[i] in a && b[j - |a|] in b;
        }
      }
    }
    if NoDup(c) {
      forall x | x in a ensures x !in b {
        var i :| 0 <= i < |a| && a[i] == x;
        assert c[i] == x;
      }
    }
  }

  function Mapped<S, T>(s: seq<S>, f: S -> T): (r: seq<T>)
    ensures |r| == |s| && forall i :: 0 <= i < |s| ==> r[i] == f(s[i])
  {
    seq(|s|, i requires 0 <= i < |s| => f(s[i]))
  }

  /** base, base + 1, ..., base + n - 1 */
  function Range(base: nat, n: nat): (r: seq<nat>)
    ensures |r| == n && NoDup(r)
    ensures forall x: nat :: x in r <==> base <= x < base + n
  {
    var r := seq(n, i requires i >= 0 => base + i);
    assert forall x: nat :: x in r <==> base <= x < base + n by {
      forall x: nat | base <= x < base + n ensures x in r {
        assert r[x - base] == x;
      }
    }
    r
  }

  lemma {:induction false} UpperBound(s: set<nat>) returns (m: nat)
    ensures forall k :: k in s ==> k <= m
    decreases |s|
  {
    m := 0;
    if s != {} {
      var k :| k in s;
      var rest := UpperBound(s - {k});
      m := if k > rest then k else rest;
      assert forall j :: j in s ==> j == k || j in s - {k};
    }
  }

  predicate IsLeast(s: set<nat>, m: nat) {
    m in s && forall k :: k in s ==> m <= k
  }

  lemma {:induction false} LeastExists(s: set<nat>)
    requires s != {}
    ensures exists m :: IsLeast(s, m)
    decreases |s|
  {
    var x :| x in s;
    var rest := s - {x};
    assert s == rest + {x};
    if rest == {} {
      assert IsLeast(s, x);
    } else {
      LeastExists(rest);
      var m :| IsLeast(rest, m);
      assert IsLeast(s, if m <= x then m else x);
    }
  }

  ghost function Least(s: set<nat>): (m: nat)
    requires s != {}
    ensures IsLeast(s, m)
  {
    LeastExists(s);
    var m :| IsLeast(s, m);
    m
  }

  /** The keys of a std::map in iteration order. */
  ghost function Ascending(s: set<nat>): (r: seq<nat>)
    ensures |r| == |s| && NoDup(r)
    ensures forall x :: x in r <==> x in s
    decreases |s|
  {
    if s == {} then [] else
      var m := Least(s);
      [m] + Ascending(s - {m})
  }

  lemma {:induction false} AscendingIsSorted(s: set<nat>)
    ensures forall i, j :: 0 <= i < j < |Ascending(s)| ==> Ascending(s)[i] < Ascending(s)[j]
    decreases |s|
  {
    if s != {} {
      var m := Least(s);
      AscendingIsSorted(s - {m});
      var rest := Ascending(s - {m});
      assert Ascending(s) == [m] + rest;
      forall j | 0 <= j < |rest| ensures m < rest[j] {
        assert rest[j] in rest;
      }
    }
  }
}
