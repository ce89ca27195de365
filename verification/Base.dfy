/** Failure-carrying datatypes shared by every module. */
module Wrappers {
  datatype Option<+T> = None | Some(value: T) {
    function GetOr(default: T): T {
      match this
      case Some(v) => v
      case None => default
    }
  }

  datatype Result<+T, +E> = Ok(value: T) | Err(error: E)
}

/** Facts about sequences and finite sets that the bounded stores rely on. */
module Collections {

  const U32_MAX: nat := 0xFFFF_FFFF
  const U64_MAX: nat := 0xFFFF_FFFF_FFFF_FFFF

  /** `u64::saturating_add(1)`. */
  function SaturatingInc(n: nat): nat {
    if n < U64_MAX then n + 1 else n
  }

  ghost predicate NoDup<T(!new)>(s: seq<T>) {
    forall i, j :: 0 <= i < j < |s| ==> s[i] != s[j]
  }

  predicate Increasing(s: seq<nat>) {
    forall i, j :: 0 <= i < j < |s| ==> s[i] < s[j]
  }

  function Elems<T>(s: seq<T>): set<T> {
    set x | x in s
  }

  /** `VecDeque::retain` with the elements to keep given as a set. */
  function Kept<T(!new, ==)>(s: seq<T>, keep: set<T>): (r: seq<T>)
    ensures forall x :: x in r <==> x in s && x in keep
  {
    if s == [] then []
    else
      var tail := Kept(s[1..], keep);
      if s[0] in keep then [s[0]] + tail else tail
  }

  /** `x` stands somewhere before `y`. */
  ghost predicate Before<T>(s: seq<T>, x: T, y: T) {
    exists i, j :: 0 <= i < j < |s| && s[i] == x && s[j] == y
  }

  lemma {:induction false} KeptNoDup<T(!new)>(s: seq<T>, keep: set<T>)
    requires NoDup(s)
    ensures NoDup(Kept(s, keep))
  {
    if s != [] {
      KeptNoDup(s[1..], keep);
      assert s[0] !in s[1..];
    }
  }

  lemma {:induction false} KeptIncreasing(s: seq<nat>, keep: set<nat>)
    requires Increasing(s)
    ensures Increasing(Kept(s, keep))
  {
    if s != [] {
      var r, tail := Kept(s, keep), Kept(s[1..], keep);
      KeptIncreasing(s[1..], keep);
      forall i | 0 <= i < |tail| ensures s[0] < tail[i] {
        assert tail[i] in s[1..];
      }
      assert r == tail || r == [s[0]] + tail;
    }
  }

  lemma {:induction false} KeptAll<T(!new)>(s: seq<T>, keep: set<T>)
    requires forall x :: x in s ==> x in keep
    ensures Kept(s, keep) == s
  {
    if s != [] {
      KeptAll(s[1..], keep);
    }
  }

  lemma {:induction false} KeptBefore<T(!new)>(s: seq<T>, keep: set<T>, x: T, y: T)
    requires Before(Kept(s, keep), x, y)
    ensures Before(s, x, y)
  {
    var r := Kept(s, keep);
    var i, j :| 0 <= i < j < |r| && r[i] == x && r[j] == y;
    var tail := Kept(s[1..], keep);
    if s[0] in keep {
      assert r == [s[0]] + tail;
      if i == 0 {
        assert tail[j - 1] == y;
        assert y in s[1..];
        var m :| 0 <= m < |s[1..]| && s[1..][m] == y;
        assert s[0] == x && s[m + 1] == y;
      } else {
        assert tail[i - 1] == x && tail[j - 1] == y;
        KeptBefore(s[1..], keep, x, y);
        BeforeTail(s, x, y);
      }
    } else {
      KeptBefore(s[1..], keep, x, y);
      BeforeTail(s, x, y);
    }
  }

  lemma BeforeTail<T>(s: seq<T>, x: T, y: T)
    requires s != [] && Before(s[1..], x, y)
    ensures Before(s, x, y)
  {
    var i, j :| 0 <= i < j < |s[1..]| && s[1..][i] == x && s[1..][j] == y;
    assert s[i + 1] == x && s[j + 1] == y;
  }

  lemma {:induction false} SubsetCard<T>(a: set<T>, b: set<T>)
    requires a <= b
    ensures |a| <= |b|
    decreases |a|
  {
    if a != {} {
      var x :| x in a;
      SubsetCard(a - {x}, b - {x});
    }
  }

  lemma {:induction false} NoDupCard<T(!new)>(s: seq<T>)
    requires NoDup(s)
    ensures |Elems(s)| == |s|
  {
    if s != [] {
      NoDupCard(s[1..]);
      assert s[0] !in s[1..];
      assert Elems(s) == {s[0]} + Elems(s[1..]);
    }
  }

  lemma DropFirst<T(!new)>(s: seq<T>)
    requires NoDup(s) && s != []
    ensures NoDup(s[1..]) && Elems(s[1..]) == Elems(s) - {s[0]}
  {
    assert s == [s[0]] + s[1..];
  }
}
