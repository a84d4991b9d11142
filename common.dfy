/** Small shared vocabulary: an optional value, tensor shapes, and a few list helpers. */
module Common {

  datatype Option<+T> = None | Some(value: T)

  /** A tensor shape: one (signed, as in the source's `vector<int>`) size per axis. */
  type Shape = seq<int>

  /** No element occurs twice. */
  ghost predicate NoDups<T>(s: seq<T>) {
    forall i, j :: 0 <= i < j < |s| ==> s[i] != s[j]
  }

  /** Erases the first occurrence of `x`, if any (a `std::find` followed by `erase`). */
  function RemoveFirst<T(==)>(s: seq<T>, x: T): (r: seq<T>)
    ensures x !in s ==> r == s
    ensures x in s ==> |r| == |s| - 1 && multiset(r) == multiset(s) - multiset{x}
    ensures forall y :: y in r ==> y in s
    ensures forall y :: y in s && y != x ==> y in r
  {
    if s == [] then []
    else
      assert s == [s[0]] + s[1..];
      if s[0] == x then s[1..] else [s[0]] + RemoveFirst(s[1..], x)
  }

  /** In a list without repeats, erasing the first occurrence erases the element. */
  lemma RemoveFirstNoDups<T>(s: seq<T>, x: T)
    requires NoDups(s)
    ensures x !in RemoveFirst(s, x) && NoDups(RemoveFirst(s, x))
  {
    var r := RemoveFirst(s, x);
    if x in s {
      assert multiset(s)[x] <= 1 by { MultisetOfNoDups(s, x); }
      assert multiset(r)[x] == 0;
      forall y ensures multiset(r)[y] <= 1 {
        MultisetOfNoDups(s, y);
      }
      CountsMeanNoDups(r);
    }
  }

  /** A duplicate-free list holds each element once. */
  lemma {:induction false} MultisetOfNoDups<T>(s: seq<T>, x: T)
    requires NoDups(s)
    ensures multiset(s)[x] <= 1
    decreases |s|
  {
    if s != [] {
      var s' := s[..|s| - 1];
      assert s == s' + [s[|s| - 1]];
      MultisetOfNoDups(s', x);
      if x == s[|s| - 1] {
        forall k | 0 <= k < |s'| ensures s'[k] != x {
          assert s'[k] == s[k];
        }
      }
    }
  }

  /** A list holding each element at most once has no repeats. */
  lemma CountsMeanNoDups<T>(s: seq<T>)
    requires forall y :: multiset(s)[y] <= 1
    ensures NoDups(s)
  {
    forall i, j | 0 <= i < j < |s| ensures s[i] != s[j] {
      if s[i] == s[j] {
        TwoCopies(s, i, j);
      }
    }
  }

  lemma TwoCopies<T>(s: seq<T>, i: nat, j: nat)
    requires i < j < |s| && s[i] == s[j]
    ensures multiset(s)[s[i]] >= 2
  {
    var x := s[i];
    assert s == s[..j] + [x] + s[j + 1..];
    assert s[..j] == s[..i] + [x] + s[i + 1..j];
  }

  /**
   * Erasing the first `x` keeps the relative order of the rest: the element at position `i` of
   * the result sits at some position `j` of `s`, and whatever preceded it in `s`, apart from
   * `x`, still precedes it.
   */
  lemma {:induction false} RemoveFirstKeepsBefore<T>(s: seq<T>, x: T, i: nat) returns (j: nat)
    requires i < |RemoveFirst(s, x)|
    ensures j < |s| && s[j] == RemoveFirst(s, x)[i]
    ensures forall y :: y in s[..j] && y != x ==> y in RemoveFirst(s, x)[..i]
    decreases |s|
  {
    var r := RemoveFirst(s, x);
    if s[0] == x {
      j := i + 1;
      assert s[..j] == [x] + r[..i];
    } else if i == 0 {
      j := 0;
    } else {
      var r' := RemoveFirst(s[1..], x);
      var j' := RemoveFirstKeepsBefore(s[1..], x, i - 1);
      j := j' + 1;
      assert r == [s[0]] + r';
      assert s[..j] == [s[0]] + s[1..][..j'];
      assert r[..i] == [s[0]] + r'[..i - 1];
    }
  }

  /** Erases every occurrence of `x` (the erase-while-iterating loop of removeTarget). */
  function RemoveAll<T(==)>(s: seq<T>, x: T): (r: seq<T>)
    ensures forall i :: 0 <= i < |r| ==> r[i] != x && r[i] in s
    ensures forall i :: 0 <= i < |s| && s[i] != x ==> s[i] in r
  {
    if s == [] then []
    else if s[0] == x then RemoveAll(s[1..], x)
    else [s[0]] + RemoveAll(s[1..], x)
  }

  /** Every occurrence of `from` replaced by `to`. */
  function Replace<T(==)>(s: seq<T>, from: T, to: T): (r: seq<T>)
    ensures |r| == |s|
    ensures forall i :: 0 <= i < |s| ==> r[i] == (if s[i] == from then to else s[i])
  {
    seq(|s|, i requires 0 <= i < |s| => if s[i] == from then to else s[i])
  }

  /** Replacing twice is replacing once. */
  lemma ReplaceTwice<T>(s: seq<T>, from: T, to: T)
    ensures Replace(Replace(s, from, to), from, to) == Replace(s, from, to)
  {
  }

  /** Dropping position `i` loses exactly the element there. */
  lemma DropAt<T>(t: seq<T>, i: nat)
    requires i < |t|
    ensures forall y :: y in t && y != t[i] ==> y in t[..i] + t[i + 1..]
    ensures multiset(t) == multiset(t[..i] + t[i + 1..]) + multiset{t[i]}
  {
    assert t == t[..i] + [t[i]] + t[i + 1..];
    forall y | y in t && y != t[i] ensures y in t[..i] + t[i + 1..] {
      var j :| 0 <= j < |t| && t[j] == y;
      if j < i {
        assert (t[..i] + t[i + 1..])[j] == y;
      } else {
        assert (t[..i] + t[i + 1..])[j - 1] == y;
      }
    }
  }

  /**
   * Pigeonhole: a duplicate-free list drawn from the elements of `t` is no longer than `t`, and
   * when it is as long it lists exactly `t`'s elements.
   */
  lemma {:induction false} NoDupsFits<T>(s: seq<T>, t: seq<T>)
    requires NoDups(s) && forall x :: x in s ==> x in t
    ensures |s| <= |t|
    ensures |s| == |t| ==> multiset(s) == multiset(t)
    decreases |s|
  {
    if s != [] {
      var y := s[|s| - 1];
      var s' := s[..|s| - 1];
      assert s == s' + [y];
      assert y in s;
      var j :| 0 <= j < |t| && t[j] == y;
      var t' := t[..j] + t[j + 1..];
      DropAt(t, j);
      forall x | x in s' ensures x in t' {
        var k :| 0 <= k < |s'| && s'[k] == x;
        assert s[k] == x && s[|s| - 1] == y && x in s;
        assert x in t && x != t[j];
      }
      NoDupsFits(s', t');
    }
  }
}
