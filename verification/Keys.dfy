/**
 Store keys: byte strings in lexicographic order, and the ordered enumeration of
 a finite key set in either scan direction.
 */
module Keys {
  newtype Byte = b: int | 0 <= b < 256
  type Bytes = seq<Byte>

  datatype Key = Key(bytes: Bytes)

  datatype Direction = Forward | Reverse

  /** Lexicographic order of byte strings; a proper prefix comes first. */
  predicate Less(a: Bytes, b: Bytes)
    decreases |a|
  {
    b != [] && (a == [] || a[0] < b[0] || (a[0] == b[0] && Less(a[1..], b[1..])))
  }

  /** `a` is met before `b` when keys are walked in direction `dir`. */
  predicate Before(dir: Direction, a: Key, b: Key) {
    match dir
    case Forward => Less(a.bytes, b.bytes)
    case Reverse => Less(b.bytes, a.bytes)
  }

  lemma {:induction false} LessIrreflexive(a: Bytes)
    ensures !Less(a, a)
    decreases |a|
  {
    if a != [] { LessIrreflexive(a[1..]); }
  }

  lemma {:induction false} LessTransitive(a: Bytes, b: Bytes, c: Bytes)
    requires Less(a, b) && Less(b, c)
    ensures Less(a, c)
    decreases |a|
  {
    if a != [] && a[0] == b[0] == c[0] { LessTransitive(a[1..], b[1..], c[1..]); }
  }

  lemma {:induction false} LessTotal(a: Bytes, b: Bytes)
    ensures Less(a, b) || a == b || Less(b, a)
    decreases |a|
  {
    if a != [] && b != [] && a[0] == b[0] {
      LessTotal(a[1..], b[1..]);
      assert a == [a[0]] + a[1..] && b == [b[0]] + b[1..];
    }
  }

  /** `Before` is a strict total order in either direction. */
  lemma BeforeIrreflexive(dir: Direction, a: Key)
    ensures !Before(dir, a, a)
  {
    LessIrreflexive(a.bytes);
  }

  lemma BeforeTransitive(dir: Direction, a: Key, b: Key, c: Key)
    requires Before(dir, a, b) && Before(dir, b, c)
    ensures Before(dir, a, c)
  {
    if dir == Forward { LessTransitive(a.bytes, b.bytes, c.bytes); } else { LessTransitive(c.bytes, b.bytes, a.bytes); }
  }

  lemma BeforeTotal(dir: Direction, a: Key, b: Key)
    ensures Before(dir, a, b) || a == b || Before(dir, b, a)
  {
    LessTotal(a.bytes, b.bytes);
  }

  lemma BeforeAsymmetric(dir: Direction, a: Key, b: Key)
    requires Before(dir, a, b)
    ensures !Before(dir, b, a) && a != b
  {
    BeforeIrreflexive(dir, a);
    if Before(dir, b, a) { BeforeTransitive(dir, a, b, a); }
  }

  /** Strictly increasing in direction `dir`: ordered and without repetition. */
  ghost predicate Sorted(dir: Direction, ks: seq<Key>) {
    forall i, j :: 0 <= i < j < |ks| ==> Before(dir, ks[i], ks[j])
  }

  predicate IsFirst(dir: Direction, s: set<Key>, k: Key) {
    k in s && forall x :: x in s && x != k ==> Before(dir, k, x)
  }

  lemma {:induction false} FirstExists(dir: Direction, s: set<Key>)
    requires s != {}
    ensures exists k :: IsFirst(dir, s, k)
    decreases |s|
  {
    var k :| k in s;
    var rest := s - {k};
    if rest == {} {
      assert s == {k};
      assert IsFirst(dir, s, k);
    } else {
      FirstExists(dir, rest);
      var m :| IsFirst(dir, rest, m);
      BeforeTotal(dir, k, m);
      if Before(dir, k, m) {
        forall x | x in s && x != k ensures Before(dir, k, x) {
          if x != m { BeforeTransitive(dir, k, m, x); }
        }
        assert IsFirst(dir, s, k);
      } else {
        assert IsFirst(dir, s, m);
      }
    }
  }

  lemma FirstUnique(dir: Direction, s: set<Key>, a: Key, b: Key)
    requires IsFirst(dir, s, a) && IsFirst(dir, s, b)
    ensures a == b
  {
    if a != b { BeforeAsymmetric(dir, a, b); }
  }

  function First(dir: Direction, s: set<Key>): (k: Key)
    requires s != {}
    ensures IsFirst(dir, s, k)
  {
    FirstExists(dir, s);
    assert forall a, b :: IsFirst(dir, s, a) && IsFirst(dir, s, b) ==> a == b by {
      forall a, b | IsFirst(dir, s, a) && IsFirst(dir, s, b) ensures a == b { FirstUnique(dir, s, a, b); }
    }
    var k :| k in s && IsFirst(dir, s, k);
    k
  }

  /** The keys of `s` in direction `dir`: what walking a B-tree map yields. */
  function Ordered(dir: Direction, s: set<Key>): (ks: seq<Key>)
    ensures Sorted(dir, ks) && |ks| == |s|
    ensures forall k :: k in ks <==> k in s
    decreases |s|
  {
    if s == {} then [] else
      var k := First(dir, s);
      [k] + Ordered(dir, s - {k})
  }

  /** A strictly sorted enumeration is determined by its elements. */
  lemma {:induction false} SortedUnique(dir: Direction, xs: seq<Key>, ys: seq<Key>)
    requires Sorted(dir, xs) && Sorted(dir, ys)
    requires forall k :: k in xs <==> k in ys
    ensures xs == ys
    decreases |xs|
  {
    assert ys != [] ==> ys[0] in xs;
    if xs != [] {
      assert xs[0] in ys;
      assert ys[0] in xs;
      if xs[0] != ys[0] {
        assert Before(dir, xs[0], ys[0]);
        assert Before(dir, ys[0], xs[0]);
        BeforeAsymmetric(dir, xs[0], ys[0]);
      }
      forall k ensures k in xs[1..] <==> k in ys[1..] {
        TailMembers(dir, xs, k);
        TailMembers(dir, ys, k);
      }
      SortedUnique(dir, xs[1..], ys[1..]);
      assert xs == [xs[0]] + xs[1..] && ys == [ys[0]] + ys[1..];
    }
  }

  lemma TailMembers(dir: Direction, xs: seq<Key>, k: Key)
    requires Sorted(dir, xs) && xs != []
    ensures k in xs[1..] <==> k in xs && k != xs[0]
  {
    BeforeIrreflexive(dir, xs[0]);
    if k in xs && k != xs[0] {
      var i :| 0 <= i < |xs| && xs[i] == k;
      assert xs[1..][i - 1] == k;
    }
    if k in xs[1..] {
      var i :| 0 <= i < |xs[1..]| && xs[1..][i] == k;
      assert Before(dir, xs[0], xs[i + 1]);
    }
  }

  /** In a sorted sequence the keys beyond position `n - 1` are those behind its key. */
  lemma SuffixMembers(dir: Direction, ks: seq<Key>, n: nat, k: Key)
    requires Sorted(dir, ks) && 0 < n <= |ks|
    ensures k in ks[n..] <==> k in ks && Before(dir, ks[n - 1], k)
  {
    if k in ks[n..] {
      var i :| 0 <= i < |ks[n..]| && ks[n..][i] == k;
      assert ks[n + i] == k;
    }
    if k in ks && Before(dir, ks[n - 1], k) {
      var i :| 0 <= i < |ks| && ks[i] == k;
      BeforeAsymmetric(dir, ks[n - 1], k);
      assert ks[n..][i - n] == k;
    }
  }

  /** Joining two sorted runs at a key that ends the first and precedes the second. */
  lemma SortedAppend(dir: Direction, xs: seq<Key>, ys: seq<Key>)
    requires Sorted(dir, xs) && Sorted(dir, ys) && xs != []
    requires forall j :: 0 <= j < |ys| ==> Before(dir, xs[|xs| - 1], ys[j])
    ensures Sorted(dir, xs + ys)
  {
    var n := |xs|;
    forall i, j | 0 <= i < j < |xs + ys| ensures Before(dir, (xs + ys)[i], (xs + ys)[j]) {
      if i < n - 1 && j >= n { BeforeTransitive(dir, xs[i], xs[n - 1], ys[j - n]); }
    }
  }

  /** The one ordered enumeration of `s`, stated by what it is rather than how it is built. */
  ghost function Walk(dir: Direction, s: set<Key>): (ks: seq<Key>)
    ensures Sorted(dir, ks)
    ensures forall k :: k in ks <==> k in s
  {
    assert Sorted(dir, Ordered(dir, s));
    var ks :| Sorted(dir, ks) && forall k :: k in ks <==> k in s;
    ks
  }

  lemma OrderedIsWalk(dir: Direction, s: set<Key>)
    ensures Ordered(dir, s) == Walk(dir, s)
  {
    SortedUnique(dir, Ordered(dir, s), Walk(dir, s));
  }

  function Reversed(ks: seq<Key>): (r: seq<Key>)
    ensures |r| == |ks| && forall i :: 0 <= i < |r| ==> r[i] == ks[|ks| - 1 - i]
  {
    if ks == [] then [] else Reversed(ks[1..]) + [ks[0]]
  }

  lemma ReversedMembers(ks: seq<Key>, k: Key)
    ensures k in Reversed(ks) <==> k in ks
  {
  }

  lemma ReversedSorted(ks: seq<Key>)
    requires Sorted(Forward, ks)
    ensures Sorted(Reverse, Reversed(ks))
  {
  }

  /** Reversing the forward walk gives the reverse walk. */
  lemma ReversedWalk(s: set<Key>)
    ensures Reversed(Ordered(Forward, s)) == Ordered(Reverse, s)
  {
    var f := Ordered(Forward, s);
    forall k ensures k in Reversed(f) <==> k in f { ReversedMembers(f, k); }
    ReversedSorted(f);
    SortedUnique(Reverse, Reversed(f), Ordered(Reverse, s));
  }
}
