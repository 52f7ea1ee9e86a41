/** Small facts about sequences and sets. */
module Collections {

  function Mapped<T, U>(s: seq<T>, f: T -> U): (r: seq<U>)
    ensures |r| == |s| && forall i :: 0 <= i < |s| ==> r[i] == f(s[i])
  {
    seq(|s|, i requires 0 <= i < |s| => f(s[i]))
  }

  lemma MappedCons<T, U>(x: T, s: seq<T>, f: T -> U)
    ensures Mapped([x] + s, f) == [f(x)] + Mapped(s, f)
  {
  }

  lemma MappedHead<T, U>(s: seq<T>, f: T -> U)
    requires s != []
    ensures Mapped(s, f)[0] == f(s[0]) && Mapped(s, f)[1..] == Mapped(s[1..], f)
  {
  }

  lemma SubsetSize<T>(small: set<T>, big: set<T>)
    requires small <= big
    ensures |small| <= |big|
  {
    assert big == small + (big - small);
  }

  /** A one-to-one image is as large as the set. */
  lemma {:induction false} ImageSize<T, U>(s: set<T>, t: set<U>, f: T -> U)
    requires forall i, j :: i in s && j in s && f(i) == f(j) ==> i == j
    requires forall i :: i in s ==> f(i) in t
    requires forall k :: k in t ==> exists i :: i in s && f(i) == k
    ensures |s| == |t|
  {
    if s == {} {
      assert forall k :: k !in t;
    } else {
      var x :| x in s;
      assert f(x) in t;
      forall k | k in t - {f(x)} ensures exists i :: i in s - {x} && f(i) == k {
        var i :| i in s && f(i) == k;
        assert i in s - {x};
      }
      ImageSize(s - {x}, t - {f(x)}, f);
    }
  }
}
