/** Subsequences and the elements a partial function collects from a sequence. */
module Subsequences {
  import opened Framing

  /** `a` can be got from `b` by leaving out elements. */
  predicate Sub<T(==)>(a: seq<T>, b: seq<T>)
    decreases |b|
  {
    if a == [] then true
    else if b == [] then false
    else
      (a[|a| - 1] == b[|b| - 1] && Sub(a[..|a| - 1], b[..|b| - 1])) || Sub(a, b[..|b| - 1])
  }

  /** f(x).value for those x in `s` that have one. */
  function Collect<T, U>(f: T -> Option<U>, s: seq<T>): seq<U> {
    if s == [] then []
    else
      var init, last := Collect(f, s[..|s| - 1]), f(s[|s| - 1]);
      if last.Some? then init + [last.value] else init
  }

  /** The values that are there. */
  function Somes<T>(s: seq<Option<T>>): seq<T> {
    if s == [] then []
    else
      var init, last := Somes(s[..|s| - 1]), s[|s| - 1];
      if last.Some? then init + [last.value] else init
  }

  lemma SomesSnoc<T>(s: seq<Option<T>>, x: Option<T>)
    ensures Somes(s + [x]) == if x.Some? then Somes(s) + [x.value] else Somes(s)
  {
  }

  lemma MoveOver<T>(a: seq<T>, x: T, rest: seq<T>, rest': seq<T>)
    requires rest == [x] + rest'
    ensures a + rest == a + [x] + rest'
  {
  }

  lemma SubSkip<T>(a: seq<T>, b: seq<T>, x: T)
    requires Sub(a, b)
    ensures Sub(a, b + [x])
  {
  }

  lemma SubBoth<T>(a: seq<T>, b: seq<T>, x: T)
    requires Sub(a, b)
    ensures Sub(a + [x], b + [x])
  {
  }

  lemma {:induction false} SubPrefix<T>(a: seq<T>, n: nat)
    requires n <= |a|
    ensures Sub(a[..n], a)
  {
    if n < |a| {
      SubPrefix(a[..|a| - 1], n);
      assert a[..|a| - 1][..n] == a[..n];
      SubSkip(a[..n], a[..|a| - 1], a[|a| - 1]);
      assert a == a[..|a| - 1] + [a[|a| - 1]];
    } else {
      assert a[..n] == a;
      SubRefl(a);
    }
  }

  lemma {:induction false} SubRefl<T>(a: seq<T>)
    ensures Sub(a, a)
  {
    if a != [] {
      SubRefl(a[..|a| - 1]);
    }
  }

  lemma {:induction false} SubTrans<T>(a: seq<T>, b: seq<T>, c: seq<T>)
    requires Sub(a, b) && Sub(b, c)
    ensures Sub(a, c)
    decreases |c|
  {
    if a != [] && b != [] {
      var a', b', c' := a[..|a| - 1], b[..|b| - 1], c[..|c| - 1];
      if Sub(b, c') {
        SubTrans(a, b, c');
      } else if Sub(a, b') {
        SubTrans(a, b', c');
      } else {
        SubTrans(a', b', c');
      }
    }
  }

  lemma {:induction false} SubCollect<T, U>(f: T -> Option<U>, a: seq<T>, b: seq<T>)
    requires Sub(a, b)
    ensures Sub(Collect(f, a), Collect(f, b))
    decreases |b|
  {
    if a != [] {
      var a', b', x := a[..|a| - 1], b[..|b| - 1], b[|b| - 1];
      if Sub(a, b') {
        SubCollect(f, a, b');
        if f(x).Some? {
          SubSkip(Collect(f, a), Collect(f, b'), f(x).value);
        }
      } else {
        SubCollect(f, a', b');
        if f(x).Some? {
          SubBoth(Collect(f, a'), Collect(f, b'), f(x).value);
        }
      }
    }
  }

  lemma CollectSnoc<T, U>(f: T -> Option<U>, s: seq<T>, x: T)
    ensures Collect(f, s + [x]) == if f(x).Some? then Collect(f, s) + [f(x).value] else Collect(f, s)
  {
  }

  lemma {:induction false} CollectConcat<T, U>(f: T -> Option<U>, a: seq<T>, b: seq<T>)
    ensures Collect(f, a + b) == Collect(f, a) + Collect(f, b)
  {
    if b == [] {
      assert a + b == a;
    } else {
      var init, last := b[..|b| - 1], b[|b| - 1];
      CollectConcat(f, a, init);
      assert a + b == a + init + [last];
      CollectSnoc(f, a + init, last);
    }
  }

  lemma {:induction false} SubConcat<T>(a: seq<T>, b: seq<T>, c: seq<T>, d: seq<T>)
    requires Sub(a, b) && Sub(c, d)
    ensures Sub(a + c, b + d)
    decreases |d|
  {
    if d == [] {
      assert a + c == a && b + d == b;
    } else {
      var d', x := d[..|d| - 1], d[|d| - 1];
      assert b + d == b + d' + [x];
      if Sub(c, d') {
        SubConcat(a, b, c, d');
        SubSkip(a + c, b + d', x);
      } else {
        SubConcat(a, b, c[..|c| - 1], d');
        assert a + c == a + c[..|c| - 1] + [x];
        SubBoth(a + c[..|c| - 1], b + d', x);
      }
    }
  }

  /** A subsequence is no longer, and if it is as long it is the whole. */
  lemma {:induction false} SubLength<T>(a: seq<T>, b: seq<T>)
    requires Sub(a, b)
    ensures |a| <= |b|
    ensures a == b <==> |a| == |b|
    decreases |b|
  {
    if a != [] {
      var b' := b[..|b| - 1];
      if Sub(a, b') {
        SubLength(a, b');
      } else {
        SubLength(a[..|a| - 1], b');
      }
    }
  }

  /** Positions in a sequence of length n, from left to right. */
  ghost predicate Increasing(ix: seq<nat>, n: nat) {
    && (forall j :: 0 <= j < |ix| ==> ix[j] < n)
    && (forall j, k :: 0 <= j < k < |ix| ==> ix[j] < ix[k])
  }

  /** The elements of `a` are what `f` yields at these positions of `b`. */
  ghost predicate YieldedAt<T, U>(f: T -> Option<U>, a: seq<U>, b: seq<T>, ix: seq<nat>) {
    Increasing(ix, |b|) && |ix| == |a| && forall j :: 0 <= j < |a| ==> f(b[ix[j]]) == Some(a[j])
  }

  lemma YieldedMore<T, U>(f: T -> Option<U>, a: seq<U>, b: seq<T>, ix: seq<nat>, x: T)
    requires YieldedAt(f, a, b, ix)
    ensures YieldedAt(f, a, b + [x], ix)
    ensures f(x).Some? ==> YieldedAt(f, a + [f(x).value], b + [x], ix + [|b|])
  {
  }

  /** Each element of a subsequence of what is collected has its place. */
  lemma {:induction false} Places<T, U>(f: T -> Option<U>, a: seq<U>, b: seq<T>) returns (ix: seq<nat>)
    requires Sub(a, Collect(f, b))
    ensures YieldedAt(f, a, b, ix)
    decreases |b|
  {
    if a == [] {
      ix := [];
    } else {
      var b', x := b[..|b| - 1], b[|b| - 1];
      assert b == b' + [x];
      if Sub(a, Collect(f, b')) {
        ix := Places(f, a, b');
        YieldedMore(f, a, b', ix, x);
      } else {
        ix := Places(f, a[..|a| - 1], b');
        YieldedMore(f, a[..|a| - 1], b', ix, x);
        assert a == a[..|a| - 1] + [f(x).value];
        ix := ix + [|b'|];
      }
    }
  }

  /** In the whole of what is collected, every element that yields something has its place. */
  lemma {:induction false} AllPlaces<T, U>(f: T -> Option<U>, b: seq<T>) returns (ix: seq<nat>)
    ensures YieldedAt(f, Collect(f, b), b, ix)
    ensures forall p :: 0 <= p < |b| && f(b[p]).Some? ==> p in ix
  {
    if b == [] {
      ix := [];
    } else {
      var b', x := b[..|b| - 1], b[|b| - 1];
      assert b == b' + [x];
      ix := AllPlaces(f, b');
      YieldedMore(f, Collect(f, b'), b', ix, x);
      ix := if f(x).Some? then ix + [|b'|] else ix;
    }
  }
}
