/**
 * The loop shape both parsers share: walk a sequence in order and append a
 * result for every element that yields one. `Origins` names, for every
 * result, the element it came from.
 */
module Collections {
  import opened Wrappers

  /** The results `f` yields on `xs`, in the order of `xs`. */
  function FilterMap<A, B>(xs: seq<A>, f: A -> Option<B>): (ys: seq<B>)
    ensures |ys| <= |xs|
  {
    if xs == [] then []
    else
      FilterMap(xs[..|xs| - 1], f) + match f(xs[|xs| - 1]) { case Some(y) => [y] case None => [] }
  }

  /** The positions in `xs` of the elements that yield a result. */
  function Origins<A, B>(xs: seq<A>, f: A -> Option<B>): (idx: seq<nat>)
    ensures |idx| == |FilterMap(xs, f)|
    ensures forall k :: 0 <= k < |idx| ==> idx[k] < |xs| && f(xs[idx[k]]) == Some(FilterMap(xs, f)[k])
    ensures forall k, l :: 0 <= k < l < |idx| ==> idx[k] < idx[l]
    ensures forall i :: 0 <= i < |xs| && f(xs[i]).Some? ==> i in idx
  {
    if xs == [] then []
    else
      var init := xs[..|xs| - 1];
      assert forall i :: 0 <= i < |init| ==> init[i] == xs[i];
      var before := FilterMap(init, f);
      assert forall k :: 0 <= k < |before| ==> FilterMap(xs, f)[k] == before[k];
      Origins(init, f) + if f(xs[|xs| - 1]).Some? then [|xs| - 1] else []
  }

  /** Each result comes from its own element, in the order of the elements, and no element that yields one is skipped. */
  lemma FilterMapInOrder<A, B>(xs: seq<A>, f: A -> Option<B>)
    ensures exists idx: seq<nat> ::
      && |idx| == |FilterMap(xs, f)|
      && (forall k :: 0 <= k < |idx| ==> idx[k] < |xs| && f(xs[idx[k]]) == Some(FilterMap(xs, f)[k]))
      && (forall k, l :: 0 <= k < l < |idx| ==> idx[k] < idx[l])
      && (forall i :: 0 <= i < |xs| && f(xs[i]).Some? ==> i in idx)
  {
    var idx := Origins(xs, f);
  }

  /** One more element of `xs` appends at most its own result. */
  lemma FilterMapStep<A, B>(xs: seq<A>, i: nat, f: A -> Option<B>)
    requires i < |xs|
    ensures FilterMap(xs[..i + 1], f) == FilterMap(xs[..i], f) + match f(xs[i]) { case Some(y) => [y] case None => [] }
  {
    assert xs[..i + 1][..i] == xs[..i];
  }

  /**
   * The pieces of `parts` one after another, or the error of the first part
   * that failed.
   */
  function Concat<T, E>(parts: seq<Result<seq<T>, E>>): (r: Result<seq<T>, E>)
    ensures r.Failure? ==> exists k :: 0 <= k < |parts| && parts[k] == Failure(r.error)
  {
    if parts == [] then Success([])
    else
      var n := |parts| - 1;
      var init :- Concat(parts[..n]);
      var last :- parts[n];
      Success(init + last)
  }

  /** A part that succeeds after parts that succeed extends their concatenation. */
  lemma ConcatStep<T, E>(parts: seq<Result<seq<T>, E>>, i: nat)
    requires i < |parts| && Concat(parts[..i]).Success? && parts[i].Success?
    ensures Concat(parts[..i + 1]) == Success(Concat(parts[..i]).value + parts[i].value)
  {
    assert parts[..i + 1][..i] == parts[..i];
  }

  /** The first part that fails decides the result. */
  lemma {:induction false} ConcatStopsAtFirstFailure<T, E>(parts: seq<Result<seq<T>, E>>, i: nat)
    requires i < |parts| && Concat(parts[..i]).Success? && parts[i].Failure?
    ensures Concat(parts) == Failure(parts[i].error)
    decreases |parts|
  {
    var n := |parts| - 1;
    if i == n {
      assert parts[..n] == parts[..i];
    } else {
      assert parts[..n][..i] == parts[..i];
      ConcatStopsAtFirstFailure(parts[..n], i);
    }
  }

  /** The concatenation exists exactly when every part succeeds. */
  lemma {:induction false} ConcatSucceedsIff<T, E>(parts: seq<Result<seq<T>, E>>)
    ensures Concat(parts).Success? <==> forall k :: 0 <= k < |parts| ==> parts[k].Success?
    decreases |parts|
  {
    if parts != [] {
      var n := |parts| - 1;
      ConcatSucceedsIff(parts[..n]);
      assert forall k :: 0 <= k < n ==> parts[..n][k] == parts[k];
    }
  }

  /** What holds of every item of every part holds of every item of the concatenation. */
  lemma {:induction false} ConcatKeeps<T, E>(parts: seq<Result<seq<T>, E>>, P: T -> bool)
    requires forall k, j :: 0 <= k < |parts| && parts[k].Success? && 0 <= j < |parts[k].value| ==> P(parts[k].value[j])
    ensures Concat(parts).Success? ==> forall j :: 0 <= j < |Concat(parts).value| ==> P(Concat(parts).value[j])
    decreases |parts|
  {
    if parts != [] && Concat(parts).Success? {
      var n := |parts| - 1;
      var init := parts[..n];
      assert forall k :: 0 <= k < n ==> init[k] == parts[k];
      ConcatKeeps(init, P);
      assert Concat(parts).value == Concat(init).value + parts[n].value;
    }
  }

  /**
   * When every part succeeds with `width` items, part `k` sits at `k * width`
   * of the concatenation, and nothing else is there.
   */
  lemma {:induction false} ConcatLayout<T, E>(parts: seq<Result<seq<T>, E>>, width: nat)
    requires forall k :: 0 <= k < |parts| ==> parts[k].Success? && |parts[k].value| == width
    ensures Concat(parts).Success?
    ensures |Concat(parts).value| == |parts| * width
    ensures forall k :: 0 <= k < |parts| ==> k * width + width <= |Concat(parts).value|
    ensures forall k :: 0 <= k < |parts| ==> Concat(parts).value[k * width..k * width + width] == parts[k].value
    decreases |parts|
  {
    if parts != [] {
      var n := |parts| - 1;
      var init := parts[..n];
      assert forall k :: 0 <= k < n ==> init[k] == parts[k];
      ConcatLayout(init, width);
      var a := Concat(init).value;
      var r := a + parts[n].value;
      assert Concat(parts) == Success(r);
      MulSucc(n, width);
      forall k | 0 <= k < |parts|
        ensures k * width + width <= |r|
      {
        BlockFits(k, |parts|, width);
      }
      forall k | 0 <= k < |parts|
        ensures r[k * width..k * width + width] == parts[k].value
      {
        if k < n {
          BlockFits(k, n, width);
          SliceAppendLeft(a, parts[n].value, k * width, k * width + width);
        } else {
          SliceAppendRight(a, parts[n].value);
        }
      }
    }
  }

  lemma MulSucc(n: nat, w: nat)
    ensures (n + 1) * w == n * w + w
  {
  }

  lemma MulMonotone(i: nat, j: nat, w: nat)
    requires i <= j
    ensures i * w <= j * w
  {
  }

  lemma BlockFits(k: nat, count: nat, w: nat)
    requires k < count
    ensures k * w + w <= count * w
  {
    MulSucc(k, w);
    assert (k + 1) * w <= count * w;
  }

  lemma SliceAppendLeft<T>(a: seq<T>, b: seq<T>, i: nat, j: nat)
    requires i <= j <= |a|
    ensures (a + b)[i..j] == a[i..j]
  {
  }

  lemma FrameSlice<T>(a: seq<T>, b: seq<T>, c: seq<T>, i: nat, j: nat)
    requires i <= j <= |b|
    ensures (a + b + c)[|a| + i..|a| + j] == b[i..j]
  {
    assert (a + b + c)[|a| + i..|a| + j] == (a + b)[|a| + i..|a| + j];
  }

  lemma SliceAppendRight<T>(a: seq<T>, b: seq<T>)
    ensures (a + b)[|a|..|a| + |b|] == b
  {
  }

  lemma AppendAssoc<T>(a: seq<T>, b: seq<T>, c: seq<T>)
    ensures (a + b) + c == a + (b + c)
  {
  }

  lemma SplitAround<T>(s: seq<T>, n: nat)
    requires n < |s|
    ensures s == s[..n] + [s[n]] + s[n + 1..]
  {
  }

  lemma SplitAt<T>(s: seq<T>, n: nat)
    requires n <= |s|
    ensures s == s[..n] + s[n..]
  {
  }

  lemma SplitThree<T>(s: seq<T>, a: nat, b: nat)
    requires a <= b <= |s|
    ensures s == s[..a] + s[a..b] + s[b..]
  {
  }

  lemma TakePrefix<T>(s: seq<T>, i: nat, j: nat)
    requires i <= j <= |s|
    ensures s[..j][..i] == s[..i]
  {
  }

  lemma DropAppend<T>(a: seq<T>, b: seq<T>, n: nat)
    requires n <= |a|
    ensures (a + b)[n..] == a[n..] + b
  {
  }

  lemma TakeAll<T>(s: seq<T>)
    ensures s[..|s|] == s
  {
  }
}
