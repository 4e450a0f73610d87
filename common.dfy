/** Success/failure wrappers shared by every module of the model. */
module Common {

  /** Rust's Option<T>. */
  datatype Option<+T> = None | Some(value: T)

  /** Rust's Result<T, E>. */
  datatype Result<+T, +E> = Ok(value: T) | Err(error: E)

  /** The successful values of a sequence of results, in order (`filter_map(Result::ok)`). */
  function OkValues<T(!new), E>(rs: seq<Result<T, E>>): (vs: seq<T>)
    ensures |vs| <= |rs|
    ensures forall v :: v in vs <==> Ok(v) in rs
  {
    if rs == [] then []
    else
      var rest := OkValues(rs[..|rs| - 1]);
      assert rs == rs[..|rs| - 1] + [rs[|rs| - 1]];
      match rs[|rs| - 1]
      case Ok(v) => rest + [v]
      case Err(_) => rest
  }

  /** The errors of a sequence of results, in order (`filter_map(Result::err)`). */
  function Errors<T(!new), E(!new)>(rs: seq<Result<T, E>>): (es: seq<E>)
    ensures |es| + |OkValues(rs)| == |rs|
    ensures forall e :: e in es <==> Err(e) in rs
  {
    if rs == [] then []
    else
      var rest := Errors(rs[..|rs| - 1]);
      assert rs == rs[..|rs| - 1] + [rs[|rs| - 1]];
      match rs[|rs| - 1]
      case Ok(_) => rest
      case Err(e) => rest + [e]
  }

  lemma {:induction false} OkValuesAppend<T(!new), E>(a: seq<Result<T, E>>, b: seq<Result<T, E>>)
    ensures OkValues(a + b) == OkValues(a) + OkValues(b)
    decreases |b|
  {
    if b == [] {
      assert a + b == a;
    } else {
      var b' := b[..|b| - 1];
      assert (a + b)[..|a + b| - 1] == a + b';
      OkValuesAppend(a, b');
    }
  }

  /** `f` applied to each element, in order (`map(f)`). */
  function MapSeq<A, B>(f: A --> B, xs: seq<A>): (ys: seq<B>)
    requires forall x :: x in xs ==> f.requires(x)
    ensures |ys| == |xs| && forall k :: 0 <= k < |xs| ==> ys[k] == f(xs[k])
  {
    seq(|xs|, k requires 0 <= k < |xs| => f(xs[k]))
  }

  lemma MapSeqAppend<A, B>(f: A --> B, xs: seq<A>, ys: seq<A>)
    requires forall x :: x in xs + ys ==> f.requires(x)
    ensures MapSeq(f, xs + ys) == MapSeq(f, xs) + MapSeq(f, ys)
  {
    assert forall k :: 0 <= k < |ys| ==> (xs + ys)[|xs| + k] == ys[k];
  }

  lemma MapSeqSingle<A, B>(f: A --> B, x: A)
    requires f.requires(x)
    ensures MapSeq(f, [x]) == [f(x)]
  {
  }

  /** Sequences that agree at every index are equal. */
  lemma SamePointwise<T>(a: seq<T>, b: seq<T>)
    requires |a| == |b| && forall k :: 0 <= k < |a| ==> a[k] == b[k]
    ensures a == b
  {
  }

  /** What is in a prefix, or is the last element, is in the sequence. */
  lemma InFront<T>(s: seq<T>)
    requires s != []
    ensures s[|s| - 1] in s
    ensures forall x :: x in s[..|s| - 1] ==> x in s
  {
  }

  lemma HeadTail<T>(s: seq<T>)
    requires s != []
    ensures [s[0]] + s[1..] == s
  {
  }

  lemma Associate<T>(a: seq<T>, b: seq<T>, c: seq<T>)
    ensures a + (b + c) == a + b + c
  {
  }

  lemma EmptyPrefix<T>(s: seq<T>)
    ensures [] + s == s
  {
  }

  lemma LastOfAppend<T>(a: seq<T>, b: seq<T>)
    requires b != []
    ensures (a + b)[|a + b| - 1] == b[|b| - 1]
  {
  }

  /** A non-empty sequence is its front followed by its last element. */
  lemma FrontAndLast<T>(s: seq<T>)
    requires s != []
    ensures s[..|s| - 1] + [s[|s| - 1]] == s
  {
  }

  /** The first value `f` accepts, skipping the ones it rejects (`filter_map(f).next()`). */
  function FirstSome<A, B>(xs: seq<A>, f: A -> Option<B>): (r: Option<B>)
    ensures r.None? <==> forall i :: 0 <= i < |xs| ==> f(xs[i]).None?
    ensures r.Some? ==> exists i :: 0 <= i < |xs| && f(xs[i]) == r
                                    && forall j :: 0 <= j < i ==> f(xs[j]).None?
  {
    if xs == [] then None
    else if f(xs[0]).Some? then f(xs[0])
    else
      var r := FirstSome(xs[1..], f);
      assert forall i :: 1 <= i < |xs| ==> xs[i] == xs[1..][i - 1];
      r
  }

  /** The first element of the first non-empty `f(x)`, the `x` taken in order
      (`flat_map(f).next()`). */
  function FirstOfFlat<A, B>(xs: seq<A>, f: A -> seq<B>): (r: Option<B>)
    ensures r.None? <==> forall i :: 0 <= i < |xs| ==> f(xs[i]) == []
    ensures r.Some? ==> exists i :: 0 <= i < |xs| && f(xs[i]) != [] && r.value == f(xs[i])[0]
                                    && forall j :: 0 <= j < i ==> f(xs[j]) == []
  {
    if xs == [] then None
    else if f(xs[0]) != [] then Some(f(xs[0])[0])
    else
      var r := FirstOfFlat(xs[1..], f);
      assert forall i :: 1 <= i < |xs| ==> xs[i] == xs[1..][i - 1];
      r
  }

  /** The first element, if any (`next()` on an iterator). */
  function First<T>(xs: seq<T>): (r: Option<T>)
    ensures r.None? <==> xs == []
    ensures r.Some? ==> r.value == xs[0]
  {
    if xs == [] then None else Some(xs[0])
  }
}
