/** Result types standing for the exceptions and the null results of the C++ code. */
module Common {

  datatype Option<+T> = None | Some(value: T)

  /** The exceptions the modelled code can throw. */
  datatype Error =
    | NotReadable        // cereal: a field is missing or has another type
    | NoSession          // CryptoManager: no key pair under that id
    | TooLong            // std::length_error from an impossible buffer size
    | NotAuthentic       // crypto_secretbox_open_easy refused the packet

  datatype Result<+T> = Success(value: T) | Failure(error: Error)

  /** The image of a finite set under a function that is injective on it has as many members. */
  lemma {:induction false} ImageSize<A(!new), B(!new)>(f: A -> B, xs: set<A>, ys: set<B>)
    requires forall x, x' | x in xs && x' in xs && f(x) == f(x') :: x == x'
    requires forall y :: y in ys <==> exists x :: x in xs && f(x) == y
    ensures |ys| == |xs|
    decreases |xs|
  {
    if xs == {} {
      assert ys == {};
    } else {
      var x :| x in xs;
      var y0 := f(x);
      assert y0 in ys;
      forall y ensures y in ys - {y0} <==> exists x' :: x' in xs - {x} && f(x') == y {
        if y in ys - {y0} {
          var x' :| x' in xs && f(x') == y;
          assert x' in xs - {x};
        }
      }
      ImageSize(f, xs - {x}, ys - {y0});
    }
  }

  /** Applying f at from, from+1, ..., upTo-1. */
  function Iterate<M>(f: (M, nat) -> M, m: M, from: nat, upTo: nat): M
    decreases upTo - from
  {
    if upTo <= from then m else Iterate(f, f(m, from), from + 1, upTo)
  }

  lemma {:induction false} IterateCompose<M>(f: (M, nat) -> M, m: M, i: nat, j: nat, k: nat)
    requires i <= j <= k
    ensures Iterate(f, Iterate(f, m, i, j), j, k) == Iterate(f, m, i, k)
    decreases j - i
  {
    if i < j {
      IterateCompose(f, f(m, i), i + 1, j, k);
    }
  }

  // ---------- sequences in parts ----------

  lemma Appended<T>(first: seq<T>, rest: seq<T>, n: nat)
    requires 0 < n <= |rest|
    ensures first + rest[..n - 1] + [rest[n - 1]] == first + rest[..n] && rest[..n - 1] + [rest[n - 1]] == rest[..n]
  {
  }

  lemma Regroup<T>(all: seq<T>, joined: seq<T>, first: seq<T>, before: seq<T>, rest: seq<T>, last: seq<T>)
    requires all == joined + last && joined == first + before && rest == before + last
    ensures all == first + rest
  {
  }
}
