/** Outcomes of a decoding step. The decoder raises a Python exception
    where a list or dictionary lookup goes wrong; the model returns a
    Failure naming the exception instead. */
module Results {

  /** The exceptions the decoder can raise. */
  datatype Error =
    | IndexError      // a list subscript past the end, or an empty ULEB128 byte slice
    | KeyError        // a map type code that is not a key of the type-code table
    | TypeError       // `None + b'[]'`: an array whose element type is unknown
    | AttributeError  // `None.decode(...)`: an unknown type used in a prototype

  /** A value or Python's `None`. */
  datatype Option<+T> = None | Some(value: T)

  datatype Result<+T> = Success(value: T) | Failure(error: Error) {
    predicate IsFailure() { Failure? }

    function PropagateFailure<U>(): Result<U>
      requires Failure?
    {
      Failure(error)
    }

    function Extract(): T
      requires Success?
    {
      value
    }
  }

  /** Python's `s[i]` for a non-negative index: IndexError past the end. */
  function Lookup<T>(s: seq<T>, i: nat): (r: Result<T>)
    ensures r.Failure? ==> r.error == IndexError
  {
    if i < |s| then Success(s[i]) else Failure(IndexError)
  }

  /** Entry `k` is the first of the `n` entries of `f` that fails, with `e`. */
  ghost predicate FailsFirstAt<T>(n: nat, f: nat -> Result<T>, k: nat, e: Error) {
    k < n && f(k) == Failure(e) && forall j :: 0 <= j < k ==> f(j).Success?
  }

  /** `r` is what a loop `for k in range(n): out.append(f(k))` yields:
      exactly `n` entries, in order, or the exception of the first entry
      that raises. */
  ghost predicate Tabulates<T>(r: Result<seq<T>>, n: nat, f: nat -> Result<T>) {
    match r
    case Success(v) => |v| == n && forall k :: 0 <= k < n ==> f(k) == Success(v[k])
    case Failure(e) => exists k :: FailsFirstAt(n, f, k, e)
  }

  /** The same loop as a function: the first `n` entries of `f`, computed in
      order, stopping at the first failure. */
  function Tabulate<T>(n: nat, f: nat -> Result<T>): (r: Result<seq<T>>)
    ensures r.Success? ==> |r.value| == n
  {
    if n == 0 then Success([])
    else
      match Tabulate(n - 1, f)
      case Failure(e) => Failure(e)
      case Success(prefix) =>
        match f(n - 1)
        case Failure(e) => Failure(e)
        case Success(x) => Success(prefix + [x])
  }

  /** Tabulate computes exactly the result Tabulates describes. */
  lemma {:induction false} TabulateSound<T>(n: nat, f: nat -> Result<T>)
    ensures Tabulates(Tabulate(n, f), n, f)
  {
    if n > 0 {
      TabulateSound(n - 1, f);
      match Tabulate(n - 1, f) {
        case Failure(e) =>
          var k: nat :| FailsFirstAt(n - 1, f, k, e);
          assert FailsFirstAt(n, f, k, e);
        case Success(prefix) =>
          match f(n - 1) {
            case Failure(e) =>
              assert FailsFirstAt(n, f, n - 1, e);
            case Success(x) =>
              var v := prefix + [x];
              assert forall k :: 0 <= k < n - 1 ==> v[k] == prefix[k];
          }
      }
    }
  }

  /** One more successful entry extends the loop's list by that entry. */
  lemma {:induction false} TabulateStep<T>(n: nat, f: nat -> Result<T>, acc: seq<T>, x: T)
    requires Tabulate(n, f) == Success(acc) && f(n) == Success(x)
    ensures Tabulate(n + 1, f) == Success(acc + [x])
  {
  }

  /** An entry that raises ends the loop of `m` entries with its exception. */
  lemma {:induction false} TabulateStops<T>(n: nat, m: nat, f: nat -> Result<T>, acc: seq<T>, e: Error)
    requires n < m && Tabulate(n, f) == Success(acc) && f(n) == Failure(e)
    ensures Tabulates(Failure(e), m, f)
  {
    assert Tabulate(n + 1, f) == Failure(e);
    TabulateFailureSticks(n + 1, m, f);
    TabulateSound(m, f);
  }

  /** Once the loop has raised, running it further raises the same. */
  lemma {:induction false} TabulateFailureSticks<T>(m: nat, n: nat, f: nat -> Result<T>)
    requires m <= n && Tabulate(m, f).Failure?
    ensures Tabulate(n, f) == Tabulate(m, f)
  {
    if m < n {
      TabulateFailureSticks(m, n - 1, f);
    }
  }

  /** Two entries cannot both be the first failure. */
  lemma {:induction false} FirstFailureUnique<T>(n: nat, f: nat -> Result<T>, k1: nat, e1: Error, k2: nat, e2: Error)
    requires FailsFirstAt(n, f, k1, e1) && FailsFirstAt(n, f, k2, e2)
    ensures k1 == k2 && e1 == e2
  {
    assert k1 < k2 ==> f(k1).Success?;
    assert k2 < k1 ==> f(k2).Success?;
  }

  /** Tabulates determines its result: whatever satisfies it is Tabulate. */
  lemma {:induction false} TabulatesUnique<T>(r: Result<seq<T>>, n: nat, f: nat -> Result<T>)
    requires Tabulates(r, n, f)
    ensures r == Tabulate(n, f)
  {
    TabulateSound(n, f);
    var t := Tabulate(n, f);
    if r.Success? && t.Success? {
      assert forall k :: 0 <= k < n ==> r.value[k] == t.value[k];
      assert r.value == t.value;
    } else if r.Failure? && t.Failure? {
      var k: nat :| FailsFirstAt(n, f, k, r.error);
      var k': nat :| FailsFirstAt(n, f, k', t.error);
      FirstFailureUnique(n, f, k, r.error, k', t.error);
    }
  }

  /** The loop succeeds exactly when every one of its entries does. */
  lemma {:induction false} TabulatesSucceedsIff<T>(r: Result<seq<T>>, n: nat, f: nat -> Result<T>)
    requires Tabulates(r, n, f)
    ensures r.Success? <==> forall k :: 0 <= k < n ==> f(k).Success?
  {
    if r.Failure? {
      var k: nat :| FailsFirstAt(n, f, k, r.error);
    }
  }
}
