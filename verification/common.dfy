/** Values shared by every part of the feed proxy model: optional values,
    results with errors, and the opaque timestamp type. */
module Common {

  datatype Option<+T> = None | Some(value: T)

  datatype Result<+T, +E> = Success(value: T) | Failure(error: E)

  /** How a Go panic arises in the handlers. */
  datatype PanicKind = IndexOutOfRange | NilDereference

  /** A handler failure: an `error` value returned by a collaborator (its text is
      what the HTTP layer reports), or a runtime panic. */
  datatype Error = Failed(message: string) | Panicked(kind: PanicKind)

  /** A point in time. Go's `time.Time` is opaque here; `ZeroTime` stands for its
      zero value, which is what a failed `time.Parse` returns. */
  datatype Time = Time(ticks: int)

  const ZeroTime: Time := Time(0)

  /** The first failure of a sequence of results, or all their values. */
  function Collect<T>(rs: seq<Result<T, Error>>): (r: Result<seq<T>, Error>)
    ensures r.Success? ==> |r.value| == |rs|
  {
    if rs == [] then Success([])
    else if rs[0].Failure? then Failure(rs[0].error)
    else
      var rest := Collect(rs[1..]);
      if rest.Failure? then rest else Success([rs[0].value] + rest.value)
  }

  /** When every result succeeds, `Collect` keeps all values in order. */
  lemma {:induction false} CollectAllSucceed<T>(rs: seq<Result<T, Error>>)
    requires forall i :: 0 <= i < |rs| ==> rs[i].Success?
    ensures Collect(rs).Success?
    ensures forall i :: 0 <= i < |rs| ==> Collect(rs).value[i] == rs[i].value
  {
    if rs != [] {
      CollectAllSucceed(rs[1..]);
    }
  }

  /** When results before `i` succeed and result `i` fails, that is the failure reported. */
  lemma {:induction false} CollectFirstFailure<T>(rs: seq<Result<T, Error>>, i: nat)
    requires i < |rs| && rs[i].Failure?
    requires forall j :: 0 <= j < i ==> rs[j].Success?
    ensures Collect(rs) == Failure(rs[i].error)
  {
    if i > 0 {
      CollectFirstFailure(rs[1..], i - 1);
    }
  }
}
