/** The shape shared by every loader: a loop over records that, per record,
    skips it, keeps one converted item, or stops with an exception. */
module Rows {
  import opened Wrappers

  /** What one record contributes. */
  datatype Verdict<T> = Skip | Bad(error: Error) | Keep(item: T)

  /** The outcome of the appending loop after `n` records: the kept items in
      order, or the exception of the first bad record. */
  function CollectUpTo<R, T>(records: seq<R>, n: nat, verdict: R -> Verdict<T>): Result<seq<T>>
    requires n <= |records|
  {
    if n == 0 then Ok([])
    else
      match CollectUpTo(records, n - 1, verdict)
      case Fail(e) => Fail(e)
      case Ok(acc) =>
        match verdict(records[n - 1])
        case Skip => Ok(acc)
        case Bad(e) => Fail(e)
        case Keep(x) => Ok(acc + [x])
  }

  function Collect<R, T>(records: seq<R>, verdict: R -> Verdict<T>): Result<seq<T>> {
    CollectUpTo(records, |records|, verdict)
  }

  /** The indices of the kept records, in order. */
  function KeptIndices<R, T>(records: seq<R>, n: nat, verdict: R -> Verdict<T>): (r: seq<nat>)
    requires n <= |records|
    ensures forall k :: 0 <= k < |r| ==> r[k] < n && verdict(records[r[k]]).Keep?
    ensures forall k1, k2 :: 0 <= k1 < k2 < |r| ==> r[k1] < r[k2]
    ensures forall i :: 0 <= i < n && verdict(records[i]).Keep? ==> i in r
  {
    if n == 0 then []
    else KeptIndices(records, n - 1, verdict) + (if verdict(records[n - 1]).Keep? then [n - 1] else [])
  }

  /** Once the loop has raised, later records change nothing. */
  lemma {:induction false} FailStays<R, T>(records: seq<R>, n: nat, m: nat, verdict: R -> Verdict<T>)
    requires n <= m <= |records|
    requires CollectUpTo(records, n, verdict).Fail?
    ensures CollectUpTo(records, m, verdict) == CollectUpTo(records, n, verdict)
    decreases m - n
  {
    if n < m {
      FailStays(records, n, m - 1, verdict);
    }
  }

  /** One step of the loop for each kind of record. */
  lemma CollectKeep<R, T>(records: seq<R>, i: nat, verdict: R -> Verdict<T>, acc: seq<T>, x: T)
    requires i < |records| && CollectUpTo(records, i, verdict) == Ok(acc)
    requires verdict(records[i]) == Keep(x)
    ensures CollectUpTo(records, i + 1, verdict) == Ok(acc + [x])
  {
  }

  lemma CollectSkip<R, T>(records: seq<R>, i: nat, verdict: R -> Verdict<T>, acc: seq<T>)
    requires i < |records| && CollectUpTo(records, i, verdict) == Ok(acc)
    requires verdict(records[i]).Skip?
    ensures CollectUpTo(records, i + 1, verdict) == Ok(acc)
  {
  }

  lemma CollectBad<R, T>(records: seq<R>, i: nat, verdict: R -> Verdict<T>, acc: seq<T>, e: Error)
    requires i < |records| && CollectUpTo(records, i, verdict) == Ok(acc)
    requires verdict(records[i]) == Bad(e)
    ensures Collect(records, verdict) == Fail(e)
  {
    FailStays(records, i + 1, |records|, verdict);
  }

  /** The loop completes exactly when no record is bad; it then returns the
      item of every kept record, in record order. */
  lemma {:induction false} CollectOk<R, T>(records: seq<R>, n: nat, verdict: R -> Verdict<T>)
    requires n <= |records|
    ensures CollectUpTo(records, n, verdict).Ok? <==> forall i :: 0 <= i < n ==> !verdict(records[i]).Bad?
    ensures CollectUpTo(records, n, verdict).Ok? ==>
      var v := CollectUpTo(records, n, verdict).value;
      var idx := KeptIndices(records, n, verdict);
      |v| == |idx| && forall k :: 0 <= k < |v| ==> v[k] == verdict(records[idx[k]]).item
  {
    if n > 0 {
      CollectOk(records, n - 1, verdict);
    }
  }

  /** A raised exception is the one of the first bad record. */
  lemma {:induction false} CollectFail<R, T>(records: seq<R>, n: nat, verdict: R -> Verdict<T>)
    requires n <= |records|
    requires CollectUpTo(records, n, verdict).Fail?
    ensures exists i :: (0 <= i < n && verdict(records[i]).Bad?
      && (forall j :: 0 <= j < i ==> !verdict(records[j]).Bad?)
      && CollectUpTo(records, n, verdict).error == verdict(records[i]).error)
  {
    var before := CollectUpTo(records, n - 1, verdict);
    if before.Fail? {
      CollectFail(records, n - 1, verdict);
      var i :| 0 <= i < n - 1 && verdict(records[i]).Bad?
        && (forall j :: 0 <= j < i ==> !verdict(records[j]).Bad?)
        && before.error == verdict(records[i]).error;
      assert CollectUpTo(records, n, verdict) == before;
    } else {
      CollectOk(records, n - 1, verdict);
      assert forall j :: 0 <= j < n - 1 ==> !verdict(records[j]).Bad?;
      assert verdict(records[n - 1]).Bad?;
      assert CollectUpTo(records, n, verdict).error == verdict(records[n - 1]).error;
    }
  }
}
