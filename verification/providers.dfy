/** `fetch_ohlcv_any`: one ordered pass over the configured exchange ids that
    returns the first successful download. The exchange library is a parameter:
    `supported` says whether it knows an id, `fetch` is the download (including
    client construction) for an id and an already rewritten symbol. */
module Providers {
  import opened Outcomes
  import Symbols

  /** What a call produced, plus the positions of `ids` whose download was attempted. */
  datatype Selection<D> = Selection(result: Result<(D, string), Option<string>>, attempts: seq<nat>)

  /** The download for position `j`, with the symbol rewritten for that venue. */
  function Attempt<D>(ids: seq<string>, j: nat, fetch: (string, string) -> Result<D, string>, symbol: string): Result<D, string>
    requires j < |ids|
  {
    fetch(ids[j], Symbols.PickSymbol(ids[j], symbol))
  }

  /** Position `j` is tried and succeeds. */
  predicate Succeeds<D>(ids: seq<string>, j: nat, supported: string -> bool,
                        fetch: (string, string) -> Result<D, string>, symbol: string)
    requires j < |ids|
  {
    supported(ids[j]) && Attempt(ids, j, fetch, symbol).Success?
  }

  /** Position `j` is tried and fails. */
  predicate Fails<D>(ids: seq<string>, j: nat, supported: string -> bool,
                     fetch: (string, string) -> Result<D, string>, symbol: string)
    requires j < |ids|
  {
    supported(ids[j]) && Attempt(ids, j, fetch, symbol).Failure?
  }

  /** The message recorded for a failed position: `"<id>: <error>"`. */
  function ErrorText<D>(ids: seq<string>, j: nat, fetch: (string, string) -> Result<D, string>, symbol: string): string
    requires j < |ids| && Attempt(ids, j, fetch, symbol).Failure?
  {
    ids[j] + ": " + Attempt(ids, j, fetch, symbol).error
  }

  /** Reference definition of the reported error: the message of the LAST failed
      position in `[lo, hi)`, found by scanning backwards, or `init` when none failed. */
  function LastFailure<D>(ids: seq<string>, lo: nat, hi: nat, supported: string -> bool,
                          fetch: (string, string) -> Result<D, string>, symbol: string,
                          init: Option<string>): Option<string>
    requires lo <= hi <= |ids|
    decreases hi - lo
  {
    if hi == lo then init
    else if Fails(ids, hi - 1, supported, fetch, symbol) then Some(ErrorText(ids, hi - 1, fetch, symbol))
    else LastFailure(ids, lo, hi - 1, supported, fetch, symbol, init)
  }

  /** A failure at `lo` only matters when nothing later fails. */
  lemma {:induction false} LastFailureStep<D>(ids: seq<string>, lo: nat, hi: nat, supported: string -> bool,
                                              fetch: (string, string) -> Result<D, string>, symbol: string,
                                              init: Option<string>)
    requires lo < hi <= |ids|
    ensures LastFailure(ids, lo, hi, supported, fetch, symbol, init) ==
      LastFailure(ids, lo + 1, hi, supported, fetch, symbol,
        if Fails(ids, lo, supported, fetch, symbol) then Some(ErrorText(ids, lo, fetch, symbol)) else init)
    decreases hi - lo
  {
    if hi - 1 > lo {
      LastFailureStep(ids, lo, hi - 1, supported, fetch, symbol, init);
    }
  }

  /** The loop from position `i` on, with `lastErr` the error recorded so far:
      unsupported ids are skipped without touching `lastErr`, the first download
      that succeeds ends the loop, and each failure overwrites `lastErr`. */
  function FetchFrom<D>(ids: seq<string>, i: nat, supported: string -> bool,
                        fetch: (string, string) -> Result<D, string>, symbol: string,
                        lastErr: Option<string>): (s: Selection<D>)
    requires i <= |ids|
    decreases |ids| - i
  {
    if i == |ids| then
      Selection(Failure(lastErr), [])
    else if !supported(ids[i]) then
      FetchFrom(ids, i + 1, supported, fetch, symbol, lastErr)
    else
      match Attempt(ids, i, fetch, symbol)
      case Success(data) =>
        Selection(Success((data, ids[i])), [i])
      case Failure(e) =>
        var rest := FetchFrom(ids, i + 1, supported, fetch, symbol, Some(ids[i] + ": " + e));
        Selection(rest.result, [i] + rest.attempts)
  }

  /** The loop only downloads supported ids, each position at most once, in list order. */
  lemma {:induction false} FetchFromAttempts<D>(ids: seq<string>, i: nat, supported: string -> bool,
                                                fetch: (string, string) -> Result<D, string>, symbol: string,
                                                lastErr: Option<string>, s: Selection<D>)
    requires i <= |ids|
    requires s == FetchFrom(ids, i, supported, fetch, symbol, lastErr)
    ensures
      && (forall k :: 0 <= k < |s.attempts| ==> i <= s.attempts[k] < |ids| && supported(ids[s.attempts[k]]))
      && (forall k, l :: 0 <= k < l < |s.attempts| ==> s.attempts[k] < s.attempts[l])
    decreases |ids| - i
  {
    if i < |ids| {
      if !supported(ids[i]) {
        FetchFromAttempts(ids, i + 1, supported, fetch, symbol, lastErr, FetchFrom(ids, i + 1, supported, fetch, symbol, lastErr));
        assert FetchFrom(ids, i, supported, fetch, symbol, lastErr) == FetchFrom(ids, i + 1, supported, fetch, symbol, lastErr);
      } else if Attempt(ids, i, fetch, symbol).Failure? {
        var err := Some(ErrorText(ids, i, fetch, symbol));
        var rest := FetchFrom(ids, i + 1, supported, fetch, symbol, err);
        FetchFromAttempts(ids, i + 1, supported, fetch, symbol, err, rest);
        var a := [i] + rest.attempts;
        assert FetchFrom(ids, i, supported, fetch, symbol, lastErr).attempts == a;
        forall k | 0 <= k < |a|
          ensures i <= a[k] < |ids| && supported(ids[a[k]])
        {
          if k > 0 {
            assert a[k] == rest.attempts[k - 1];
          }
        }
        forall k, l | 0 <= k < l < |a|
          ensures a[k] < a[l]
        {
          assert a[l] == rest.attempts[l - 1];
          if k > 0 {
            assert a[k] == rest.attempts[k - 1];
          }
        }
      }
    }
  }

  /** A success comes from the first position that downloads, after every
      supported id before it was tried. */
  lemma {:induction false} FetchFromSuccess<D>(ids: seq<string>, i: nat, supported: string -> bool,
                                               fetch: (string, string) -> Result<D, string>, symbol: string,
                                               lastErr: Option<string>, s: Selection<D>)
    requires i <= |ids|
    requires s == FetchFrom(ids, i, supported, fetch, symbol, lastErr)
    ensures
      s.result.Success? ==>
        |s.attempts| > 0 &&
        var w := s.attempts[|s.attempts| - 1];
        && w < |ids|
        && s.result.value.1 == ids[w]
        && Attempt(ids, w, fetch, symbol) == Success(s.result.value.0)
        && (forall j :: i <= j < w ==> !Succeeds(ids, j, supported, fetch, symbol))
        && (forall j :: i <= j < w ==> (j in s.attempts <==> supported(ids[j])))
    decreases |ids| - i
  {
    FetchFromAttempts(ids, i, supported, fetch, symbol, lastErr, FetchFrom(ids, i, supported, fetch, symbol, lastErr));
    if i < |ids| {
      if !supported(ids[i]) {
        FetchFromSuccess(ids, i + 1, supported, fetch, symbol, lastErr, FetchFrom(ids, i + 1, supported, fetch, symbol, lastErr));
        assert FetchFrom(ids, i, supported, fetch, symbol, lastErr) == FetchFrom(ids, i + 1, supported, fetch, symbol, lastErr);
      } else if Attempt(ids, i, fetch, symbol).Failure? {
        var err := Some(ErrorText(ids, i, fetch, symbol));
        var rest := FetchFrom(ids, i + 1, supported, fetch, symbol, err);
        FetchFromSuccess(ids, i + 1, supported, fetch, symbol, err, rest);
        FetchFromAttempts(ids, i + 1, supported, fetch, symbol, err, rest);
        assert FetchFrom(ids, i, supported, fetch, symbol, lastErr) == Selection(rest.result, [i] + rest.attempts);
      }
    }
  }

  /** The loop fails exactly when no position downloads; it has then tried every
      supported id and reports the last recorded failure. */
  lemma {:induction false} FetchFromFailure<D>(ids: seq<string>, i: nat, supported: string -> bool,
                                               fetch: (string, string) -> Result<D, string>, symbol: string,
                                               lastErr: Option<string>, s: Selection<D>)
    requires i <= |ids|
    requires s == FetchFrom(ids, i, supported, fetch, symbol, lastErr)
    ensures
      && (s.result.Failure? <==> forall j :: i <= j < |ids| ==> !Succeeds(ids, j, supported, fetch, symbol))
      && (s.result.Failure? ==>
            && (forall j :: i <= j < |ids| ==> (j in s.attempts <==> supported(ids[j])))
            && s.result.error == LastFailure(ids, i, |ids|, supported, fetch, symbol, lastErr))
    decreases |ids| - i, 1
  {
    if i < |ids| {
      if !supported(ids[i]) {
        SkippedIdFailure(ids, i, supported, fetch, symbol, lastErr, s);
      } else if Attempt(ids, i, fetch, symbol).Failure? {
        FailedAttemptFailure(ids, i, supported, fetch, symbol, lastErr, s);
      } else {
        assert Succeeds(ids, i, supported, fetch, symbol);
      }
    }
  }

  /** The step of `FetchFromFailure` past an unsupported id: nothing is tried or
      recorded and the rest of the list decides. */
  lemma {:induction false} SkippedIdFailure<D>(ids: seq<string>, i: nat, supported: string -> bool,
                                               fetch: (string, string) -> Result<D, string>, symbol: string,
                                               lastErr: Option<string>, s: Selection<D>)
    requires i < |ids| && !supported(ids[i])
    requires s == FetchFrom(ids, i, supported, fetch, symbol, lastErr)
    ensures
      && (s.result.Failure? <==> forall j :: i <= j < |ids| ==> !Succeeds(ids, j, supported, fetch, symbol))
      && (s.result.Failure? ==>
            && (forall j :: i <= j < |ids| ==> (j in s.attempts <==> supported(ids[j])))
            && s.result.error == LastFailure(ids, i, |ids|, supported, fetch, symbol, lastErr))
    decreases |ids| - i, 0
  {
    LastFailureStep(ids, i, |ids|, supported, fetch, symbol, lastErr);
    var rest := FetchFrom(ids, i + 1, supported, fetch, symbol, lastErr);
    FetchFromFailure(ids, i + 1, supported, fetch, symbol, lastErr, rest);
    FetchFromAttempts(ids, i + 1, supported, fetch, symbol, lastErr, rest);
    assert s == rest;
  }

  /** The step of `FetchFromFailure` past a supported id whose download fails: the
      failure is recorded and the rest of the list decides. */
  lemma {:induction false} FailedAttemptFailure<D>(ids: seq<string>, i: nat, supported: string -> bool,
                                                   fetch: (string, string) -> Result<D, string>, symbol: string,
                                                   lastErr: Option<string>, s: Selection<D>)
    requires i < |ids| && supported(ids[i]) && Attempt(ids, i, fetch, symbol).Failure?
    requires s == FetchFrom(ids, i, supported, fetch, symbol, lastErr)
    ensures
      && (s.result.Failure? <==> forall j :: i <= j < |ids| ==> !Succeeds(ids, j, supported, fetch, symbol))
      && (s.result.Failure? ==>
            && (forall j :: i <= j < |ids| ==> (j in s.attempts <==> supported(ids[j])))
            && s.result.error == LastFailure(ids, i, |ids|, supported, fetch, symbol, lastErr))
    decreases |ids| - i, 0
  {
    var err := Some(ErrorText(ids, i, fetch, symbol));
    var rest := FetchFrom(ids, i + 1, supported, fetch, symbol, err);
    FetchFromFailure(ids, i + 1, supported, fetch, symbol, err, rest);
    assert s == Selection(rest.result, [i] + rest.attempts);
    assert !Succeeds(ids, i, supported, fetch, symbol) && Fails(ids, i, supported, fetch, symbol);
    if s.result.Failure? {
      LastFailureStep(ids, i, |ids|, supported, fetch, symbol, lastErr);
      forall j | i <= j < |ids|
        ensures j in s.attempts <==> supported(ids[j])
      {
        if j > i {
          assert j in s.attempts <==> j in rest.attempts;
        }
      }
    } else {
      var w :| i + 1 <= w < |ids| && Succeeds(ids, w, supported, fetch, symbol);
    }
  }

  /** `fetch_ohlcv_any`: the whole pass, starting with no recorded error. It
      succeeds with the data and id of the first supported position that
      downloads, having tried only supported ids, in order and once each; it fails
      exactly when no position downloads, with the last recorded failure. */
  function FetchAny<D>(ids: seq<string>, supported: string -> bool,
                       fetch: (string, string) -> Result<D, string>, symbol: string): (s: Selection<D>)
    ensures forall k :: 0 <= k < |s.attempts| ==> s.attempts[k] < |ids| && supported(ids[s.attempts[k]])
    ensures forall k, l :: 0 <= k < l < |s.attempts| ==> s.attempts[k] < s.attempts[l]
    ensures s.result.Failure? <==> forall j :: 0 <= j < |ids| ==> !Succeeds(ids, j, supported, fetch, symbol)
    ensures s.result.Failure? ==> s.result.error == LastFailure(ids, 0, |ids|, supported, fetch, symbol, None)
    ensures s.result.Success? ==>
      |s.attempts| > 0 &&
      var w := s.attempts[|s.attempts| - 1];
      && Succeeds(ids, w, supported, fetch, symbol)
      && s.result.value == (Attempt(ids, w, fetch, symbol).value, ids[w])
      && (forall j :: 0 <= j < w ==> !Succeeds(ids, j, supported, fetch, symbol))
  {
    var s := FetchFrom(ids, 0, supported, fetch, symbol, None);
    FetchFromAttempts(ids, 0, supported, fetch, symbol, None, s);
    FetchFromSuccess(ids, 0, supported, fetch, symbol, None, s);
    FetchFromFailure(ids, 0, supported, fetch, symbol, None, s);
    s
  }

  /** The selector returns the first position, in list order, that is supported
      and downloads successfully, together with that position's id. */
  lemma FirstSuccessWins<D>(ids: seq<string>, supported: string -> bool,
                            fetch: (string, string) -> Result<D, string>, symbol: string, w: nat)
    requires w < |ids| && Succeeds(ids, w, supported, fetch, symbol)
    requires forall j :: 0 <= j < w ==> !Succeeds(ids, j, supported, fetch, symbol)
    ensures var s := FetchAny(ids, supported, fetch, symbol);
      s.result == Success((Attempt(ids, w, fetch, symbol).value, ids[w])) &&
      |s.attempts| > 0 && s.attempts[|s.attempts| - 1] == w
  {
    var s := FetchAny(ids, supported, fetch, symbol);
    FetchFromAttempts(ids, 0, supported, fetch, symbol, None, s);
    FetchFromSuccess(ids, 0, supported, fetch, symbol, None, s);
    FetchFromFailure(ids, 0, supported, fetch, symbol, None, s);
    var v := s.attempts[|s.attempts| - 1];
    assert Succeeds(ids, v, supported, fetch, symbol);
  }

  /** When every position fails or is unsupported, the error reported is the one
      recorded by the last position that failed, or `None` if none was tried. */
  lemma ExhaustionReportsLastFailure<D>(ids: seq<string>, supported: string -> bool,
                                        fetch: (string, string) -> Result<D, string>, symbol: string)
    requires forall j :: 0 <= j < |ids| ==> !Succeeds(ids, j, supported, fetch, symbol)
    ensures var s := FetchAny(ids, supported, fetch, symbol);
      && s.result.Failure?
      && ((forall j :: 0 <= j < |ids| ==> !supported(ids[j])) ==> s.result.error == None)
      && (forall f :: (0 <= f < |ids| && Fails(ids, f, supported, fetch, symbol) &&
                       (forall j :: f < j < |ids| ==> !Fails(ids, j, supported, fetch, symbol))) ==>
            s.result.error == Some(ErrorText(ids, f, fetch, symbol)))
  {
    var s := FetchAny(ids, supported, fetch, symbol);
    FetchFromFailure(ids, 0, supported, fetch, symbol, None, s);
    forall f | 0 <= f < |ids| && Fails(ids, f, supported, fetch, symbol) &&
               (forall j :: f < j < |ids| ==> !Fails(ids, j, supported, fetch, symbol))
      ensures s.result.error == Some(ErrorText(ids, f, fetch, symbol))
    {
      LastFailureSkips(ids, 0, f + 1, |ids|, supported, fetch, symbol, None);
    }
    if forall j :: 0 <= j < |ids| ==> !supported(ids[j]) {
      LastFailureNone(ids, 0, |ids|, supported, fetch, symbol);
    }
  }

  lemma {:induction false} LastFailureSkips<D>(ids: seq<string>, lo: nat, mid: nat, hi: nat,
                                               supported: string -> bool,
                                               fetch: (string, string) -> Result<D, string>, symbol: string,
                                               init: Option<string>)
    requires lo <= mid <= hi <= |ids|
    requires forall j :: mid <= j < hi ==> !Fails(ids, j, supported, fetch, symbol)
    ensures LastFailure(ids, lo, hi, supported, fetch, symbol, init) ==
            LastFailure(ids, lo, mid, supported, fetch, symbol, init)
    decreases hi - mid
  {
    if hi > mid {
      LastFailureSkips(ids, lo, mid, hi - 1, supported, fetch, symbol, init);
    }
  }

  lemma {:induction false} LastFailureNone<D>(ids: seq<string>, lo: nat, hi: nat,
                                              supported: string -> bool,
                                              fetch: (string, string) -> Result<D, string>, symbol: string)
    requires lo <= hi <= |ids|
    requires forall j :: lo <= j < hi ==> !supported(ids[j])
    ensures LastFailure(ids, lo, hi, supported, fetch, symbol, None) == None
    decreases hi - lo
  {
    if hi > lo {
      LastFailureNone(ids, lo, hi - 1, supported, fetch, symbol);
    }
  }

  /** An unsupported id anywhere in the list changes nothing about the outcome:
      it is never downloaded and never touches the recorded error. */
  lemma UnsupportedIsInvisible<D>(ids: seq<string>, j: nat, supported: string -> bool,
                                  fetch: (string, string) -> Result<D, string>, symbol: string)
    requires j < |ids| && !supported(ids[j])
    ensures FetchAny(ids, supported, fetch, symbol).result ==
            FetchAny(ids[..j] + ids[j + 1..], supported, fetch, symbol).result
  {
    RemoveUnsupported(ids, j, 0, supported, fetch, symbol, None);
  }

  /** The loop only looks at the ids from its position on. */
  lemma {:induction false} SameSuffix<D>(a: seq<string>, i: nat, b: seq<string>, k: nat,
                                         supported: string -> bool,
                                         fetch: (string, string) -> Result<D, string>, symbol: string,
                                         e: Option<string>)
    requires i <= |a| && k <= |b| && a[i..] == b[k..]
    ensures FetchFrom(a, i, supported, fetch, symbol, e).result == FetchFrom(b, k, supported, fetch, symbol, e).result
    decreases |a| - i
  {
    if i < |a| {
      assert a[i] == a[i..][0] == b[k..][0] == b[k];
      assert a[i + 1..] == a[i..][1..] == b[k..][1..] == b[k + 1..];
      assert Attempt(a, i, fetch, symbol) == Attempt(b, k, fetch, symbol);
      var err := if Fails(a, i, supported, fetch, symbol) then Some(ErrorText(a, i, fetch, symbol)) else e;
      SameSuffix(a, i + 1, b, k + 1, supported, fetch, symbol, err);
    }
  }

  lemma {:induction false} RemoveUnsupported<D>(ids: seq<string>, j: nat, i: nat, supported: string -> bool,
                                                fetch: (string, string) -> Result<D, string>, symbol: string,
                                                e: Option<string>)
    requires i <= j < |ids| && !supported(ids[j])
    ensures FetchFrom(ids, i, supported, fetch, symbol, e).result ==
            FetchFrom(ids[..j] + ids[j + 1..], i, supported, fetch, symbol, e).result
    decreases j - i
  {
    var rest := ids[..j] + ids[j + 1..];
    if i == j {
      assert ids[j + 1..] == rest[j..];
      SameSuffix(ids, j + 1, rest, j, supported, fetch, symbol, e);
    } else {
      assert rest[i] == ids[i];
      assert Attempt(ids, i, fetch, symbol) == Attempt(rest, i, fetch, symbol);
      var err := if Fails(ids, i, supported, fetch, symbol) then Some(ErrorText(ids, i, fetch, symbol)) else e;
      RemoveUnsupported(ids, j, i + 1, supported, fetch, symbol, err);
    }
  }

  /** A failing first provider and a working second one
      yield the second one's data and id, with each tried exactly once. */
  lemma FallbackExample<D>(supported: string -> bool, fetch: (string, string) -> Result<D, string>,
                           symbol: string, data: D)
    requires supported("fake_bad") && supported("fake_good")
    requires fetch("fake_bad", Symbols.PickSymbol("fake_bad", symbol)).Failure?
    requires fetch("fake_good", Symbols.PickSymbol("fake_good", symbol)) == Success(data)
    ensures FetchAny(["fake_bad", "fake_good"], supported, fetch, symbol) ==
            Selection(Success((data, "fake_good")), [0, 1])
  {
  }
}
