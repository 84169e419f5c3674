/** `run_once`: download candles through the fallback selector, run the detector
    on them and, on a signal, size the position and post the alert. The alert's
    text is rendered by a parameter. */
module Run {
  import opened Outcomes
  import opened Indicators
  import opened Signals
  import opened Sizing
  import Providers
  import Notifier

  /** How one run ends. `DataUnavailable` and `SizingFailed` are the exceptions
      that escape `run_once` (every provider failed; the cap rescale divided by a
      zero notional); the other three are its normal ends. */
  datatype Outcome =
    | DataUnavailable(lastError: Option<string>)
    | NotEnoughData
    | NoTrade
    | SizingFailed
    | Alert(provider: string, signal: Detection, order: SizedOrder)

  /** The decision part of `run_once` over the configured providers, symbol and
      account. It raises for lack of data exactly when the selector fails; on data
      it stops early exactly when the history is short; it sizes a position, and
      then alerts or hits the division error, exactly when the detector signals;
      an alert names the provider that delivered the candles and carries the
      detector's levels and a capped order with the full risk amount. */
  function RunOnce(ids: seq<string>, supported: string -> bool,
                   fetch: (string, string) -> Result<seq<Bar>, string>, symbol: string,
                   acct: Account): (o: Outcome)
    ensures var f := Providers.FetchAny(ids, supported, fetch, symbol).result;
      && (o.DataUnavailable? <==> f.Failure?)
      && (f.Failure? ==> o == DataUnavailable(f.error))
      && (f.Success? ==> (o.NotEnoughData? <==> |f.value.0| < MinBars))
      && ((o.Alert? || o.SizingFailed?) <==> f.Success? && Detect(f.value.0).Signal?)
      && (o.SizingFailed? <==>
            f.Success? && Detect(f.value.0).Signal? &&
            Size(Detect(f.value.0).entry, Detect(f.value.0).stop, acct).Failure?)
      && (o.Alert? ==>
            && f.Success?
            && o.provider == f.value.1
            && o.signal == Detect(f.value.0)
            && Size(o.signal.entry, o.signal.stop, acct) == Success(o.order)
            && o.order.notional <= Cap(acct)
            && o.order.riskAmount == RiskAmount(acct))
  {
    match Providers.FetchAny(ids, supported, fetch, symbol).result
    case Failure(err) => DataUnavailable(err)
    case Success((bars, provider)) =>
      match Detect(bars)
      case InsufficientHistory => NotEnoughData
      case NoSignal => NoTrade
      case Signal(side, entry, stop, tp) =>
        match Size(entry, stop, acct)
        case Failure(_) => SizingFailed
        case Success(order) => Alert(provider, Signal(side, entry, stop, tp), order)
  }

  /** Data is missing exactly when no supported provider downloads; the error
      raised is the last provider failure. */
  lemma RunFailsOnlyWithoutData(ids: seq<string>, supported: string -> bool,
                                fetch: (string, string) -> Result<seq<Bar>, string>, symbol: string,
                                acct: Account)
    ensures RunOnce(ids, supported, fetch, symbol, acct).DataUnavailable? <==>
            forall j :: 0 <= j < |ids| ==> !Providers.Succeeds(ids, j, supported, fetch, symbol)
    ensures RunOnce(ids, supported, fetch, symbol, acct).DataUnavailable? ==>
            RunOnce(ids, supported, fetch, symbol, acct).lastError ==
            Providers.LastFailure(ids, 0, |ids|, supported, fetch, symbol, None)
  {
    var s := Providers.FetchAny(ids, supported, fetch, symbol);
    Providers.FetchFromFailure(ids, 0, supported, fetch, symbol, None, s);
  }

  /** An alert is only raised on a signal from the first provider in list order
      that downloads; its levels are the detector's on that provider's candles,
      and its order respects the leverage cap and carries the full risk amount. */
  lemma AlertFromFirstProvider(ids: seq<string>, supported: string -> bool,
                               fetch: (string, string) -> Result<seq<Bar>, string>, symbol: string,
                               acct: Account, w: nat)
    requires w < |ids| && Providers.Succeeds(ids, w, supported, fetch, symbol)
    requires forall j :: 0 <= j < w ==> !Providers.Succeeds(ids, j, supported, fetch, symbol)
    ensures var o := RunOnce(ids, supported, fetch, symbol, acct);
      var bars := Providers.Attempt(ids, w, fetch, symbol).value;
      && !o.DataUnavailable?
      && (o.NotEnoughData? <==> |bars| < MinBars)
      && (o.Alert? ==>
            && o.provider == ids[w]
            && o.signal == Detect(bars)
            && o.signal.entry == bars[|bars| - 1].close
            && o.order.notional <= Cap(acct)
            && o.order.riskAmount == RiskAmount(acct))
  {
    Providers.FirstSuccessWins(ids, supported, fetch, symbol, w);
  }

  /** On well-formed candles and a non-negative cap every run either ends without
      an alert or alerts with stop and target strictly around the entry. */
  lemma AlertLevelsOrdered(ids: seq<string>, supported: string -> bool,
                           fetch: (string, string) -> Result<seq<Bar>, string>, symbol: string,
                           acct: Account)
    requires forall j, i :: 0 <= j < |ids| && Providers.Succeeds(ids, j, supported, fetch, symbol) &&
                            0 <= i < |Providers.Attempt(ids, j, fetch, symbol).value| ==>
                              WellFormed(Providers.Attempt(ids, j, fetch, symbol).value[i])
    requires Cap(acct) >= 0.0
    ensures var o := RunOnce(ids, supported, fetch, symbol, acct);
      && !o.SizingFailed?
      && (o.Alert? ==>
            (o.signal.side == Long ==> o.signal.stop < o.signal.entry < o.signal.tp) &&
            (o.signal.side == Short ==> o.signal.tp < o.signal.entry < o.signal.stop))
  {
    var s := Providers.FetchAny(ids, supported, fetch, symbol);
    Providers.FetchFromAttempts(ids, 0, supported, fetch, symbol, None, s);
    Providers.FetchFromSuccess(ids, 0, supported, fetch, symbol, None, s);
    if s.result.Success? {
      var w := s.attempts[|s.attempts| - 1];
      var bars := s.result.value.0;
      assert bars == Providers.Attempt(ids, w, fetch, symbol).value;
      assert Providers.Succeeds(ids, w, supported, fetch, symbol);
      SignalStrictlyOrdered(bars);
    }
  }

  /** `run_once` including its final `notify`: a message goes out only for an alert,
      rendered by `render`. Returns the outcome, the notify call's result if one
      was made, and the chat id configured afterwards. */
  function RunAndNotify(ids: seq<string>, supported: string -> bool,
                        fetch: (string, string) -> Result<seq<Bar>, string>, symbol: string,
                        acct: Account, render: Outcome -> string,
                        token: string, chatId: string, updates: seq<Notifier.Update>,
                        reply: Result<bool, string>): (r: (Outcome, Option<Notifier.Delivery>, string))
    ensures r.0 == RunOnce(ids, supported, fetch, symbol, acct)
    ensures r.1.Some? <==> r.0.Alert?
    ensures r.1.Some? ==> r.1.value.request.Some? ==> r.1.value.request.value.text == render(r.0)
    ensures r.1.None? ==> r.2 == chatId
    ensures r.0.Alert? ==>
      r.1 == Some(Notifier.Notify(token, chatId, updates, render(r.0), reply)) && r.2 == r.1.value.chatId
  {
    var o := RunOnce(ids, supported, fetch, symbol, acct);
    if o.Alert? then
      var d := Notifier.Notify(token, chatId, updates, render(o), reply);
      (o, Some(d), d.chatId)
    else
      (o, None, chatId)
  }

  /** With a token and a configured chat, an alert is posted to that chat with the
      rendered text, and reported delivered exactly when the reply's `ok` is true. */
  lemma AlertReachesConfiguredChat(ids: seq<string>, supported: string -> bool,
                                   fetch: (string, string) -> Result<seq<Bar>, string>, symbol: string,
                                   acct: Account, render: Outcome -> string,
                                   token: string, chatId: string, updates: seq<Notifier.Update>,
                                   reply: Result<bool, string>)
    requires token != "" && chatId != ""
    requires RunOnce(ids, supported, fetch, symbol, acct).Alert?
    ensures var r := RunAndNotify(ids, supported, fetch, symbol, acct, render, token, chatId, updates, reply);
      && r.1.Some?
      && r.1.value.request == Some(Notifier.SendRequest(chatId, render(r.0)))
      && (r.1.value.delivered <==> reply == Success(true))
      && r.2 == chatId
  {
  }
}
