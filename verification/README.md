# Crypto signal alert job: a Dafny model

The job is a single script, `main.py`, that runs once per schedule tick:

- It downloads recent candles for one symbol from the first exchange in a configured list that works.
- It computes three indicators: a 50-bar EMA of the close, a 14-bar RSI and a 14-bar ATR.
- It looks for an EMA crossover on the last two candles, confirmed by the RSI.
- On a crossover it derives entry, stop and take-profit levels from the ATR.
- It sizes the position from the account's equity, risk fraction and leverage cap.
- It posts the alert to a Telegram chat. If no chat is configured, it discovers one from the bot's recent updates.

The model covers the decision and arithmetic core over exact `real`s and `string`s. The network is not modelled. The exchange library, the candle download and the Telegram replies become inputs and function parameters.

| file | module | models |
|---|---|---|
| `outcomes.dfy` | `Outcomes` | `Option` and `Result` |
| `indicators.dfy` | `Indicators` | candles, rolling mean, EMA, RSI, true range and ATR (`ema`, `rsi`, `atr`) |
| `signals.dfy` | `Signals` | the history guard and the long/short rules of `run_once` |
| `sizing.dfy` | `Sizing` | risk amount, stop distance, quantity and the leverage-cap clamp |
| `symbols.dfy` | `Symbols` | `pick_symbol_for_exchange` and Python's `str.replace` |
| `providers.dfy` | `Providers` | the fallback loop of `fetch_ohlcv_any` |
| `notifier.dfy` | `Notifier` | the update scan of `find_chat_id`, `str` of a chat id, and the send decision of `notify` |
| `run.dfy` | `Run` | `run_once` as one function from configuration and inputs to an outcome |

Modelling choices:

- **Undefined values.** pandas marks not-yet-defined rolling values with NaN. The model uses `Option<real>`: `None` before the window fills, `Some` from index `n - 1` on.
- **Exceptions.** An exception that ends the run is an outcome of its own: every provider failing, or the cap rescale dividing by zero.
- **Unset configuration.** An absent and an empty `TELEGRAM_TOKEN` / `TELEGRAM_CHAT_ID` behave the same way in the code (`if not ...`). Both are modelled as `""`.
- **Module-global chat id.** The assignment to the global `CHAT_ID` in `notify` is modelled as a returned value.

Behaviour of `main.py` that the model follows as written:

- **Flat price series.** On a perfectly flat series the RSI is 0, not 50: the up-mean is 0, so RS = 0 / (0 + 1e-12) = 0. `Indicators.RsiFlat` proves it.
- **Chat discovery.** The docstring of `find_chat_id` (main.py:28) speaks of the last private chat or channel. The code takes the newest update whose message or channel post names any chat, groups included. It neither skips messages from bots nor compares the sender with the bot's own id.
- **No data.** When every exchange fails, `run_once` raises and no alert is sent (`Run.Outcome.DataUnavailable`).

## Model

| member | source | states |
|---|---|---|
| `Indicators.RollingMean` | main.py:20-25 | `rolling(n).mean()`: same length as the input; index `i` holds the mean of the `n` values ending at `i`, defined exactly from `i = n - 1` on; non-negative inputs give non-negative means |
| `Indicators.RollingMeanOnline` | main.py:25 | a running-sum computation of the rolling mean produces exactly the window-by-window definition |
| `Indicators.Ema` | main.py:18 | `ewm(span=n, adjust=False)`: same length, seeded with the first close, and each value is `α·close + (1 − α)·previous` with `α = 2/(n+1)` |
| `Indicators.EmaUnique` | main.py:18 | any sequence that has the seed and follows the recurrence is the EMA; the recurrence fully determines it |
| `Indicators.EmaCausal` | main.py:18 | the EMA of a prefix is the prefix of the EMA, so later candles never change earlier values |
| `Indicators.EmaConstant` | main.py:18 | a constant close series has an EMA equal to that price everywhere |
| `Indicators.EmaWithinRange` | main.py:18 | every EMA value lies between the smallest and the largest close |
| `Indicators.Gains` | main.py:20 | `d.where(d>0, 0)`: the positive close-to-close change at each index, 0 at the first index (the NaN diff is replaced) and never negative |
| `Indicators.Losses` | main.py:20 | `-d.where(d<0, 0)`: the size of the negative change at each index, 0 at the first index and never negative |
| `Indicators.RsiValue` | main.py:21 | for non-negative means, `100 − 100/(1 + up/(dn + 1e-12))` lies in `[0, 100)` and is 0 exactly when the up-mean is 0; it equals the closed form `100·up/(up + dn + 1e-12)` of that formula |
| `Indicators.GainsLossesSplit` | main.py:20 | past the first candle, gain minus loss is the close-to-close change and at most one of the two is non-zero |
| `Indicators.Rsi` | main.py:19-21 | same length as the closes; index `i` is the RSI formula of the rolling means of gains and losses at `i`; it is defined exactly from index `n − 1` on; every defined value lies in `[0, 100)` and is 0 exactly when the window's up-mean is 0 |
| `Indicators.RsiFlat` | main.py:20-21 | a flat close series has RSI 0 (not 50) wherever it is defined |
| `Indicators.TrueRange` | main.py:23-24 | one true range per candle; the first is `abs(high − low)`, because the missing previous close drops out of the row maximum; each later one is the largest of `abs(h − l)`, `abs(h − prevClose)` and `abs(l − prevClose)` and equals one of them; none is negative |
| `Indicators.TrueRangeZero` | main.py:23-24 | on a well-formed candle a zero true range forces the close to equal the previous close |
| `Indicators.TrueRangePositive` | main.py:23-24 | on a well-formed candle whose close differs from the previous close, the true range is positive |
| `Indicators.Atr` | main.py:22-25 | same length as the candles; index `i` is the `n`-candle window mean of the true range ending at `i`; defined exactly from index `n − 1` on; never negative |
| `Indicators.RollingMeanPositive` | main.py:25 | a rolling mean of non-negative values is positive where the window's last value is positive |
| `Indicators.AtrPositive` | main.py:25 | a positive true range on the last candle of a window makes that ATR value positive |
| `Signals.Classify` | main.py:89-94 | the result is a signal or no signal; long exactly when close crosses above the EMA with RSI > 55, short exactly when it crosses below with RSI < 45; entry is the last close |
| `Signals.RulesExclusive` | main.py:90-92 | the long and short rules never hold together |
| `Signals.SignalLevels` | main.py:90-93 | long: stop = entry − 1.5·ATR and tp − entry = 2·(entry − stop); short mirrored; a positive ATR puts stop and target strictly on either side of the entry |
| `Signals.LastEmas` | main.py:86-88 | the EMA at the last two candles, the later one a single EMA step from the earlier one and the last close |
| `Signals.LastRsi` | main.py:86-89 | `r1` is the RSI at the last candle, which is defined once there are `RsiLen` candles |
| `Signals.LastAtr` | main.py:86-89 | `a1` is the ATR at the last candle, defined once there are `AtrLen` candles, and non-negative |
| `Signals.LastTwo` | main.py:86-89 | the values the rules read are the last two closes, the EMA at those two candles (related by the EMA step), and the last defined RSI and ATR values; the ATR is non-negative |
| `Signals.Detect` | main.py:87-94 | insufficient history exactly when there are fewer than `max(50, 14, 14) + 2 = 52` candles; a long signal exactly when there are enough candles and the last two closes cross above the 50-EMA with the last RSI above 55, a short one exactly when they cross below it with RSI below 45; the entry is the last close and the stop is 1.5 times the last ATR below (long) or above (short) it, and the take-profit lies twice the entry-to-stop distance beyond the entry on the other side (`tp − entry = 2·(entry − stop)` for a long, `entry − tp = 2·(stop − entry)` for a short) |
| `Signals.SignalNeedsMove` | main.py:88-92 | when `e1` is one EMA step from `e0` and the rules signal, the last close differs from the previous one |
| `Signals.SignalStrictlyOrdered` | main.py:86-93 | on well-formed candles every signal has stop < entry < tp (long) or tp < entry < stop (short) |
| `Sizing.RiskAmount` | main.py:95 | `max(equity·risk, 0)`: equal to `equity·risk` when that is non-negative and 0 when it is negative |
| `Sizing.StopDistance` | main.py:95 | `max(abs(entry − stop), 1e-8)`: at least the floor and at least the real distance, and equal to one of them |
| `Sizing.QuantityFromRisk` | main.py:95 | `risk_usd / distance` is non-negative for a non-negative risk, times the distance gives back the risk, and its notional is 0 exactly when the risk or the entry is 0 |
| `Sizing.ScaleOntoCap` | main.py:97 | scaling by `cap / notional` puts the notional exactly on the cap and, for a non-negative cap and quantity, keeps the quantity between 0 and its old value |
| `Sizing.Clamp` | main.py:96-97 | a notional that fits under the cap is kept with its quantity; a larger one becomes exactly the cap with notional = quantity·entry; the division error happens exactly when the notional exceeds the cap and is 0; under a non-negative cap and a non-negative quantity the quantity stays between 0 and the unclamped one |
| `Sizing.Size` | main.py:95-97 | fails exactly when the cap is negative and the notional is 0 (zero risk amount or zero entry), the code's division by zero; otherwise notional ≤ cap and notional = qty·entry; the quantity is `risk / distance` when that fits under the cap, and is scaled so that qty·entry = cap exactly when it does not; an unclamped order risks exactly the risk amount; under a non-negative cap the quantity is non-negative and never risks more; the risk amount is reported unchanged |
| `Sizing.SizeWorkedExample` | main.py:95-97 | entry 100, stop 98, equity 3000, risk 1%, 5x gives quantity 15, notional 1500, risk 30 |
| `Sizing.SizeClampExample` | main.py:97 | a clamped order has notional exactly the cap and keeps the unscaled risk amount |
| `Sizing.ClampedRiskBelowReported` | main.py:97 | when the cap binds on a positive risk, the risk actually taken is strictly below the reported one |
| `Symbols.PickSymbol` | main.py:62-66 | unlisted exchanges get the symbol unchanged; the result differs exactly when the exchange is listed and the symbol contains `/USDT`; reverting the rewrite gives back the original |
| `Symbols.AbsentUnchanged` | main.py:65 | a symbol without `/USDT` is unchanged by the replacement |
| `Symbols.PresentGrows` | main.py:65 | the replacement never shortens, and strictly lengthens a symbol containing `/USDT` |
| `Symbols.UnchangedIffAbsent` | main.py:65 | the replacement is the identity exactly on symbols without `/USDT` |
| `Symbols.RestoreAfterRewrite` | main.py:65 | replacing `/USDT:USDT` back by `/USDT` undoes the replacement, so the rewrite loses no information |
| `Symbols.SlashFreePrefix` | main.py:65 | a prefix without `/` is carried through the replacement untouched |
| `Symbols.RewriteOne` | main.py:65 | one `/USDT` between slash-free parts becomes one `/USDT:USDT` |
| `Symbols.RewriteNext` | main.py:65 | the first `/USDT` after a slash-free prefix becomes `/USDT:USDT` and the replacement carries on over the rest of the string |
| `Symbols.RewriteEvery` | main.py:65 | slash-free parts joined by `/USDT` come out joined by `/USDT:USDT`: every occurrence is replaced |
| `Symbols.ReplaceAllLength` | main.py:65 | a replacement text no shorter than the pattern never shortens the string, and one no longer never lengthens it |
| `Symbols.PickSymbolPerpName` | main.py:62-66 | on a listed exchange, `BASE/USDT` becomes `BASE/USDT:USDT`; elsewhere it stays `BASE/USDT` |
| `Symbols.PickSymbolEveryOccurrence` | main.py:62-66 | on a listed exchange every `/USDT` between slash-free parts becomes `/USDT:USDT` |
| `Symbols.PickSymbolTwoQuotes` | main.py:64-65 | on bybit, `A/USDT-B/USDT` becomes `A/USDT:USDT-B/USDT:USDT` |
| `Symbols.PickSymbolNotIdempotent` | main.py:65 | applying the rewrite twice appends a second `:USDT` |
| `Symbols.PickSymbolExample` | main.py:64-65 | on bybit, `BTC/USDT` becomes `BTC/USDT:USDT` |
| `Providers.LastFailureStep` | main.py:77-78 | the reference definition of the last failure, read forwards: a failure only counts if nothing later fails |
| `Providers.FetchFromAttempts` | main.py:70-75 | only supported ids are downloaded, each position at most once and in list order |
| `Providers.FetchFromSuccess` | main.py:70-76 | a success carries the data and id of the last attempted position; every earlier position failed or was skipped, and every supported earlier position was tried |
| `Providers.FetchFromFailure` | main.py:70-80 | failure exactly when no position is supported and downloads; every supported id was tried; the error is the last failure's `id: error`, or the starting value if none failed |
| `Providers.SkippedIdFailure` | main.py:72 | the failure statement of `FetchFromFailure` at a position whose id is unsupported: it is skipped and the rest of the list decides |
| `Providers.FailedAttemptFailure` | main.py:73-79 | the failure statement of `FetchFromFailure` at a supported position whose download fails: its error is recorded and the rest of the list decides |
| `Providers.FirstSuccessWins` | main.py:70-76 | the result is the first position in list order that is supported and downloads, with that position's id |
| `Providers.FetchAny` | main.py:68-80 | the attempted positions are supported, in range and strictly increasing; failure exactly when no supported id downloads, with the last failure as the error; a success is the last attempted position, it downloaded, its data and id are returned, and no earlier position succeeds |
| `Providers.ExhaustionReportsLastFailure` | main.py:69-80 | with no success the call fails; with nothing supported the error is `None`; otherwise it is the message of the last position that failed |
| `Providers.LastFailureSkips` | main.py:72 | positions that did not fail do not change the recorded error |
| `Providers.LastFailureNone` | main.py:69-72 | over unsupported ids only, the recorded error stays `None` |
| `Providers.UnsupportedIsInvisible` | main.py:72 | removing an unsupported id from the list does not change the outcome |
| `Providers.SameSuffix` | main.py:70 | the loop from a position depends only on the ids from that position on |
| `Providers.RemoveUnsupported` | main.py:72 | dropping an unsupported id at or after the loop's position leaves the outcome unchanged |
| `Providers.FallbackExample` | main.py:68-80 | a failing first exchange and a working second one yield the second's data and id, each tried once |
| `Notifier.NatText` | main.py:35-37 | the decimal digits of a natural number: non-empty, all digits, no leading zero |
| `Notifier.DecimalText` | main.py:35-37 | `str(id)` is never empty |
| `Notifier.NatTextValue` | main.py:35-37 | the digits read back as the number |
| `Notifier.DecimalRoundTrip` | main.py:35-37 | the chat id text reads back as the chat id, negative ids included |
| `Notifier.DecimalTextInjective` | main.py:35-37 | different chats give different chat id texts |
| `Notifier.UpdateChat` | main.py:34-37 | an update contributes a chat exactly when its message or its channel post carries one; the message's chat wins when both do |
| `Notifier.FindChatId` | main.py:33-40 | discovery returns `""` exactly when no update names a chat |
| `Notifier.NewestChatWins` | main.py:33-37 | discovery returns the chat of the newest update that names one |
| `Notifier.MessageBeforeChannelPost` | main.py:34-37 | within one update the message's chat is taken over the channel post's |
| `Notifier.Notify` | main.py:42-58 | no token: nothing sent, chat id unchanged; a configured chat id is used as is, otherwise the discovered one is kept; a request goes out exactly when token and destination are non-empty, to that destination with the given text; success exactly when sent and the reply's `ok` is true |
| `Notifier.DiscoveredDestination` | main.py:46-53 | with no configured chat, the message goes to the newest update's chat |
| `Notifier.NoChatNoSend` | main.py:46-50 | with no configured chat and no update naming one, nothing is sent and the call fails |
| `Notifier.StickyDestination` | main.py:43-53 | a later call reuses the chat id discovered earlier, whatever the updates then say |
| `Run.RunFailsOnlyWithoutData` | main.py:80-83 | the run raises for lack of data exactly when no provider is supported and downloads, carrying the last failure |
| `Run.RunOnce` | main.py:82-97 | raises for lack of data exactly when the provider selector fails, with its error; on data, stops early exactly when there are fewer than 52 candles; sizes exactly when the detector signals, and ends in the division error exactly when sizing the signal's entry and stop fails, otherwise alerts; an alert names the delivering provider, carries the detector's levels, the sized order under the cap and the full risk amount |
| `Run.AlertFromFirstProvider` | main.py:83-97 | an alert is built from the first working provider's candles and names that provider; its levels are the detector's and its order stays under the cap with the full risk amount |
| `Run.AlertLevelsOrdered` | main.py:86-97 | on well-formed candles with a non-negative cap, the run never hits the sizing division error, and every alert has stop and target strictly around the entry |
| `Run.RunAndNotify` | main.py:82-104 | a notify call is made exactly for an alert, and it is `notify` with the configured token, chat id and updates on the rendered alert text, leaving the chat id that call returns; without an alert the configured chat id is unchanged |
| `Run.AlertReachesConfiguredChat` | main.py:104 | with a token and a configured chat, an alert is posted to that chat with the rendered text and reported delivered exactly when the reply's `ok` is true |

## Left out

- HTTP is not modelled. `requests.get` and `requests.post` become inputs: the update list of one `getUpdates` poll and the reply to `sendMessage`, as `Failure` for an exception or the truth of the reply's `ok` field.
- The exchange library is not modelled. ccxt's `hasattr`, exchange construction and `fetch_ohlcv` become the parameters `supported` and `fetch`. The error text `fetch` returns stands for `TypeName: message`.
- The five-attempt retry loop of `find_chat_id` is left out: discovery is modelled over a single poll's updates.
- The printed diagnostics are left out.
- The environment variables (main.py:6-13) and the `__main__` startup message are left out. The configured ids, symbol, account and chat id are parameters.
- Alert text rendering and the wall-clock timestamp (main.py:98-103) are left out, since they are fixed-digit float formatting and the clock. The text is a `render` parameter of `Run.RunAndNotify`.
- Floating point is not modelled: IEEE-754 rounding and NaN propagation beyond "undefined before the window fills". The model computes over exact reals.
- DataFrame construction and the millisecond-to-timestamp conversion are left out. A candle's `ts` is kept as an integer and is not used.
- Sizing.Size: the code's `float()` conversions and the `1e-8` floor are modelled exactly. Rounding of the scaled quantity is not, so `notional == quantity·entry` holds over reals only.
- The raised message `"All exchanges failed. Last error: " + str(last_err)` (main.py:80) is modelled by its variable part only, as `Option<string>`. `None` stands for the text `None` that `str(None)` gives.
- `timeframe` and `limit` (main.py:75, 83) are fixed configuration. They are not parameters of the modelled `fetch`.
- Symbols.PickSymbolEveryOccurrence: stated for symbols whose only `/` characters start a `/USDT`; `ReplaceAll` itself is defined for every string.
