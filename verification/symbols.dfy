/** `pick_symbol_for_exchange`: venues that list USDT-margined perpetuals under
    the `BASE/USDT:USDT` name get every `/USDT` in the symbol rewritten. */
module Symbols {

  /** Exchange ids whose perpetual-futures markets use the `:USDT` settle suffix. */
  const PerpVenues: set<string> := {"bybit", "bitget", "okx", "bingx", "kucoinfutures", "phemex"}

  const SpotQuote: string := "/USDT"
  const PerpQuote: string := "/USDT:USDT"

  /** Python's `str.replace(pat, rep)`: one left-to-right scan that rewrites every
      non-overlapping occurrence of a non-empty pattern. */
  function ReplaceAll(s: string, pat: string, rep: string): string
    requires |pat| > 0
    decreases |s|
  {
    if |s| < |pat| then s
    else if s[..|pat|] == pat then rep + ReplaceAll(s[|pat|..], pat, rep)
    else [s[0]] + ReplaceAll(s[1..], pat, rep)
  }

  /** A replacement at least as long as the pattern never shortens the text, and
      one no longer than the pattern never lengthens it. */
  lemma {:induction false} ReplaceAllLength(s: string, pat: string, rep: string)
    requires |pat| > 0
    ensures |rep| >= |pat| ==> |ReplaceAll(s, pat, rep)| >= |s|
    ensures |rep| <= |pat| ==> |ReplaceAll(s, pat, rep)| <= |s|
    decreases |s|
  {
    if |s| >= |pat| {
      if s[..|pat|] == pat {
        ReplaceAllLength(s[|pat|..], pat, rep);
      } else {
        ReplaceAllLength(s[1..], pat, rep);
      }
    }
  }

  /** `/USDT` starts at position `i` of `s`. */
  predicate OccursAt(s: string, i: nat)
  {
    i + |SpotQuote| <= |s| && s[i..i + |SpotQuote|] == SpotQuote
  }

  predicate Occurs(s: string)
  {
    exists i: nat :: i < |s| && OccursAt(s, i)
  }

  function PickSymbol(exId: string, symbol: string): (r: string)
    ensures exId !in PerpVenues ==> r == symbol
    ensures r == symbol <==> exId !in PerpVenues || !Occurs(symbol)
    ensures RestoreSymbol(exId, r) == symbol
  {
    if exId in PerpVenues then
      var r := ReplaceAll(symbol, SpotQuote, PerpQuote);
      UnchangedIffAbsent(symbol);
      RestoreAfterRewrite(symbol);
      r
    else
      symbol
  }

  /** The inverse rewrite: every `/USDT:USDT` back to `/USDT` on the same venues. */
  function RestoreSymbol(exId: string, symbol: string): string
  {
    if exId in PerpVenues then ReplaceAll(symbol, PerpQuote, SpotQuote) else symbol
  }

  lemma {:induction false} AbsentUnchanged(s: string)
    requires !Occurs(s)
    ensures ReplaceAll(s, SpotQuote, PerpQuote) == s
    decreases |s|
  {
    if |s| >= |SpotQuote| {
      assert !OccursAt(s, 0);
      assert s[0..|SpotQuote|] == s[..|SpotQuote|];
      var t := s[1..];
      forall j: nat
        ensures !OccursAt(t, j)
      {
        if OccursAt(t, j) {
          assert t[j..j + |SpotQuote|] == s[j + 1..j + 1 + |SpotQuote|];
          assert OccursAt(s, j + 1);
        }
      }
      AbsentUnchanged(t);
    }
  }

  lemma {:induction false} PresentGrows(s: string)
    ensures |ReplaceAll(s, SpotQuote, PerpQuote)| >= |s|
    ensures Occurs(s) ==> |ReplaceAll(s, SpotQuote, PerpQuote)| > |s|
    decreases |s|
  {
    if |s| < |SpotQuote| {
    } else if s[..|SpotQuote|] == SpotQuote {
      PresentGrows(s[|SpotQuote|..]);
    } else {
      var t := s[1..];
      PresentGrows(t);
      if Occurs(s) {
        var i: nat :| i < |s| && OccursAt(s, i);
        assert s[0..|SpotQuote|] == s[..|SpotQuote|];
        assert i > 0;
        assert t[i - 1..i - 1 + |SpotQuote|] == s[i..i + |SpotQuote|];
        assert OccursAt(t, i - 1);
      }
    }
  }

  /** The rewrite changes a symbol exactly when it contains `/USDT`. */
  lemma UnchangedIffAbsent(s: string)
    ensures ReplaceAll(s, SpotQuote, PerpQuote) == s <==> !Occurs(s)
  {
    if !Occurs(s) {
      AbsentUnchanged(s);
    } else {
      PresentGrows(s);
    }
  }

  /** A rewritten symbol begins with a slash-free word only if the original did:
      the rewrite only ever inserts text that starts with `/`. */
  lemma {:induction false} RewritePrefix(u: string, w: string)
    requires SlashFree(w)
    ensures var r := ReplaceAll(u, SpotQuote, PerpQuote);
      |w| <= |r| && r[..|w|] == w ==> |w| <= |u| && u[..|w|] == w
    decreases |w|
  {
    var r := ReplaceAll(u, SpotQuote, PerpQuote);
    if |w| > 0 && |w| <= |r| && r[..|w|] == w && |u| >= |SpotQuote| {
      assert r[0] == w[0];
      assert u[..|SpotQuote|] != SpotQuote;
      assert r == [u[0]] + ReplaceAll(u[1..], SpotQuote, PerpQuote);
      assert r[1..][..|w| - 1] == w[1..];
      RewritePrefix(u[1..], w[1..]);
      assert u[..|w|] == [u[0]] + u[1..][..|w| - 1];
    }
  }

  /** The rewrite of a string that does not start with `/USDT` keeps its first
      character and does not start with `/USDT:USDT`. */
  predicate KeepsHead(s: string)
    requires |s| > 0
  {
    var r := ReplaceAll(s, SpotQuote, PerpQuote);
    |r| > 0 && r[0] == s[0] && r[1..] == ReplaceAll(s[1..], SpotQuote, PerpQuote) &&
    !(|r| >= |PerpQuote| && r[..|PerpQuote|] == PerpQuote)
  }

  lemma NoFalseMatch(s: string)
    requires |s| > 0
    requires !(|s| >= |SpotQuote| && s[..|SpotQuote|] == SpotQuote)
    ensures KeepsHead(s)
  {
    if |s| < |SpotQuote| {
      NoFalseMatchShort(s);
    } else if s[0] == '/' {
      NoFalseMatchSlash(s);
    } else {
      NoFalseMatchOther(s);
    }
  }

  lemma NoFalseMatchShort(s: string)
    requires 0 < |s| < |SpotQuote|
    ensures KeepsHead(s)
  {
    var r := ReplaceAll(s, SpotQuote, PerpQuote);
    var t := ReplaceAll(s[1..], SpotQuote, PerpQuote);
    assert r == s;
    assert s[1..] == t;
  }

  lemma NoFalseMatchOther(s: string)
    requires |s| >= |SpotQuote| && s[..|SpotQuote|] != SpotQuote
    requires s[0] != '/'
    ensures KeepsHead(s)
  {
    var r := ReplaceAll(s, SpotQuote, PerpQuote);
    var t := ReplaceAll(s[1..], SpotQuote, PerpQuote);
    assert r == [s[0]] + t;
    assert r[0] != PerpQuote[0];
  }

  lemma NoFalseMatchSlash(s: string)
    requires |s| >= |SpotQuote| && s[..|SpotQuote|] != SpotQuote
    requires s[0] == '/'
    ensures KeepsHead(s)
  {
    var r := ReplaceAll(s, SpotQuote, PerpQuote);
    var t := ReplaceAll(s[1..], SpotQuote, PerpQuote);
    assert r == [s[0]] + t;
    assert r[1..] == t;
    assert s[1..][..4] != "USDT" by {
      assert s[..|SpotQuote|] == [s[0]] + s[1..][..4];
    }
    RewritePrefix(s[1..], "USDT");
    assert !(|t| >= 4 && t[..4] == "USDT");
    assert PerpQuote[1..5] == "USDT";
    if |r| >= |PerpQuote| {
      assert r[..|PerpQuote|][1..5] == r[1..5] == t[..4];
    }
  }

  /** Undoing the rewrite gives back the original symbol, so no two symbols are
      sent to a venue under the same name. */
  lemma {:induction false} RestoreAfterRewrite(s: string)
    ensures ReplaceAll(ReplaceAll(s, SpotQuote, PerpQuote), PerpQuote, SpotQuote) == s
    decreases |s|
  {
    var r := ReplaceAll(s, SpotQuote, PerpQuote);
    if |s| < |SpotQuote| {
    } else if s[..|SpotQuote|] == SpotQuote {
      var t := ReplaceAll(s[|SpotQuote|..], SpotQuote, PerpQuote);
      RestoreAfterRewrite(s[|SpotQuote|..]);
      assert r == PerpQuote + t;
      assert r[..|PerpQuote|] == PerpQuote;
      assert r[|PerpQuote|..] == t;
      assert s == SpotQuote + s[|SpotQuote|..];
    } else {
      RestoreAfterRewrite(s[1..]);
      NoFalseMatch(s);
      assert s == [s[0]] + s[1..];
    }
  }

  /** Text without a slash passes through the rewrite untouched. */
  lemma {:induction false} SlashFreePrefix(w: string, s: string)
    requires SlashFree(w)
    ensures ReplaceAll(w + s, SpotQuote, PerpQuote) == w + ReplaceAll(s, SpotQuote, PerpQuote)
    decreases |w|
  {
    if |w| > 0 {
      var ws := w + s;
      assert ws[0] == w[0];
      assert ws[1..] == w[1..] + s;
      SlashFreePrefix(w[1..], s);
      NoFalseMatch(ws);
      var r := ReplaceAll(ws, SpotQuote, PerpQuote);
      var rest := ReplaceAll(s, SpotQuote, PerpQuote);
      assert r[1..] == ReplaceAll(w[1..] + s, SpotQuote, PerpQuote) == w[1..] + rest;
      assert r == [r[0]] + r[1..] == [w[0]] + (w[1..] + rest);
      assert w + rest == [w[0]] + (w[1..] + rest);
    } else {
      assert w + s == s;
    }
  }

  predicate SlashFree(w: string)
  {
    forall k :: 0 <= k < |w| ==> w[k] != '/'
  }

  /** The first `/USDT` after a slash-free prefix is rewritten, and the scan
      carries on over the rest of the string. */
  lemma RewriteNext(w: string, s: string)
    requires SlashFree(w)
    ensures ReplaceAll(w + SpotQuote + s, SpotQuote, PerpQuote) == w + PerpQuote + ReplaceAll(s, SpotQuote, PerpQuote)
  {
    var q := SpotQuote + s;
    assert w + SpotQuote + s == w + q;
    SlashFreePrefix(w, q);
    assert q[..|SpotQuote|] == SpotQuote && q[|SpotQuote|..] == s;
    assert w + (PerpQuote + ReplaceAll(s, SpotQuote, PerpQuote)) == w + PerpQuote + ReplaceAll(s, SpotQuote, PerpQuote);
  }

  /** `sep.join(parts)`. */
  function Join(parts: seq<string>, sep: string): string
    requires |parts| > 0
    decreases |parts|
  {
    if |parts| == 1 then parts[0] else parts[0] + sep + Join(parts[1..], sep)
  }

  /** Every `/USDT` is rewritten, not just the first: joining slash-free parts with
      `/USDT` and rewriting gives the same parts joined with `/USDT:USDT`. */
  lemma {:induction false} RewriteEvery(parts: seq<string>)
    requires |parts| > 0 && forall k :: 0 <= k < |parts| ==> SlashFree(parts[k])
    ensures ReplaceAll(Join(parts, SpotQuote), SpotQuote, PerpQuote) == Join(parts, PerpQuote)
    decreases |parts|
  {
    if |parts| == 1 {
      SlashFreePrefix(parts[0], []);
      assert parts[0] + [] == parts[0];
    } else {
      RewriteNext(parts[0], Join(parts[1..], SpotQuote));
      RewriteEvery(parts[1..]);
    }
  }

  /** One `/USDT` between slash-free text is rewritten in place. */
  lemma RewriteOne(w: string, x: string)
    requires SlashFree(w) && SlashFree(x)
    ensures ReplaceAll(w + SpotQuote + x, SpotQuote, PerpQuote) == w + PerpQuote + x
  {
    var q := SpotQuote + x;
    assert w + SpotQuote + x == w + q;
    SlashFreePrefix(w, q);
    assert q[..|SpotQuote|] == SpotQuote && q[|SpotQuote|..] == x;
    SlashFreePrefix(x, []);
    assert x + [] == x;
    assert w + (PerpQuote + x) == w + PerpQuote + x;
  }

  /** On a perpetual venue `BASE/USDT` becomes `BASE/USDT:USDT`; on any other venue it is kept. */
  lemma PickSymbolPerpName(venue: string, base: string)
    requires SlashFree(base)
    ensures PickSymbol(venue, base + SpotQuote) ==
      if venue in PerpVenues then base + PerpQuote else base + SpotQuote
  {
    RewriteOne(base, []);
    assert base + SpotQuote + [] == base + SpotQuote;
    assert base + PerpQuote + [] == base + PerpQuote;
  }

  /** Rewriting an already rewritten name appends a second `:USDT`: the rewrite is
      not idempotent. */
  lemma PickSymbolNotIdempotent(venue: string, base: string)
    requires venue in PerpVenues && SlashFree(base)
    ensures PickSymbol(venue, PickSymbol(venue, base + SpotQuote)) == base + PerpQuote + ":USDT"
  {
    PickSymbolPerpName(venue, base);
    assert base + PerpQuote == base + SpotQuote + ":USDT";
    RewriteOne(base, ":USDT");
  }

  /** On a perpetual venue a symbol made of slash-free parts separated by `/USDT`
      has every separator rewritten to `/USDT:USDT`. */
  lemma {:induction false} PickSymbolEveryOccurrence(venue: string, parts: seq<string>)
    requires venue in PerpVenues
    requires |parts| > 0 && forall k :: 0 <= k < |parts| ==> SlashFree(parts[k])
    ensures PickSymbol(venue, Join(parts, SpotQuote)) == Join(parts, PerpQuote)
  {
    RewriteEvery(parts);
  }

  /** The names the bot trades by default: `BTC/USDT` on bybit is `BTC/USDT:USDT`. */
  lemma PickSymbolExample(venue: string, symbol: string)
    requires venue == "bybit" && symbol == "BTC/USDT"
    ensures PickSymbol(venue, symbol) == "BTC/USDT:USDT"
  {
    assert symbol == "BTC" + SpotQuote;
    PickSymbolPerpName(venue, "BTC");
  }

  /** Both quotes of a two-quote name are rewritten on a perpetual venue. */
  lemma PickSymbolTwoQuotes(venue: string, symbol: string)
    requires venue == "bybit" && symbol == "A/USDT-B/USDT"
    ensures PickSymbol(venue, symbol) == "A/USDT:USDT-B/USDT:USDT"
  {
    var parts := ["A", "-B", ""];
    assert Join(parts, SpotQuote) == symbol;
    assert Join(parts, PerpQuote) == "A/USDT:USDT-B/USDT:USDT";
    PickSymbolEveryOccurrence(venue, parts);
  }
}
