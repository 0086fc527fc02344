/**
 * The string keys both services use for their per-market tables: the manager
 * table is keyed "<SYMBOL>_SPOT" / "<SYMBOL>_FUTURES" with the symbol upper-cased,
 * the reconnect counters "spot" / "futures".
 */
module MarketKeys {

  /** Upper-casing of one character, for the ASCII letters the exchange's symbols use. */
  function UpperChar(c: char): char {
    if 'a' <= c <= 'z' then (c as int - 32) as char else c
  }

  /** `uppercase()` / `uppercased()` on a symbol. */
  function Upper(s: string): (r: string)
    ensures |r| == |s|
    ensures forall i :: 0 <= i < |s| ==> r[i] == UpperChar(s[i])
  {
    seq(|s|, i requires 0 <= i < |s| => UpperChar(s[i]))
  }

  function MarketSuffix(isFutures: bool): string {
    if isFutures then "_FUTURES" else "_SPOT"
  }

  /** "${symbol.uppercase()}_${if (isFutures) "FUTURES" else "SPOT"}" */
  function ManagerKey(symbol: string, isFutures: bool): string {
    Upper(symbol) + MarketSuffix(isFutures)
  }

  /** The reconnect-counter key of a market. */
  function AttemptsKey(isFutures: bool): string {
    if isFutures then "futures" else "spot"
  }

  /**
   * Two manager keys coincide exactly when the symbols agree after upper-casing
   * and the markets agree: a spot key never names a futures manager.
   */
  lemma ManagerKeyInjective(s: string, f: bool, t: string, g: bool)
    ensures ManagerKey(s, f) == ManagerKey(t, g) <==> Upper(s) == Upper(t) && f == g
  {
    var a, b := ManagerKey(s, f), ManagerKey(t, g);
    if a == b {
      // The two suffixes end in different letters ('S' against 'T').
      assert a[|a| - 1] == (if f then 'S' else 'T');
      assert b[|b| - 1] == (if g then 'S' else 'T');
      assert Upper(s) == a[..|a| - |MarketSuffix(f)|];
      assert Upper(t) == b[..|b| - |MarketSuffix(g)|];
    }
  }

  lemma SpotAndFuturesKeysDiffer(s: string)
    ensures ManagerKey(s, false) != ManagerKey(s, true)
  {
    assert |ManagerKey(s, false)| != |ManagerKey(s, true)|;
  }
}
