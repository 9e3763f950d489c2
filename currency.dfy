/** The currency page (pages/Currency.tsx): a base currency, a watchlist of
    target codes, the last rates received and the EUR/PKR history. */
module Currency {
  import opened Types
  import opened Lists

  /** The codes offered as base and as watchlist buttons. */
  const AvailableCurrencies: seq<string> :=
    ["USD", "EUR", "PKR", "GBP", "JPY", "AUD", "CAD", "CHF", "CNY", "INR", "BRL", "MXN"]

  function Other(code: string): string -> bool {
    c => c != code
  }

  /** The watchlist buttons: every available code except the base. */
  function WatchlistButtons(base: string): (r: seq<string>)
    ensures forall c :: c in r <==> c in AvailableCurrencies && c != base
  {
    FilterMembers(AvailableCurrencies, Other(base));
    Filter(AvailableCurrencies, Other(base))
  }

  /** `toggleTarget(code)`'s new list: an absent code is appended; a present
      one is filtered out, unless the list has a single entry. */
  function Toggled(targets: seq<string>, code: string): (r: seq<string>)
    ensures code !in targets ==> r == targets + [code]
    ensures code in targets && |targets| <= 1 ==> r == targets
    ensures code in targets && |targets| > 1 ==>
      forall c :: c in r <==> c in targets && c != code
  {
    if code in targets then
      if |targets| > 1 then
        FilterMembers(targets, Other(code));
        Filter(targets, Other(code))
      else targets
    else targets + [code]
  }

  /** Toggling keeps the watchlist free of repeats. */
  lemma ToggleKeepsDistinct(targets: seq<string>, code: string)
    requires Distinct(targets)
    ensures Distinct(Toggled(targets, code))
  {
    if code in targets && |targets| > 1 {
      FilterDistinct(targets, Other(code));
    }
  }

  /** A watchlist without repeats is never emptied by a toggle. */
  lemma ToggleNeverEmpties(targets: seq<string>, code: string)
    requires Distinct(targets)
    ensures |Toggled(targets, code)| >= 1
  {
    if code in targets && |targets| > 1 {
      var c := if targets[0] != code then targets[0] else targets[1];
      assert c in targets && c != code;
      assert c in Toggled(targets, code);
    }
  }

  /** Toggling an absent code twice restores a non-empty watchlist. */
  lemma ToggleTwice(targets: seq<string>, code: string)
    requires targets != [] && code !in targets
    ensures Toggled(Toggled(targets, code), code) == targets
  {
    FilterAppend(targets, [code], Other(code));
    FilterAll(targets, Other(code));
  }

  /** `getHistory`'s corridor: only a EUR or PKR base asks for history, and
      the target is the other one of the two. */
  function HistoryTarget(base: string): (r: Option<string>)
    ensures r.Some? <==> base == "EUR" || base == "PKR"
    ensures r.Some? ==> r.value != base && (r.value == "EUR" || r.value == "PKR")
  {
    if base == "EUR" then Some("PKR")
    else if base == "PKR" then Some("EUR")
    else None
  }

  /** The value card of `code`: `rates[code] * amount`, or the placeholder
      (None) when the rate is missing or zero. */
  function DisplayValue(rates: map<string, real>, code: string, amount: real): (r: Option<real>)
    ensures r.None? <==> code !in rates || rates[code] == 0.0
    ensures r.Some? ==> r.value == rates[code] * amount
  {
    if code in rates && rates[code] != 0.0 then Some(rates[code] * amount) else None
  }

  /** One point of the rate history, as the service returns it. */
  datatype HistoryPoint = HistoryPoint(date: string, rate: real)

  class CurrencyBoard {
    var baseCurrency: string
    var targetCurrencies: seq<string>
    var amount: real
    var rates: map<string, real>
    var historicalData: seq<HistoryPoint>

    /** The watchlist is never empty and holds no repeats. */
    ghost predicate Valid()
      reads this
    {
      |targetCurrencies| >= 1 && Distinct(targetCurrencies)
    }

    constructor ()
      ensures Valid()
      ensures baseCurrency == "EUR" && targetCurrencies == ["USD", "PKR", "GBP"] && amount == 1.0
      ensures rates == map[] && historicalData == []
    {
      baseCurrency := "EUR";
      targetCurrencies := ["USD", "PKR", "GBP"];
      amount := 1.0;
      rates := map[];
      historicalData := [];
    }

    /** `toggleTarget(code)`. */
    method ToggleTarget(code: string)
      requires Valid()
      modifies this
      ensures Valid()
      ensures targetCurrencies == Toggled(old(targetCurrencies), code)
      ensures baseCurrency == old(baseCurrency) && amount == old(amount)
      ensures rates == old(rates) && historicalData == old(historicalData)
    {
      ToggleKeepsDistinct(targetCurrencies, code);
      ToggleNeverEmpties(targetCurrencies, code);
      targetCurrencies := Toggled(targetCurrencies, code);
    }

    /** `getRates` after the fetch: what came back replaces the rates; a
        failed fetch (None) leaves them as they were. */
    method ReceiveRates(data: Option<map<string, real>>)
      modifies this
      ensures rates == (if data.Some? then data.value else old(rates))
      ensures baseCurrency == old(baseCurrency) && targetCurrencies == old(targetCurrencies)
      ensures amount == old(amount) && historicalData == old(historicalData)
    {
      if data.Some? {
        rates := data.value;
      }
    }

    /** `getHistory` after the fetch: only a non-empty history replaces the
        one shown. */
    method ReceiveHistory(history: Option<seq<HistoryPoint>>)
      modifies this
      ensures historicalData == (if history.Some? && |history.value| > 0 then history.value else old(historicalData))
      ensures baseCurrency == old(baseCurrency) && targetCurrencies == old(targetCurrencies)
      ensures amount == old(amount) && rates == old(rates)
    {
      if history.Some? && |history.value| > 0 {
        historicalData := history.value;
      }
    }
  }
}
