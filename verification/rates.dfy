/** `ExchangeRateFetcher.fetch_rates`: one upstream lookup for one date,
    shaped into that day's result. The HTTP exchange itself is an input: the
    upstream's answer for the date, already decoded from JSON. */
module Rates {
  import opened Wrappers
  import opened Text
  import opened Decimal
  import opened Calendar
  import opened DateFormat
  import opened OrderedDict

  /** One element of the upstream `exchangeRate` array. Every field may be
      absent (or null); the rate values are opaque to the model. */
  datatype Record<V> = Record(currency: Option<string>, saleRate: Option<V>, purchaseRate: Option<V>)

  /** `{"sale": ..., "purchase": ...}`, with `None` for null. */
  datatype RateEntry<V> = RateEntry(sale: Option<V>, purchase: Option<V>)

  /** What the upstream gives for one query: a status and, on success, the
      decoded `exchangeRate` field (`None` when the body has no such key);
      or a fault raised by the HTTP client or the JSON decoding. */
  datatype Upstream<V> = Fault | Response(status: int, exchangeRate: Option<seq<Record<V>>>)

  /** The JSON object of one day: `{"error": "HTTP Error <status>"}`, or
      `{"<dd.mm.yyyy>": {<currency>: <entry>, ...}}`. */
  datatype DayResult<V> = HttpError(error: string) | DayRates(date: string, rates: Dict<string, RateEntry<V>>)

  /** The currencies the server asks for. */
  const DefaultCurrencies: seq<string> := ["USD", "EUR"]

  const ErrorPrefix: string := "HTTP Error "

  /** The top-level keys of a day's JSON object, in order. */
  function ObjectKeys<V>(r: DayResult<V>): seq<string> {
    match r
    case HttpError(_) => ["error"]
    case DayRates(date, _) => [date]
  }

  function Entry<V>(r: Record<V>): RateEntry<V> {
    RateEntry(r.saleRate, r.purchaseRate)
  }

  /** The comprehension's filter: `rate.get("currency") in currencies`. */
  predicate Kept<V>(r: Record<V>, currencies: seq<string>) {
    r.currency.Some? && r.currency.value in currencies
  }

  /** Record `i` is the last one naming currency `c`. */
  predicate LastWith<V>(records: seq<Record<V>>, c: string, i: int) {
    && 0 <= i < |records|
    && records[i].currency == Some(c)
    && forall j :: i < j < |records| ==> records[j].currency != Some(c)
  }

  /** The currencies of the kept records, in record order, repeats included. */
  function KeptCurrencies<V>(records: seq<Record<V>>, currencies: seq<string>): (cs: seq<string>)
    ensures forall c :: c in cs <==> c in currencies && exists i :: 0 <= i < |records| && records[i].currency == Some(c)
    decreases |records|
  {
    if records == [] then []
    else
      var last := records[|records| - 1];
      var prefix := KeptCurrencies(records[..|records| - 1], currencies);
      if Kept(last, currencies) then prefix + [last.currency.value] else prefix
  }

  /** `s` with every repeat of an earlier element dropped. */
  function Dedup(s: seq<string>): (u: seq<string>)
    ensures forall x :: x in u <==> x in s
    ensures forall i, j :: 0 <= i < j < |u| ==> u[i] != u[j]
    decreases |s|
  {
    if s == [] then []
    else
      var p := Dedup(s[..|s| - 1]);
      if s[|s| - 1] in p then p else p + [s[|s| - 1]]
  }

  /** The dict comprehension of `fetch_rates`, evaluated record by record: a
      kept record assigns its currency's entry, so a later record for the same
      currency replaces the value while the key keeps its first position. */
  function CollectRates<V>(records: seq<Record<V>>, currencies: seq<string>): (d: Dict<string, RateEntry<V>>)
    ensures DistinctKeys(d)
    ensures Keys(d) == Dedup(KeptCurrencies(records, currencies))
    decreases |records|
  {
    if records == [] then []
    else
      var last := records[|records| - 1];
      var d := CollectRates(records[..|records| - 1], currencies);
      if Kept(last, currencies) then Put(d, last.currency.value, Entry(last)) else d
  }

  /** The position of the last record naming `c`, or -1 when none does. */
  function LastIndex<V>(records: seq<Record<V>>, c: string): (i: int)
    ensures -1 <= i < |records|
    ensures i >= 0 ==> LastWith(records, c, i)
    ensures i < 0 ==> forall j :: 0 <= j < |records| ==> records[j].currency != Some(c)
    decreases |records|
  {
    if records == [] then -1
    else if records[|records| - 1].currency == Some(c) then |records| - 1
    else LastIndex(records[..|records| - 1], c)
  }

  /** A requested currency is among the collected rates exactly when some
      record names it, and then it carries the entry of the last such record. */
  lemma {:induction false} CollectRatesLast<V>(records: seq<Record<V>>, currencies: seq<string>, c: string)
    requires c in currencies
    ensures var d := CollectRates(records, currencies);
      && (c in Keys(d) <==> LastIndex(records, c) >= 0)
      && (c in Keys(d) ==> Get(d, c) == Some(Entry(records[LastIndex(records, c)])))
    decreases |records|
  {
    if records != [] {
      var n := |records| - 1;
      var last := records[n];
      CollectRatesLast(records[..n], currencies, c);
    }
  }

  /** `fetch_rates(date, currencies)` given the upstream's answer for the
      formatted date. `None` stands for the exception a fault raises. */
  function FetchRates<V>(reply: Upstream<V>, currencies: seq<string>, date: Date): (r: Option<DayResult<V>>)
    requires Valid(date)
    ensures r.None? <==> reply.Fault?
    ensures r.Some? ==> (r.value.HttpError? <==> reply.status != 200)
    ensures r.Some? ==> |ObjectKeys(r.value)| == 1
    ensures r.Some? && r.value.DayRates? ==> r.value.date == Format(date)
    ensures r.Some? && r.value.DayRates? && reply.exchangeRate.None? ==> r.value.rates == []
  {
    match reply
    case Fault => None
    case Response(status, exchangeRate) =>
      if status != 200 then Some(HttpError(ErrorPrefix + IntToString(status)))
      else Some(DayRates(Format(date), CollectRates(exchangeRate.GetOr([]), currencies)))
  }

  /** A non-200 answer is the one-key error object whose message is the
      prefix followed by `str(status)`; reading the number back after the
      prefix gives the status. */
  lemma HttpErrorNamesStatus<V>(status: int, exchangeRate: Option<seq<Record<V>>>, currencies: seq<string>, date: Date)
    requires Valid(date) && status != 200
    requires |NatToDecimal(if status < 0 then -status else status)| <= MaxStrDigits
    ensures var r := FetchRates(Response(status, exchangeRate), currencies, date).value;
      && r.HttpError?
      && ObjectKeys(r) == ["error"]
      && StartsWith(r.error, ErrorPrefix)
      && r.error[|ErrorPrefix|..] == IntToString(status)
      && ParseInt(r.error[|ErrorPrefix|..]) == Some(status)
  {
  }

  /** A 200 answer is keyed by the requested day's text alone, and that text
      reads back as the day. */
  lemma DayRatesKeyedByDate<V>(exchangeRate: Option<seq<Record<V>>>, currencies: seq<string>, date: Date)
    requires Valid(date)
    ensures var r := FetchRates(Response(200, exchangeRate), currencies, date).value;
      && r.DayRates?
      && ObjectKeys(r) == [Format(date)]
      && Parse(r.date) == Some(date)
  {
    ParseFormat(date);
  }

  /** On a 200 answer every currency key is a requested currency named by
      some upstream record, each requested currency that a record names is
      present, and its entry copies the last such record's fields, absent
      ones staying absent. */
  lemma RatesFiltered<V>(records: seq<Record<V>>, currencies: seq<string>, date: Date)
    requires Valid(date)
    ensures var r := FetchRates(Response(200, Some(records)), currencies, date).value;
      && DistinctKeys(r.rates)
      && (forall c :: c in Keys(r.rates) <==>
            c in currencies && exists i :: 0 <= i < |records| && records[i].currency == Some(c))
      && (forall c :: c in Keys(r.rates) ==>
            exists i :: LastWith(records, c, i)
              && Get(r.rates, c) == Some(RateEntry(records[i].saleRate, records[i].purchaseRate)))
  {
    var r := FetchRates(Response(200, Some(records)), currencies, date).value;
    forall c | c in Keys(r.rates)
      ensures exists i ::
        LastWith(records, c, i) && Get(r.rates, c) == Some(RateEntry(records[i].saleRate, records[i].purchaseRate))
    {
      CollectRatesLast(records, currencies, c);
      var i := LastIndex(records, c);
      assert LastWith(records, c, i);
    }
  }
}
