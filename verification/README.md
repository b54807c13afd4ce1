# Currency-rate command server, modelled in Dafny

A Dafny model of the request-processing core of a small WebSocket server
(`exchange.py`). A client sends `exchange [<days>]`. The server checks the day
count against 1..10. It then asks the PrivatBank rate service for the USD and
EUR rates of today and the `days - 1` days before, and replies with the
per-day results as a list, in date order.

The model keeps the pure logic and turns the I/O into inputs and outputs:

- `today` is a parameter, in place of `date.today()`.
- The rate service is a parameter `upstream: string -> Upstream<V>`. It gives the
  status and the decoded `exchangeRate` array for each formatted date, or a
  fault.
- The concurrent fetch is an order-preserving gather, modelled for every
  completion order.
- What the server sends and logs is a value (`Sent`, `Logged`).

Modules, one per concern:

| file | module | models |
|---|---|---|
| wrappers.dfy | `Wrappers` | `Option`, standing for Python's `None` and for raised exceptions |
| text.dfy | `Text` | `str.startswith` and `str.split()` with Python's whitespace set |
| decimal.dfy | `Decimal` | `str(int)` and `int(str)` in base 10: sign, underscores, the 4300-digit limit |
| calendar.dfy | `Calendar` | `datetime.date`: proleptic Gregorian validity, leap years, `toordinal`, `date - timedelta(days=n)` |
| dateformat.dfy | `DateFormat` | `strftime("%d.%m.%Y")` and its inverse |
| ordered_dict.dfy | `OrderedDict` | Python's insertion-ordered `dict` assignment |
| rates.dfy | `Rates` | `ExchangeRateFetcher.fetch_rates` |
| command.dfy | `Command` | the dispatch test and the day-count parse and range check |
| gather.dfy | `Gather` | `asyncio.gather`: results in argument order, whatever the completion order |
| exchange.dfy | `Exchange` | `handle_client` / `handle_exchange`: date window, fan-out, reply and log |

Behaviour of the code that the model keeps:

- Dispatch is `message.startswith("exchange")`, a prefix test. It is not a
  test on the first word. So `exchanges 3` and `exchange3` are commands, and
  ` exchange 3` (with a leading space) is ignored.
- A day count that is not an int makes `int()` raise ValueError. Nothing
  catches it. The exception leaves `handle_client`'s loop, so the connection
  handler ends and later messages on that connection get no answer
  (`Crashed(BadDayCount)`, `ServeConnection`). The rejection text is not sent
  in this case.
- `today - timedelta(days=i)` raises OverflowError before 0001-01-01. This is
  modelled as `Crashed(DateOutOfRange)`.
- A record for the same currency seen twice keeps the LAST record's values.
  The key stays at the position where it was first inserted, as in Python's
  dict comprehension.

## Model

| member | source | states |
|---|---|---|
| Text.StartsWith | exchange.py:52 | `message.startswith("exchange")`: the message is at least as long as the prefix and agrees with it character by character |
| Text.Split | exchange.py:57 | `message.split()` yields only non-empty words free of Python whitespace; a message starting with a non-space character has a first word starting with that character |
| Text.SplitWord | exchange.py:57 | a single word splits to itself |
| Text.SplitAtSpace | exchange.py:57 | a whitespace character separates: splitting `a + c + b` gives the words of `a` followed by the words of `b` |
| Text.SplitJoinWords | exchange.py:57 | splitting words joined by single spaces gives the words back |
| Decimal.NatToDecimal | exchange.py:22 | `str(n)` is digits only, has no leading zero, and reads back as `n` |
| Decimal.FourDigits | exchange.py:16 | a year up to 9999 is at most four characters, and exactly four from 1000 on |
| Decimal.ParseInt | exchange.py:58 | `int(token)` succeeds only on a token ending in a digit and made of nothing but digits, underscores and a leading sign, so `1.5`, `1a2` and `2e1` raise; a negative result needs a leading minus; a plain digit string within the digit limit reads as its value |
| Decimal.ParseIntToString | exchange.py:58 | `int(str(i)) == i` for every int within the digit limit |
| Decimal.IntToStringIsWord | exchange.py:22 | `str(i)` is a single non-empty word without whitespace |
| Calendar.DaysInMonth | exchange.py:68 | a month has 28 to 31 days; February is the only month shorter than 30 days, and it has 29 exactly in a leap year |
| Calendar.ToOrdinal | exchange.py:68 | `date.toordinal()`: a date's day number lies within its year's span, after all days of the earlier years and within the year's length |
| Calendar.Pred | exchange.py:68 | the day before a valid date is valid and strictly earlier, rolling back over month and year ends; it is missing only for 0001-01-01 |
| Calendar.SubDays | exchange.py:68 | `d - timedelta(days=n)`, when it exists, is a valid date |
| Calendar.DaysBeforeNextYear | exchange.py:68 | the closed-form day count before a year grows by 366 across a leap year and by 365 otherwise |
| Calendar.PredOrdinal | exchange.py:68 | stepping back a day lowers `toordinal()` by exactly one |
| Calendar.SubDaysOrdinal | exchange.py:68 | subtracting `n` days succeeds exactly when `n` is below the ordinal, and the result's ordinal is `n` lower |
| Calendar.SubDaysDecreasing | exchange.py:67-69 | going further back gives a strictly earlier date |
| Calendar.OrdinalMonotone | exchange.py:68 | chronological order implies ordinal order |
| Calendar.OrdinalInjective | exchange.py:68 | different valid dates have different ordinals, so the subtraction lands on the one date `fromordinal` denotes |
| DateFormat.Format | exchange.py:16 | `%d.%m.%Y` text is two digits, a dot, two digits, a dot and the year digits, 7 to 10 characters, exactly 10 for years 1000-9999 |
| DateFormat.Parse | exchange.py:16 | reading date text back yields only valid dates |
| DateFormat.ParseFormat | exchange.py:16 | parsing the formatted text gives the date back |
| DateFormat.FormatInjective | exchange.py:16 | different dates format to different text |
| OrderedDict.Put | exchange.py:25-27 | dict assignment keeps a present key in place and appends a new one, keeps keys distinct, stores the new value and leaves every other key's value alone |
| OrderedDict.Get | exchange.py:25-27 | a key has a value exactly when present, and it is the value stored with it |
| Rates.KeptCurrencies | exchange.py:26-27 | a currency passes the filter exactly when it is requested and named by some record |
| Rates.CollectRates | exchange.py:25-27 | the rate mapping has distinct keys, in first-occurrence order of the kept currencies |
| Rates.CollectRatesLast | exchange.py:25-27 | a requested currency is present exactly when some record names it, and its entry is the last such record's |
| Rates.FetchRates | exchange.py:14-28 | a fault raises; a non-200 status gives the error object; status 200 gives a one-key object keyed by the formatted date, with no rates when `exchangeRate` is absent |
| Rates.HttpErrorNamesStatus | exchange.py:21-22 | a non-200 answer is exactly `{"error": "HTTP Error <status>"}`: the prefix followed by `str(status)`, which reads back as the status |
| Rates.DayRatesKeyedByDate | exchange.py:16-28 | a 200 answer has the single key of the requested day's text, which reads back as that day |
| Rates.RatesFiltered | exchange.py:25-27 | on 200 every key is a requested currency named by some record, and every such currency is present; its sale and purchase are the last such record's `saleRate` and `purchaseRate`, absent staying absent |
| Command.RequestedDays | exchange.py:57-58 | a message with at most one word (`exchange`, `exchange\n`) asks for one day; only a second word can make the parse fail; a count read from a second word comes from a word that ends in a digit and holds only digits, underscores and a leading sign |
| Command.Interpret | exchange.py:52-65 | a message is ignored exactly when it lacks the `exchange` prefix; a parse failure happens exactly when `int()` fails; a rejection carries the fixed text and happens exactly for counts outside 1..10; a fetch has a count in 1..10 |
| Command.LoneWordFetchesOneDay | exchange.py:52-58 | any message with the `exchange` prefix and no second word (`exchange`, `exchange3`, `exchange `, `exchange\n`) is a command for the default one day |
| Command.LeadingSpaceIgnored | exchange.py:52 | any message starting with whitespace is ignored |
| Command.RequestedDaysSpelled | exchange.py:57-58 | `<word> <n>` reads back the count `n` |
| Command.InterpretSpelledCount | exchange.py:52-65 | `<word> <n>`, for any word with the `exchange` prefix, fetches `n` days for 1 <= n <= 10 and is rejected with the fixed text otherwise |
| Command.ExtraWordsIgnored | exchange.py:57-58 | commands whose second words agree are read alike, whatever follows |
| Command.NonIntegerIsFailure | exchange.py:58 | a second word that does not end in a digit, or that holds any character other than digits, underscores and a leading sign (`1.5`, `1a2`, `2e1`), is a parse failure, never the default |
| Gather.GatherAll | exchange.py:70 | gather succeeds exactly when every task does, and then result `i` is task `i`'s result |
| Gather.GatherInCompletionOrder | exchange.py:68-70 | collecting the tasks in any completion order gives the same outcome as reading them in argument order |
| Exchange.FetchDay | exchange.py:59-68 | the task `fetch_rates(day, ["USD", "EUR"])` raises exactly when the upstream faults, gives the error object exactly for a non-200 status, and otherwise is keyed by the day's own text |
| Exchange.DateWindow | exchange.py:67-69 | the window of `days` dates exists exactly when `days` does not exceed today's ordinal, and position `i` holds today minus `i` days |
| Exchange.DateWindowShape | exchange.py:67-69 | the window starts today, position `i` has ordinal `i` below today's, and the dates strictly decrease |
| Exchange.FetchWindow | exchange.py:67-70 | for an accepted count: an OverflowError exactly when the window reaches before 0001-01-01, an upstream exception exactly when some day's fetch raises, and otherwise an answer with `days` results, result `i` being the fetch for today minus `i` days |
| Exchange.Handle | exchange.py:49-74 | each outcome happens exactly when it should: ignored without the prefix; ValueError exactly on a parse failure; rejected with the fixed text, fetching no date, exactly for counts outside 1..10; OverflowError exactly when the window is out of range; an upstream exception exactly when a fetch raises; otherwise answered with the requested count of results in date order |
| Exchange.RejectedFetchesNothing | exchange.py:61-65 | a rejected command's outcome does not depend on the rate service, and no date is requested |
| Exchange.AnsweredShape | exchange.py:67-70 | an answer requested exactly the `days` dates of the window, today first, and each result object has the single key `error` or its own date's text |
| Exchange.UpToFirstCrash | exchange.py:51-53 | the handled outcomes are a prefix of the message outcomes, none but the last crashed, and the prefix is cut short only by a crash |
| Exchange.ServeConnection | exchange.py:49-53 | messages are handled in order, each as `Handle` does with that message's date and upstream answers, and handling stops right after the first message that raises |
| Exchange.Sent | exchange.py:61-74 | one reply is sent exactly for a rejection or an answer |
| Exchange.Logged | exchange.py:61-74 | one log entry is written exactly for a rejection or an answer |
| Exchange.ReplyMatchesLog | exchange.py:61-74 | a rejection sends and logs the same text; an answer logs `exchange <days>` with the very results it sends |
| Exchange.HandleConcurrently | exchange.py:67-74 | handling with the fetches finishing in any order gives the outcome of `Handle` |

## Left out

- The WebSocket server, `websocket.send`, `main()`, the host and the port (exchange.py:77-86). These are network plumbing. What would be sent is the value `Sent`.
- The `aiohttp` session, the URL and `response.json()` (exchange.py:17-20, 24). The upstream answer for a date's text is an input. A transport error, a body that is not JSON, or a decoded body of the wrong shape all raise in the source, and the model represents every such exception as `Upstream.Fault`. The wrong shapes that raise are: a body that is not an object; an `exchangeRate` that is null, a number, a non-empty string or a non-empty object; and a record that is not an object. An `exchangeRate` that is an empty string or an empty object is looped over zero times without raising. It gives `{date: {}}`, which is the model's `Response(200, Some([]))`.
- `asyncio` scheduling (exchange.py:70). Only gather's order-preserving result is modelled, for every completion order. Tasks that keep running after another task raised are not modelled.
- The `Logger` class, `AIOFile` and the timestamp from `datetime.datetime.now()` (exchange.py:31-40). These are file I/O and a wall clock. What would be logged is the value `Logged`.
- `json.dumps(..., ensure_ascii=False, indent=2)` (exchange.py:72). This is library serialisation. The model stops at the structured results.
- `date.today()` (exchange.py:67) is the parameter `today`. `ServeConnection` takes one date and one set of upstream answers per message.
- Rate values are floats from the upstream service. They are an opaque type parameter `V`.
- Binary WebSocket frames arrive as `bytes`, and `bytes.startswith("exchange")` raises TypeError. Messages are modelled as text only.
- Decimal.ParseInt: accepts ASCII digits only. Python's `int()` also accepts other Unicode decimal digits, such as Arabic-Indic ones. The model reads those as a parse failure. The 4300-digit limit is the default of Python 3.11 and later, and it can be configured.
- DateFormat.Format: for years below 1000 the year is written unpadded, as the C library's `%Y` does on Linux. Some Python versions pad it to four digits. The length-10 property is stated only for years 1000-9999.
