/** `WebSocketServer.handle_client` and `handle_exchange`: what one message
    on a connection leads to, and what the server sends and logs for it.
    The network, the clock and the log file are inputs and outputs here:
    `today` is the date `date.today()` returns, and `upstream` is what the
    rate service answers for each formatted date. */
module Exchange {
  import opened Wrappers
  import opened Text
  import opened Calendar
  import opened DateFormat
  import opened Rates
  import opened Command
  import opened Gather

  /** The exceptions that escape `handle_exchange`. */
  datatype Raised =
    | BadDayCount     // ValueError from `int(parts[1])`
    | DateOutOfRange  // OverflowError from `today - timedelta(days=i)`
    | UpstreamFault   // an exception raised by one of the gathered fetches

  datatype Handled<V> =
    | Ignored
    | Crashed(fault: Raised)
    | Rejected(text: string)
    | Answered(days: int, results: seq<DayResult<V>>)

  /** What is written to the client or appended to the log: the rejection
      text verbatim; the day results (serialised by `json.dumps`); or the log
      line `exchange <days>: <serialised results>`. */
  datatype Payload<V> =
    | Message(text: string)
    | Results(results: seq<DayResult<V>>)
    | ExchangeLine(days: int, results: seq<DayResult<V>>)

  /** The dates `today - timedelta(days=i)` for `i` in `range(days)`, or
      `None` when one of them falls before 0001-01-01. */
  function DateWindow(today: Date, days: nat): (r: Option<seq<Date>>)
    requires Valid(today)
    ensures r.Some? <==> days <= ToOrdinal(today)
    ensures r.Some? ==> |r.value| == days
    ensures r.Some? ==> forall i :: 0 <= i < days ==> SubDays(today, i) == Some(r.value[i])
    decreases days
  {
    if days == 0 then Some([])
    else
      SubDaysOrdinal(today, days - 1);
      match DateWindow(today, days - 1)
      case None => None
      case Some(earlier) =>
        match SubDays(today, days - 1)
        case None => None
        case Some(d) => Some(earlier + [d])
  }

  /** The window starts today, holds valid dates only, goes back one day per
      position, and is strictly decreasing. */
  lemma DateWindowShape(today: Date, days: nat)
    requires Valid(today) && 0 < days <= ToOrdinal(today)
    ensures var ws := DateWindow(today, days).value;
      && ws[0] == today
      && (forall i :: 0 <= i < days ==> Valid(ws[i]) && ToOrdinal(ws[i]) == ToOrdinal(today) - i)
      && (forall i, j :: 0 <= i < j < days ==> Before(ws[j], ws[i]))
  {
    var ws := DateWindow(today, days).value;
    forall i | 0 <= i < days
      ensures Valid(ws[i]) && ToOrdinal(ws[i]) == ToOrdinal(today) - i
    {
      SubDaysOrdinal(today, i);
    }
    forall i, j | 0 <= i < j < days
      ensures Before(ws[j], ws[i])
    {
      SubDaysDecreasing(today, i, j);
    }
  }

  /** One gathered task: `fetch_rates(date, ["USD", "EUR"])`. */
  function FetchDay<V>(upstream: string -> Upstream<V>, date: Date): (r: Option<DayResult<V>>)
    requires Valid(date)
    ensures r.None? <==> upstream(Format(date)).Fault?
    ensures r.Some? ==> (r.value.HttpError? <==> upstream(Format(date)).status != 200)
    ensures r.Some? && r.value.DayRates? ==> r.value.date == Format(date)
  {
    FetchRates(upstream(Format(date)), DefaultCurrencies, date)
  }

  function FetchAll<V>(upstream: string -> Upstream<V>, dates: seq<Date>): (outcomes: seq<Option<DayResult<V>>>)
    requires forall i :: 0 <= i < |dates| ==> Valid(dates[i])
    ensures |outcomes| == |dates|
  {
    seq(|dates|, i requires 0 <= i < |dates| => FetchDay(upstream, dates[i]))
  }

  /** The dates whose rates a message makes the server fetch. */
  function RequestedDates(msg: string, today: Date): seq<Date>
    requires Valid(today)
  {
    match Interpret(msg)
    case Fetch(days) => DateWindow(today, days).GetOr([])
    case _ => []
  }

  /** Every fetch of the `days`-day window returns instead of raising. */
  predicate FetchesReturn<V>(upstream: string -> Upstream<V>, today: Date, days: int)
    requires Valid(today)
  {
    forall i :: 0 <= i < days ==>
      SubDays(today, i).Some? && FetchDay(upstream, SubDays(today, i).value).Some?
  }

  /** The fetching half of `handle_exchange` for an accepted count: build
      the date window, gather the fetches, answer with their results. */
  function FetchWindow<V>(today: Date, days: nat, upstream: string -> Upstream<V>): (h: Handled<V>)
    requires Valid(today)
    ensures h.Crashed? || h.Answered?
    ensures h == Crashed(DateOutOfRange) <==> days > ToOrdinal(today)
    ensures h == Crashed(UpstreamFault) <==> days <= ToOrdinal(today) && !FetchesReturn(upstream, today, days)
    ensures h.Answered? <==> days <= ToOrdinal(today) && FetchesReturn(upstream, today, days)
    ensures h.Answered? ==> h.days == days && |h.results| == days
    ensures h.Answered? ==> forall i :: 0 <= i < days ==>
      SubDays(today, i).Some? && FetchDay(upstream, SubDays(today, i).value) == Some(h.results[i])
  {
    match DateWindow(today, days)
    case None => Crashed(DateOutOfRange)
    case Some(dates) =>
      var outcomes := FetchAll(upstream, dates);
      WindowOutcomes(upstream, today, days, dates);
      match GatherAll(outcomes)
      case None => Crashed(UpstreamFault)
      case Some(results) => Answered(days, results)
  }

  /** The gathered outcomes of a window are the fetches of its dates, so all
      of them return exactly when `FetchesReturn` holds. */
  lemma WindowOutcomes<V>(upstream: string -> Upstream<V>, today: Date, days: nat, dates: seq<Date>)
    requires Valid(today) && DateWindow(today, days) == Some(dates)
    ensures forall i :: 0 <= i < days ==> FetchAll(upstream, dates)[i] == FetchDay(upstream, SubDays(today, i).value)
    ensures FetchesReturn(upstream, today, days) <==> forall i :: 0 <= i < days ==> FetchAll(upstream, dates)[i].Some?
  {
  }

  /** `handle_client`'s test followed by `handle_exchange`: which of the five
      outcomes a message has, and what an answer holds. */
  function Handle<V>(msg: string, today: Date, upstream: string -> Upstream<V>): (h: Handled<V>)
    requires Valid(today)
    ensures h.Ignored? <==> !StartsWith(msg, CommandName)
    ensures h == Crashed(BadDayCount) <==> Interpret(msg).ParseFailure?
    ensures h.Rejected? <==> Interpret(msg).Reject?
    ensures h.Rejected? ==> h.text == DaysError && RequestedDates(msg, today) == []
    ensures h == Crashed(DateOutOfRange) <==> Interpret(msg).Fetch? && Interpret(msg).days > ToOrdinal(today)
    ensures h == Crashed(UpstreamFault) <==>
      && Interpret(msg).Fetch?
      && Interpret(msg).days <= ToOrdinal(today)
      && !FetchesReturn(upstream, today, Interpret(msg).days)
    ensures h.Answered? <==>
      && Interpret(msg).Fetch?
      && Interpret(msg).days <= ToOrdinal(today)
      && FetchesReturn(upstream, today, Interpret(msg).days)
    ensures h.Answered? ==> h.days == Interpret(msg).days && MinDays <= h.days <= MaxDays && |h.results| == h.days
    ensures h.Answered? ==> forall i :: 0 <= i < h.days ==>
      SubDays(today, i).Some? && FetchDay(upstream, SubDays(today, i).value) == Some(h.results[i])
  {
    match Interpret(msg)
    case Ignore => Ignored
    case ParseFailure => Crashed(BadDayCount)
    case Reject(text) => Rejected(text)
    case Fetch(days) => FetchWindow(today, days, upstream)
  }

  /** A rejected command never reaches the rate service: its outcome is the
      same whatever the upstream would answer. */
  lemma RejectedFetchesNothing<V>(msg: string, today: Date, up1: string -> Upstream<V>, up2: string -> Upstream<V>)
    requires Valid(today) && Interpret(msg).Reject?
    ensures Handle(msg, today, up1) == Handle(msg, today, up2) == Rejected(DaysError)
    ensures RequestedDates(msg, today) == []
  {
  }

  /** An answered command of `days` days fetched the `days` dates of the
      window, today first; each result object has the one key `error` or the
      one key that is its own date's text. */
  lemma AnsweredShape<V>(msg: string, today: Date, upstream: string -> Upstream<V>)
    requires Valid(today)
    ensures var h := Handle(msg, today, upstream);
      h.Answered? ==>
      && Interpret(msg) == Fetch(h.days)
      && RequestedDates(msg, today) == DateWindow(today, h.days).value
      && |RequestedDates(msg, today)| == h.days
      && RequestedDates(msg, today)[0] == today
      && (forall i :: 0 <= i < h.days ==>
            ObjectKeys(h.results[i]) ==
              if h.results[i].HttpError? then ["error"] else [Format(RequestedDates(msg, today)[i])])
  {
    var h := Handle(msg, today, upstream);
    if h.Answered? {
      DateWindowShape(today, h.days);
    }
  }

  /** The outcomes of a connection's messages up to and including the first
      crash: an exception ends `handle_client`, so later messages get nothing. */
  function UpToFirstCrash<V>(hs: seq<Handled<V>>): (r: seq<Handled<V>>)
    ensures |r| <= |hs| && r == hs[..|r|]
    ensures forall i :: 0 <= i < |r| - 1 ==> !r[i].Crashed?
    ensures |r| < |hs| ==> |r| > 0 && r[|r| - 1].Crashed?
    decreases |hs|
  {
    if hs == [] then []
    else if hs[0].Crashed? then [hs[0]]
    else
      var rest := UpToFirstCrash(hs[1..]);
      assert hs[..|rest| + 1] == [hs[0]] + hs[1..][..|rest|];
      [hs[0]] + rest
  }

  /** `handle_client` on a sequence of messages: they are handled in order,
      each as `Handle` does, until one raises. Message `i` sees the date
      `todays[i]` and the rate service as `upstreams[i]` answers at that
      moment, since every message asks the clock and the service afresh. */
  function ServeConnection<V>(msgs: seq<string>, todays: seq<Date>, upstreams: seq<string -> Upstream<V>>): (hs: seq<Handled<V>>)
    requires |todays| == |msgs| && |upstreams| == |msgs|
    requires forall i :: 0 <= i < |todays| ==> Valid(todays[i])
    ensures |hs| <= |msgs|
    ensures forall i :: 0 <= i < |hs| ==> hs[i] == Handle(msgs[i], todays[i], upstreams[i])
    ensures forall i :: 0 <= i < |hs| - 1 ==> !hs[i].Crashed?
    ensures |hs| < |msgs| ==> |hs| > 0 && hs[|hs| - 1].Crashed?
  {
    UpToFirstCrash(seq(|msgs|, i requires 0 <= i < |msgs| => Handle(msgs[i], todays[i], upstreams[i])))
  }

  /** What `websocket.send` receives for a handled message. */
  function Sent<V>(h: Handled<V>): (out: seq<Payload<V>>)
    ensures |out| <= 1
    ensures |out| == 1 <==> h.Rejected? || h.Answered?
  {
    match h
    case Rejected(text) => [Message(text)]
    case Answered(_, results) => [Results(results)]
    case _ => []
  }

  /** What `Logger.log` appends for a handled message (before the timestamp
      and the newline are added). */
  function Logged<V>(h: Handled<V>): (out: seq<Payload<V>>)
    ensures |out| <= 1
    ensures |out| == 1 <==> h.Rejected? || h.Answered?
  {
    match h
    case Rejected(text) => [Message(text)]
    case Answered(days, results) => [ExchangeLine(days, results)]
    case _ => []
  }

  /** Exactly one reply and one log entry for a handled command: the same
      text for a rejection, and for an answer a log line carrying the day
      count and the very results sent; none for an ignored or crashed
      message. */
  lemma ReplyMatchesLog<V>(msg: string, today: Date, upstream: string -> Upstream<V>)
    requires Valid(today)
    ensures var h := Handle(msg, today, upstream);
      && |Sent(h)| == |Logged(h)|
      && (h.Rejected? ==> Sent(h) == Logged(h))
      && (h.Answered? ==> Sent(h) == [Results(h.results)] && Logged(h) == [ExchangeLine(h.days, h.results)])
      && (|Sent(h)| == 1 <==> StartsWith(msg, CommandName) && (Interpret(msg).Reject? || h.Answered?))
      && (Interpret(msg).Reject? ==> Sent(h) == [Message(DaysError)])
  {
  }

  /** The same message handled with the fetches finishing in `order`: the
      outcome is the one of `Handle`, whose results are in date order. */
  method HandleConcurrently<V>(msg: string, today: Date, upstream: string -> Upstream<V>, order: seq<nat>) returns (h: Handled<V>)
    requires Valid(today)
    requires Interpret(msg).Fetch? ==> IsCompletionOrder(order, Interpret(msg).days)
    ensures h == Handle(msg, today, upstream)
  {
    match Interpret(msg)
    case Ignore => h := Ignored;
    case ParseFailure => h := Crashed(BadDayCount);
    case Reject(text) => h := Rejected(text);
    case Fetch(days) =>
      var window := DateWindow(today, days);
      if window.None? {
        h := Crashed(DateOutOfRange);
      } else {
        var dates := window.value;
        var gathered := GatherInCompletionOrder(FetchAll(upstream, dates), order);
        if gathered.None? {
          h := Crashed(UpstreamFault);
        } else {
          h := Answered(days, gathered.value);
        }
      }
  }
}
