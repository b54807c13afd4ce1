/** How the server reads one incoming message: the dispatch test of
    `handle_client` and the argument handling of `handle_exchange`. */
module Command {
  import opened Wrappers
  import opened Text
  import opened Decimal

  const CommandName: string := "exchange"
  const MinDays: int := 1
  const MaxDays: int := 10

  /** The reply sent, verbatim, for a day count outside [MinDays, MaxDays]. */
  const DaysError: string := "Ошибка: количество дней должно быть от 1 до 10."

  /** What a message leads to before any date is computed. */
  datatype Outcome =
    | Ignore              // not a command: no reply, no log line
    | ParseFailure        // `int()` raised ValueError on the day count
    | Reject(text: string) // day count out of range: this text is sent and logged
    | Fetch(days: int)    // fetch the rates of `days` days

  /** The day count a command asks for: the second word read as an int, or
      1 when there is no second word. `None` when `int()` raises. A message
      with at most one word asks for one day; only a second word can make the
      parse fail; and a count read from a second word comes from a word that
      ends in a digit and holds nothing but digits, underscores and a leading
      sign. */
  function RequestedDays(msg: string): (r: Option<int>)
    ensures IsWord(msg) ==> r == Some(1)
    ensures |Split(msg)| <= 1 ==> r == Some(1)
    ensures r.None? ==> |Split(msg)| > 1
    ensures r.Some? && |Split(msg)| > 1 ==> IsDigit(Split(msg)[1][|Split(msg)[1]| - 1])
    ensures r.Some? && |Split(msg)| > 1 ==> forall i :: 0 <= i < |Split(msg)[1]| ==> IntChar(Split(msg)[1], i)
  {
    var parts := Split(msg);
    assert IsWord(msg) ==> parts == [msg] by {
      if IsWord(msg) { SplitWord(msg); }
    }
    if |parts| > 1 then ParseInt(parts[1]) else Some(1)
  }

  function Interpret(msg: string): (r: Outcome)
    ensures r.Ignore? <==> !StartsWith(msg, CommandName)
    ensures r.ParseFailure? <==> StartsWith(msg, CommandName) && RequestedDays(msg).None?
    ensures r.Reject? ==> r.text == DaysError
    ensures r.Fetch? ==> MinDays <= r.days <= MaxDays && RequestedDays(msg) == Some(r.days)
    ensures StartsWith(msg, CommandName) && RequestedDays(msg).Some? ==>
      var n := RequestedDays(msg).value;
      (r.Reject? <==> n < MinDays || n > MaxDays)
  {
    if !StartsWith(msg, CommandName) then Ignore
    else match RequestedDays(msg)
      case None => ParseFailure
      case Some(days) =>
        if days < MinDays || days > MaxDays then Reject(DaysError) else Fetch(days)
  }

  /** Any message with the `exchange` prefix and no second word
      (`exchange`, `exchange3`, `exchanges`, `exchange\n`) is a command and
      gets the default count of one day. */
  lemma LoneWordFetchesOneDay(msg: string)
    requires StartsWith(msg, CommandName) && |Split(msg)| <= 1
    ensures Interpret(msg) == Fetch(1)
  {
  }

  /** A message starting with whitespace fails the prefix test: no reply. */
  lemma LeadingSpaceIgnored(msg: string)
    requires |msg| > 0 && IsSpace(msg[0])
    ensures Interpret(msg) == Ignore
  {
    assert CommandName[0] == 'e';
  }

  /** `<word> <n>` reads back the day count `n`. */
  lemma {:induction false} RequestedDaysSpelled(word: string, n: int)
    requires IsWord(word)
    requires |NatToDecimal(if n < 0 then -n else n)| <= MaxStrDigits
    ensures RequestedDays(word + " " + IntToString(n)) == Some(n)
  {
    var arg := IntToString(n);
    var msg := word + " " + arg;
    IntToStringIsWord(n);
    assert msg == word + [' '] + arg;
    SplitAtSpace(word, ' ', arg);
    SplitWord(word);
    SplitWord(arg);
    assert Split(msg) == [word, arg];
    ParseIntToString(n);
  }

  /** `<word> <n>`, for any word starting with `exchange` (so `exchanges 3`
      as well as `exchange 3`) and any int `n`, fetches `n` days when
      1 <= n <= 10 and is rejected with the fixed text otherwise. */
  lemma InterpretSpelledCount(word: string, n: int)
    requires IsWord(word) && StartsWith(word, CommandName)
    requires |NatToDecimal(if n < 0 then -n else n)| <= MaxStrDigits
    ensures Interpret(word + " " + IntToString(n)) ==
      if MinDays <= n <= MaxDays then Fetch(n) else Reject(DaysError)
  {
    var msg := word + " " + IntToString(n);
    assert msg[..|CommandName|] == word[..|CommandName|];
    RequestedDaysSpelled(word, n);
  }

  /** Words after the second do not matter: two commands whose second words
      agree are read the same way. */
  lemma ExtraWordsIgnored(a: string, b: string)
    requires StartsWith(a, CommandName) && StartsWith(b, CommandName)
    requires |Split(a)| > 1 && |Split(b)| > 1 && Split(a)[1] == Split(b)[1]
    ensures Interpret(a) == Interpret(b)
  {
  }

  /** A second word that is not an int is a parse failure, never a silent
      default: a count that does not end in a digit, or that holds any
      character other than digits, underscores and a leading sign (`1.5`,
      `1a2`, `2e1`), does not fall back to 1. */
  lemma NonIntegerIsFailure(msg: string)
    requires StartsWith(msg, CommandName) && |Split(msg)| > 1
    requires || !IsDigit(Split(msg)[1][|Split(msg)[1]| - 1])
             || exists i :: 0 <= i < |Split(msg)[1]| && !IntChar(Split(msg)[1], i)
    ensures Interpret(msg) == ParseFailure
  {
  }
}
