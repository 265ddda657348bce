/** The Telegram webhook of `api/telegram.js`: the UTC day and month windows,
    the income/expense tallies behind `/day`, `/month` and `/hist`, and the
    decision the handler takes for each incoming update. The transaction store
    is a map from document key to document; the query reads the collection's
    documents as a sequence. Here every type but `"income"` counts as expense. */
module Telegram {
  import opened Options
  import opened Calendar
  import opened Records
  import opened Text

  // ------------------------------------------------------------- UTC dates

  /** The UTC calendar fields of the current instant: `getUTCFullYear`,
      `getUTCMonth` and `getUTCDate`. */
  datatype UtcDate = UtcDate(year: int, month: Month0, day: int)

  predicate ValidUtcDate(now: UtcDate) {
    1 <= now.day <= DaysInMonth(now.year, now.month)
  }

  /** `Date.UTC(year, month, date)`: midnight UTC of that day, in milliseconds. */
  function DateUTC(year: int, month: int, date: int): (ms: int)
    ensures ms % MS_PER_DAY == 0
  {
    MakeDay(year, month, date) * MS_PER_DAY
  }

  /** `Date.UTC(getUTCFullYear(), getUTCMonth(), getUTCDate())`: the first
      instant of today's UTC day. */
  function StartOfTodayUTC(now: UtcDate): (ms: int)
    ensures ms % MS_PER_DAY == 0 && ms / MS_PER_DAY == MakeDay(now.year, now.month, now.day)
  {
    DateUTC(now.year, now.month, now.day)
  }

  /** Today's start moved one day on with `setUTCDate(getUTCDate() + 1)`. */
  function StartOfTomorrowUTC(now: UtcDate): (ms: int)
    ensures ms == StartOfTodayUTC(now) + MS_PER_DAY
  {
    DateUTC(now.year, now.month, now.day + 1)
  }

  /** `Date.UTC(getUTCFullYear(), getUTCMonth(), 1)`. */
  function StartOfMonthUTC(now: UtcDate): int
  {
    DateUTC(now.year, now.month, 1)
  }

  /** `Date.UTC(year, month + 1, 1)`: for December, January 1 of the next year. */
  function StartOfNextMonthUTC(now: UtcDate): int
  {
    DateUTC(now.year, now.month + 1, 1)
  }

  /** The month's window starts on the first of the month and ends on the
      first of the next month, December rolling over into the next year. */
  lemma NextMonthStart(now: UtcDate)
    ensures StartOfMonthUTC(now) == FirstDay(YearMonth(now.year, now.month)) * MS_PER_DAY
    ensures StartOfNextMonthUTC(now) == FirstDay(NextMonth(YearMonth(now.year, now.month))) * MS_PER_DAY
    ensures now.month == 11 ==> StartOfNextMonthUTC(now) == DateUTC(now.year + 1, 0, 1)
    ensures StartOfNextMonthUTC(now) - StartOfMonthUTC(now) == DaysInMonth(now.year, now.month) * MS_PER_DAY
  {
    MakeDayInMonth(now.year, now.month, 1);
    NormalizeStep(now.year, now.month);
    MonthLength(YearMonth(now.year, now.month));
  }

  /** Whole days scaled to milliseconds keep their order. */
  lemma DaysToMs(a: int, b: int)
    ensures a <= b <==> a * MS_PER_DAY <= b * MS_PER_DAY
  {
  }

  /** An instant lies between the starts of days `lo` and `hi` exactly when its day does. */
  lemma MsWindowIsDayWindow(t: int, lo: int, hi: int)
    ensures lo * MS_PER_DAY <= t < hi * MS_PER_DAY <==> lo <= t / MS_PER_DAY < hi
  {
  }

  /** For a real calendar date, today's window lies inside this month's window,
      and the last day of a month is followed by the first of the next. */
  lemma DayWindowInMonthWindow(now: UtcDate)
    requires ValidUtcDate(now)
    ensures StartOfMonthUTC(now) <= StartOfTodayUTC(now)
    ensures StartOfTomorrowUTC(now) <= StartOfNextMonthUTC(now)
    ensures now.day == DaysInMonth(now.year, now.month) ==> StartOfTomorrowUTC(now) == StartOfNextMonthUTC(now)
  {
    NextMonthStart(now);
    MakeDayInMonth(now.year, now.month, now.day);
    MakeDayInMonth(now.year, now.month, now.day + 1);
    var f := FirstDay(YearMonth(now.year, now.month));
    var n := DaysInMonth(now.year, now.month);
    DaysToMs(f, f + now.day - 1);
    DaysToMs(f + now.day, f + n);
  }

  /** `start <= t && t < end`, the query's `>=` and `<` bounds on `createdAt`. */
  predicate InWindow(t: int, start: int, end: int) { start <= t < end }

  /** An instant is in today's window exactly when it falls on today's UTC day. */
  lemma DayWindowIsUtcDay(now: UtcDate, t: int)
    ensures InWindow(t, StartOfTodayUTC(now), StartOfTomorrowUTC(now))
        <==> t / MS_PER_DAY == MakeDay(now.year, now.month, now.day)
  {
    var d := MakeDay(now.year, now.month, now.day);
    assert StartOfTodayUTC(now) == d * MS_PER_DAY;
    assert StartOfTomorrowUTC(now) == (d + 1) * MS_PER_DAY;
    MsWindowIsDayWindow(t, d, d + 1);
  }

  /** An instant is in this month's window exactly when its UTC day is one of the month's days. */
  lemma MonthWindowIsUtcMonth(now: UtcDate, t: int)
    ensures InWindow(t, StartOfMonthUTC(now), StartOfNextMonthUTC(now))
        <==> FirstDay(YearMonth(now.year, now.month)) <= t / MS_PER_DAY
               < FirstDay(YearMonth(now.year, now.month)) + DaysInMonth(now.year, now.month)
  {
    NextMonthStart(now);
    var f := FirstDay(YearMonth(now.year, now.month));
    var n := DaysInMonth(now.year, now.month);
    assert StartOfNextMonthUTC(now) == (f + n) * MS_PER_DAY;
    MsWindowIsDayWindow(t, f, f + n);
  }

  // ------------------------------------------------------------------ store

  /** What the shorthand parser returns for a message it accepts. */
  datatype Draft = Draft(kind: string, amount: int, category: string, description: string)

  /** A stored transaction document. */
  datatype Doc = Doc(userId: int, username: Option<string>, kind: string, amount: int,
                     category: string, description: string, createdAt: int)

  /** The query's `where` clauses: the user's id, and `createdAt` within the
      bounds that are given. */
  predicate Selected(d: Doc, userId: int, start: Option<int>, end: Option<int>)
  {
    d.userId == userId && (start.Some? ==> start.value <= d.createdAt) && (end.Some? ==> d.createdAt < end.value)
  }

  /** `getUserTransactions`: the user's documents, bounded below by `start`
      and above by `end` when they are given, in the order the store lists them. */
  function UserTransactions(docs: seq<Doc>, userId: int, start: Option<int>, end: Option<int>): (r: seq<Doc>)
    ensures |r| <= |docs|
    ensures forall d :: d in r <==>
              d in docs && d.userId == userId &&
              (start.Some? ==> start.value <= d.createdAt) && (end.Some? ==> d.createdAt < end.value)
    ensures forall d :: multiset(r)[d] == if Selected(d, userId, start, end) then multiset(docs)[d] else 0
  {
    if docs == [] then []
    else
      var p, d := UserTransactions(docs[..|docs| - 1], userId, start, end), docs[|docs| - 1];
      assert docs == docs[..|docs| - 1] + [d];
      if Selected(d, userId, start, end) then p + [d] else p
  }

  // ----------------------------------------------------------------- tallies

  function DocIncome(d: Doc): int { if d.kind == INCOME then d.amount else 0 }
  function DocExpense(d: Doc): int { if d.kind != INCOME then d.amount else 0 }
  function DocAmount(d: Doc): int { d.amount }

  datatype Period = Today | ThisMonth | AllTime

  datatype Reply =
    | NoTransactions(period: Period)
    | PeriodTotals(period: Period, income: int, expense: int, net: int)
    | DashboardLink(id: int, username: string)
    | UnknownCommand
    | FormatInvalid
    | Saved(category: string, amount: int)

  /** The reply of `handleDay`, `handleMonth` and `handleHist` for the documents
      their query returned. */
  function PeriodReply(period: Period, txs: seq<Doc>): Reply
  {
    if txs == [] then NoTransactions(period)
    else
      var income, expense := Sum(txs, DocIncome), Sum(txs, DocExpense);
      PeriodTotals(period, income, expense, income - expense)
  }

  /** The tally loop shared by the three period commands. */
  method HandlePeriod(period: Period, txs: seq<Doc>) returns (reply: Reply)
    ensures reply == PeriodReply(period, txs)
  {
    if |txs| == 0 {
      return NoTransactions(period);
    }
    var income := 0;
    var expense := 0;
    for i := 0 to |txs|
      invariant income == Sum(txs[..i], DocIncome)
      invariant expense == Sum(txs[..i], DocExpense)
    {
      var t := txs[i];
      SumStep(txs, i, DocIncome);
      SumStep(txs, i, DocExpense);
      if t.kind == INCOME {
        income := income + t.amount;
      } else {
        expense := expense + t.amount;
      }
    }
    assert txs[..|txs|] == txs;
    reply := PeriodTotals(period, income, expense, income - expense);
  }

  /** Every amount is counted once, as income or as expense, and the net is
      their difference; an empty result is reported as such, not as zeros. */
  lemma PeriodReplyConservation(period: Period, txs: seq<Doc>)
    ensures txs == [] <==> PeriodReply(period, txs).NoTransactions?
    ensures txs != [] ==> PeriodReply(period, txs).income + PeriodReply(period, txs).expense == Sum(txs, DocAmount)
    ensures txs != [] ==> PeriodReply(period, txs).net == PeriodReply(period, txs).income - PeriodReply(period, txs).expense
  {
    SumAdd(txs, DocIncome, DocExpense, DocAmount);
  }

  // ----------------------------------------------------------------- routing

  datatype User = User(id: int, username: Option<string>)
  datatype Message = Message(text: Option<string>, from: User)
  datatype Update = Update(updateId: int, message: Option<Message>)
  datatype Request = Request(httpMethod: string, body: Update)

  datatype Command = Day | Month | Hist | Web | Unknown

  /** What the handler does after answering: nothing, run a command, report a
      message it cannot parse, or store a document under `key`. */
  datatype Action =
    | NoAction
    | RunCommand(command: Command, user: User)
    | RejectFormat
    | Store(key: string, doc: Doc)

  datatype Response = Response(status: int, action: Action)

  /** `text.split(" ")[0]`: the text up to its first space. */
  function FirstToken(s: string): (t: string)
    ensures |t| <= |s| && t == s[..|t|]
    ensures ' ' !in t
    ensures t == s || s[|t|] == ' '
  {
    if s == [] || s[0] == ' ' then [] else [s[0]] + FirstToken(s[1..])
  }

  /** The first token is the only prefix without a space that ends the text or
      is followed by a space. */
  lemma {:induction false} FirstTokenUnique(s: string, t: string)
    requires |t| <= |s| && t == s[..|t|] && ' ' !in t && (t == s || s[|t|] == ' ')
    ensures t == FirstToken(s)
    decreases |s|
  {
    if s != [] && s[0] != ' ' {
      assert t != s ==> s[|t|] == ' ';
      assert t != [];
      var t' := t[1..];
      assert t == [s[0]] + t';
      assert forall k :: 0 <= k < |t'| ==> t'[k] == t[k + 1];
      FirstTokenUnique(s[1..], t');
    }
  }

  /** The `switch (command)`. */
  function Route(command: string): (c: Command)
    ensures c == Unknown <==> command !in ["/day", "/month", "/hist", "/web"]
  {
    if command == "/day" then Day
    else if command == "/month" then Month
    else if command == "/hist" then Hist
    else if command == "/web" then Web
    else Unknown
  }

  /** `update.message.from.username || null`. */
  function StoredUsername(u: Option<string>): (r: Option<string>)
    ensures r.Some? <==> u.Some? && u.value != ""
    ensures r.Some? ==> r == u
  {
    if u.Some? && u.value != "" then u else None
  }

  predicate IsCommand(text: string) { |text| > 0 && text[0] == '/' }

  /** The handler's decision for one request. `parse` stands for the shorthand
      parser and `serverTime` for the store's server timestamp. */
  function Handle(req: Request, parse: string -> Option<Draft>, serverTime: int): (r: Response)
    ensures r.status == if req.httpMethod == "POST" then 200 else 405
  {
    if req.httpMethod != "POST" then Response(405, NoAction)
    else if req.body.message.None? || req.body.message.value.text.None? || req.body.message.value.text.value == "" then
      Response(200, NoAction)
    else
      var msg := req.body.message.value;
      var text := Trim(msg.text.value);
      if IsCommand(text) then Response(200, RunCommand(Route(FirstToken(text)), msg.from))
      else
        match parse(text)
        case None => Response(200, RejectFormat)
        case Some(p) =>
          Response(200, Store(IntToString(req.body.updateId),
            Doc(msg.from.id, StoredUsername(msg.from.username), p.kind, p.amount,
                p.category, p.description, serverTime)))
  }

  /** The text the handler works on, when the update carries a non-empty one. */
  function HandledText(req: Request): Option<string>
  {
    if req.body.message.Some? && req.body.message.value.text.Some? && req.body.message.value.text.value != ""
    then Some(Trim(req.body.message.value.text.value)) else None
  }

  /** Requests other than POST, and updates without message text, lead to no action. */
  lemma IgnoredRequests(req: Request, parse: string -> Option<Draft>, serverTime: int)
    ensures req.httpMethod != "POST" ==> Handle(req, parse, serverTime) == Response(405, NoAction)
    ensures req.httpMethod == "POST" && HandledText(req).None? ==> Handle(req, parse, serverTime) == Response(200, NoAction)
  {
  }

  /** A command is routed on its first token and never reaches the parser. */
  lemma CommandsSkipParser(req: Request, p1: string -> Option<Draft>, p2: string -> Option<Draft>, serverTime: int)
    requires req.httpMethod == "POST" && HandledText(req).Some? && IsCommand(HandledText(req).value)
    ensures Handle(req, p1, serverTime) == Handle(req, p2, serverTime)
    ensures Handle(req, p1, serverTime).action
         == RunCommand(Route(FirstToken(HandledText(req).value)), req.body.message.value.from)
  {
  }

  /** A message the parser rejects is answered with the format hint and nothing is stored. */
  lemma ParseFailureStoresNothing(req: Request, parse: string -> Option<Draft>, serverTime: int)
    requires req.httpMethod == "POST" && HandledText(req).Some? && !IsCommand(HandledText(req).value)
    requires parse(HandledText(req).value).None?
    ensures Handle(req, parse, serverTime).action == RejectFormat
  {
  }

  /** A document is stored only for a parsed, non-command message, under the key
      `String(update_id)`, with the parsed fields and the sender's id. */
  lemma StoreOnlyParsed(req: Request, parse: string -> Option<Draft>, serverTime: int)
    ensures Handle(req, parse, serverTime).action.Store? <==>
              req.httpMethod == "POST" && HandledText(req).Some? && !IsCommand(HandledText(req).value)
              && parse(HandledText(req).value).Some?
    ensures Handle(req, parse, serverTime).action.Store? ==>
              var a, p := Handle(req, parse, serverTime).action, parse(HandledText(req).value).value;
              a.key == IntToString(req.body.updateId)
              && a.doc.userId == req.body.message.value.from.id
              && a.doc.kind == p.kind && a.doc.amount == p.amount
              && a.doc.category == p.category && a.doc.description == p.description
              && a.doc.createdAt == serverTime
  {
  }

  /** Different updates are stored under different keys. */
  lemma DistinctUpdatesDistinctKeys(r1: Request, r2: Request, parse: string -> Option<Draft>, t1: int, t2: int)
    requires Handle(r1, parse, t1).action.Store? && Handle(r2, parse, t2).action.Store?
    requires Handle(r1, parse, t1).action.key == Handle(r2, parse, t2).action.key
    ensures r1.body.updateId == r2.body.updateId
  {
    IntToStringInjective(r1.body.updateId, r2.body.updateId);
  }

  /** The store after the handler's action. */
  function Apply(store: map<string, Doc>, a: Action): (s: map<string, Doc>)
    ensures a.Store? ==> s.Keys == store.Keys + {a.key} && s[a.key] == a.doc
    ensures a.Store? ==> forall k :: k in store && k != a.key ==> s[k] == store[k]
    ensures !a.Store? ==> s == store
  {
    if a.Store? then store[a.key := a.doc] else store
  }

  /** Handling the same request at another server time takes the same action,
      except that a stored document carries the other time. */
  lemma HandleAtOtherTime(req: Request, parse: string -> Option<Draft>, t1: int, t2: int)
    ensures Handle(req, parse, t1).action.Store? <==> Handle(req, parse, t2).action.Store?
    ensures Handle(req, parse, t1).action.Store? ==>
              Handle(req, parse, t1).action.key == Handle(req, parse, t2).action.key
  {
  }

  /** A redelivered update overwrites its own document instead of adding one:
      the store holds the same keys as after the first delivery. */
  lemma RedeliveryKeepsOneDocument(store: map<string, Doc>, req: Request, parse: string -> Option<Draft>, t1: int, t2: int)
    ensures Apply(Apply(store, Handle(req, parse, t1).action), Handle(req, parse, t2).action).Keys
         == Apply(store, Handle(req, parse, t1).action).Keys
    ensures Handle(req, parse, t2).action.Store? ==>
              Apply(Apply(store, Handle(req, parse, t1).action), Handle(req, parse, t2).action)
              == Apply(store, Handle(req, parse, t2).action)
  {
    HandleAtOtherTime(req, parse, t1, t2);
    ApplySameKeyTwice(store, Handle(req, parse, t1).action, Handle(req, parse, t2).action);
  }

  /** A second action that stores under the same key as the first, or that
      stores nothing when the first stores nothing, adds no key, and a second
      store replaces the first. */
  lemma ApplySameKeyTwice(store: map<string, Doc>, a1: Action, a2: Action)
    requires a1.Store? <==> a2.Store?
    requires a1.Store? ==> a1.key == a2.key
    ensures Apply(Apply(store, a1), a2).Keys == Apply(store, a1).Keys
    ensures a2.Store? ==> Apply(Apply(store, a1), a2) == Apply(store, a2)
  {
  }

  // ----------------------------------------------------------------- replies

  /** `generateWebToken`'s payload: the user's id, and the username or `""`. */
  function WebTokenUsername(u: User): string
  {
    if u.username.Some? then u.username.value else ""
  }

  /** The message a command sends back, given the store's documents. Each bound
      helper reads the clock itself, so a window takes its start from the UTC
      date `atStart` of one reading and its end from the date `atEnd` of a later one. */
  function CommandReply(c: Command, u: User, docs: seq<Doc>, atStart: UtcDate, atEnd: UtcDate): Reply
  {
    match c
    case Day => PeriodReply(Today, UserTransactions(docs, u.id, Some(StartOfTodayUTC(atStart)), Some(StartOfTomorrowUTC(atEnd))))
    case Month => PeriodReply(ThisMonth, UserTransactions(docs, u.id, Some(StartOfMonthUTC(atStart)), Some(StartOfNextMonthUTC(atEnd))))
    case Hist => PeriodReply(AllTime, UserTransactions(docs, u.id, None, None))
    case Web => DashboardLink(u.id, WebTokenUsername(u))
    case Unknown => UnknownCommand
  }

  /** The message the handler sends for an action, if any. */
  function ActionReply(a: Action, docs: seq<Doc>, atStart: UtcDate, atEnd: UtcDate): (r: Option<Reply>)
    ensures r.None? <==> a.NoAction?
    ensures a.Store? ==> r == Some(Saved(a.doc.category, a.doc.amount))
  {
    match a
    case NoAction => None
    case RunCommand(c, u) => Some(CommandReply(c, u, docs, atStart, atEnd))
    case RejectFormat => Some(FormatInvalid)
    case Store(_, d) => Some(Saved(d.category, d.amount))
  }

  /** `/day` queries from the start of the first reading's day up to the end of
      the second reading's day. */
  lemma DayWindowOfReadings(atStart: UtcDate, atEnd: UtcDate, t: int)
    ensures InWindow(t, StartOfTodayUTC(atStart), StartOfTomorrowUTC(atEnd))
        <==> MakeDay(atStart.year, atStart.month, atStart.day) <= t / MS_PER_DAY
               <= MakeDay(atEnd.year, atEnd.month, atEnd.day)
  {
    var d1, d2 := MakeDay(atStart.year, atStart.month, atStart.day), MakeDay(atEnd.year, atEnd.month, atEnd.day);
    assert StartOfTodayUTC(atStart) == d1 * MS_PER_DAY;
    assert StartOfTomorrowUTC(atEnd) == (d2 + 1) * MS_PER_DAY;
    MsWindowIsDayWindow(t, d1, d2 + 1);
  }

  /** When both readings fall on the same UTC day, `/day` tallies exactly the
      sender's documents created on that day. */
  lemma DayCountsToday(u: User, docs: seq<Doc>, atStart: UtcDate, atEnd: UtcDate, d: Doc)
    requires atStart == atEnd
    ensures d in UserTransactions(docs, u.id, Some(StartOfTodayUTC(atStart)), Some(StartOfTomorrowUTC(atEnd)))
        <==> d in docs && d.userId == u.id && d.createdAt / MS_PER_DAY == MakeDay(atStart.year, atStart.month, atStart.day)
  {
    DayWindowOfReadings(atStart, atEnd, d.createdAt);
  }

  /** When the second reading falls on the day after the first (a request
      handled just before midnight UTC), `/day`'s window is two days long and
      holds both days. */
  lemma DayAcrossMidnight(atStart: UtcDate, atEnd: UtcDate, t: int)
    requires MakeDay(atEnd.year, atEnd.month, atEnd.day) == MakeDay(atStart.year, atStart.month, atStart.day) + 1
    ensures StartOfTomorrowUTC(atEnd) - StartOfTodayUTC(atStart) == 2 * MS_PER_DAY
    ensures InWindow(t, StartOfTodayUTC(atStart), StartOfTomorrowUTC(atEnd))
        <==> InWindow(t, StartOfTodayUTC(atStart), StartOfTomorrowUTC(atStart))
             || InWindow(t, StartOfTodayUTC(atEnd), StartOfTomorrowUTC(atEnd))
  {
    DayWindowOfReadings(atStart, atEnd, t);
    DayWindowIsUtcDay(atStart, t);
    DayWindowIsUtcDay(atEnd, t);
  }

  /** `/month` queries from the first of the first reading's month up to the
      first of the month after the second reading's. */
  lemma MonthWindowOfReadings(atStart: UtcDate, atEnd: UtcDate, t: int)
    ensures InWindow(t, StartOfMonthUTC(atStart), StartOfNextMonthUTC(atEnd))
        <==> FirstDay(YearMonth(atStart.year, atStart.month)) <= t / MS_PER_DAY
               < FirstDay(NextMonth(YearMonth(atEnd.year, atEnd.month)))
  {
    NextMonthStart(atStart);
    NextMonthStart(atEnd);
    MsWindowIsDayWindow(t, FirstDay(YearMonth(atStart.year, atStart.month)), FirstDay(NextMonth(YearMonth(atEnd.year, atEnd.month))));
  }

  /** When the second reading falls in the month after the first (a request
      handled just before a month ends), `/month`'s window holds both months. */
  lemma MonthAcrossMonthEnd(atStart: UtcDate, atEnd: UtcDate, t: int)
    requires YearMonth(atEnd.year, atEnd.month) == NextMonth(YearMonth(atStart.year, atStart.month))
    ensures StartOfNextMonthUTC(atEnd) - StartOfMonthUTC(atStart)
         == (DaysInMonth(atStart.year, atStart.month) + DaysInMonth(atEnd.year, atEnd.month)) * MS_PER_DAY
    ensures InWindow(t, StartOfMonthUTC(atStart), StartOfNextMonthUTC(atEnd))
        <==> InWindow(t, StartOfMonthUTC(atStart), StartOfNextMonthUTC(atStart))
             || InWindow(t, StartOfMonthUTC(atEnd), StartOfNextMonthUTC(atEnd))
  {
    NextMonthStart(atStart);
    NextMonthStart(atEnd);
    assert StartOfNextMonthUTC(atStart) == StartOfMonthUTC(atEnd);
  }

  /** The query keeps each selected document as often as the store lists it,
      so two listings with the same documents give results with the same documents. */
  lemma UserTransactionsOrderFree(docs: seq<Doc>, docs': seq<Doc>, userId: int, start: Option<int>, end: Option<int>)
    requires multiset(docs) == multiset(docs')
    ensures multiset(UserTransactions(docs, userId, start, end)) == multiset(UserTransactions(docs', userId, start, end))
  {
    var r, r' := UserTransactions(docs, userId, start, end), UserTransactions(docs', userId, start, end);
    forall d ensures multiset(r)[d] == multiset(r')[d] {
    }
  }

  /** The reply of a period command depends only on which documents were
      returned and how often, not on their order. */
  lemma PeriodReplyOrderFree(period: Period, txs: seq<Doc>, txs': seq<Doc>)
    requires multiset(txs) == multiset(txs')
    ensures PeriodReply(period, txs) == PeriodReply(period, txs')
  {
    assert |txs| == |multiset(txs)| && |txs'| == |multiset(txs')|;
    SumPermutation(txs, txs', DocIncome);
    SumPermutation(txs, txs', DocExpense);
  }

  /** The tallies do not depend on the order in which the store lists the
      documents: two listings holding the same documents, each as often, give
      every command the same reply. */
  lemma CommandReplyOrderFree(c: Command, u: User, docs: seq<Doc>, docs': seq<Doc>, atStart: UtcDate, atEnd: UtcDate)
    requires multiset(docs) == multiset(docs')
    ensures CommandReply(c, u, docs, atStart, atEnd) == CommandReply(c, u, docs', atStart, atEnd)
  {
    var start, end := None, None;
    if c == Day {
      start, end := Some(StartOfTodayUTC(atStart)), Some(StartOfTomorrowUTC(atEnd));
    } else if c == Month {
      start, end := Some(StartOfMonthUTC(atStart)), Some(StartOfNextMonthUTC(atEnd));
    }
    UserTransactionsOrderFree(docs, docs', u.id, start, end);
    var period := if c == Day then Today else if c == Month then ThisMonth else AllTime;
    PeriodReplyOrderFree(period, UserTransactions(docs, u.id, start, end), UserTransactions(docs', u.id, start, end));
  }

  /** A sender without documents in the month window gets the "no transactions" reply. */
  lemma EmptyMonthReply(u: User, docs: seq<Doc>, atStart: UtcDate, atEnd: UtcDate)
    requires forall i :: 0 <= i < |docs| && docs[i].userId == u.id ==>
               !InWindow(docs[i].createdAt, StartOfMonthUTC(atStart), StartOfNextMonthUTC(atEnd))
    ensures CommandReply(Month, u, docs, atStart, atEnd) == NoTransactions(ThisMonth)
  {
    var r := UserTransactions(docs, u.id, Some(StartOfMonthUTC(atStart)), Some(StartOfNextMonthUTC(atEnd)));
    assert forall d :: d !in r;
  }

  /** The unknown-command reply goes to every slash-led first token that is not a command. */
  lemma UnknownCommandReply(req: Request, parse: string -> Option<Draft>, serverTime: int, docs: seq<Doc>, atStart: UtcDate, atEnd: UtcDate)
    requires req.httpMethod == "POST" && HandledText(req).Some? && IsCommand(HandledText(req).value)
    requires FirstToken(HandledText(req).value) !in ["/day", "/month", "/hist", "/web"]
    ensures ActionReply(Handle(req, parse, serverTime).action, docs, atStart, atEnd) == Some(UnknownCommand)
  {
    var text := HandledText(req).value;
    assert Route(FirstToken(text)) == Unknown;
    assert Handle(req, parse, serverTime).action == RunCommand(Unknown, req.body.message.value.from);
  }
}
