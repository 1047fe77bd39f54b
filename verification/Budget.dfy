/** The per-scope budget of calls, items and serialized bytes in windows that start on demand. */
module Budget {
  import opened Wrappers

  datatype Limits = Limits(window: real, maxCalls: nat, maxItems: nat, maxBytes: nat, maxCallBytes: nat)

  datatype Window = Window(startedAt: real, calls: nat, items: nat, bytes: nat, cursors: set<string>)

  datatype Outcome = Allowed | TooManyCalls | PaginationLoop | CallTooLarge | TooManyResultItems | TooManyItems | TooManyBytes

  /** The window in force, or a new one. */
  function Current(lim: Limits, w: Option<Window>, now: real): Window {
    if w.None? || now - w.value.startedAt >= lim.window then Window(now, 0, 0, 0, {}) else w.value
  }

  /** `page` is the cursor when the call asks for a page by a string cursor. */
  function Begin(lim: Limits, w: Option<Window>, page: Option<string>, now: real): (Window, Outcome) {
    var c := Current(lim, w, now);
    if c.calls >= lim.maxCalls then (c, TooManyCalls)
    else if page.Some? && page.value in c.cursors then (c, PaginationLoop)
    else (c.(calls := c.calls + 1, cursors := if page.Some? then c.cursors + {page.value} else c.cursors), Allowed)
  }

  /** The checks before the lock leave the window alone. */
  function Accept(lim: Limits, w: Option<Window>, items: nat, bytes: nat, maxResultItems: int, now: real): (Option<Window>, Outcome) {
    if bytes > lim.maxCallBytes then (w, CallTooLarge)
    else if items > maxResultItems then (w, TooManyResultItems)
    else
      var c := Current(lim, w, now);
      if c.items + items > lim.maxItems then (Some(c), TooManyItems)
      else if c.bytes + bytes > lim.maxBytes then (Some(c), TooManyBytes)
      else (Some(c.(items := c.items + items, bytes := c.bytes + bytes)), Allowed)
  }

  // ---------------------------------------------------- what has been allowed

  datatype Resource = Calls | Items | Bytes

  /** One allowed call or result, and the start of the window that paid for it. */
  datatype Event = Event(time: real, start: real, calls: nat, items: nat, bytes: nat, page: Option<string>)

  function Amount(e: Event, what: Resource): nat {
    match what case Calls => e.calls case Items => e.items case Bytes => e.bytes
  }

  function Limit(lim: Limits, what: Resource): nat {
    match what case Calls => lim.maxCalls case Items => lim.maxItems case Bytes => lim.maxBytes
  }

  function Spent(w: Window, what: Resource): nat {
    match what case Calls => w.calls case Items => w.items case Bytes => w.bytes
  }

  /** The amount paid for by the window with this start. */
  function SumAt(log: seq<Event>, start: real, what: Resource): nat {
    if log == [] then 0
    else
      var e := log[|log| - 1];
      SumAt(log[..|log| - 1], start, what) + if e.start == start then Amount(e, what) else 0
  }

  /** The amount allowed in the closed interval from lo to hi. */
  function SumIn(log: seq<Event>, lo: real, hi: real, what: Resource): nat {
    if log == [] then 0
    else
      var e := log[|log| - 1];
      SumIn(log[..|log| - 1], lo, hi, what) + if lo <= e.time <= hi then Amount(e, what) else 0
  }

  /** Windows of one scope start at least `window` seconds apart and last less than that. */
  ghost predicate Spaced(lim: Limits, log: seq<Event>) {
    && (forall i | 0 <= i < |log| :: log[i].start <= log[i].time < log[i].start + lim.window)
    && (forall i, j | 0 <= i < j < |log| ::
          log[i].start == log[j].start || log[i].start + lim.window <= log[j].start)
  }

  ghost predicate NoPageTwice(log: seq<Event>) {
    forall i, j | 0 <= i < j < |log| && log[i].start == log[j].start && log[i].page.Some? ::
      log[i].page != log[j].page
  }

  ghost predicate WithinLimits(lim: Limits, log: seq<Event>) {
    forall start: real, what: Resource :: SumAt(log, start, what) <= Limit(lim, what)
  }

  /** The window's counters are the sums of what it has paid for. */
  ghost predicate Booked(w: Window, log: seq<Event>) {
    && (forall what: Resource :: SumAt(log, w.startedAt, what) == Spent(w, what))
    && (forall c :: c in w.cursors <==> exists i | 0 <= i < |log| :: log[i].start == w.startedAt && log[i].page == Some(c))
  }

  ghost predicate Older(lim: Limits, w: Window, log: seq<Event>) {
    forall i | 0 <= i < |log| :: log[i].start == w.startedAt || log[i].start + lim.window <= w.startedAt
  }

  ghost predicate Kept(lim: Limits, w: Option<Window>, log: seq<Event>, last: real) {
    && (w.None? ==> log == [])
    && (w.Some? ==> w.value.startedAt <= last && Booked(w.value, log) && Older(lim, w.value, log))
    && Spaced(lim, log) && NoPageTwice(log) && WithinLimits(lim, log)
  }

  // --------------------------------------------------------------- one step

  lemma {:induction false} SumElsewhere(log: seq<Event>, start: real, what: Resource)
    requires forall i | 0 <= i < |log| :: log[i].start != start
    ensures SumAt(log, start, what) == 0
  {
    if log != [] {
      SumElsewhere(log[..|log| - 1], start, what);
    }
  }

  lemma {:induction false} CurrentKept(lim: Limits, w: Option<Window>, log: seq<Event>, last: real, now: real)
    requires lim.window > 0.0 && Kept(lim, w, log, last) && last <= now
    ensures Kept(lim, Some(Current(lim, w, now)), log, now)
    ensures now < Current(lim, w, now).startedAt + lim.window
  {
    var c := Current(lim, w, now);
    if w.None? || now - w.value.startedAt >= lim.window {
      assert forall i | 0 <= i < |log| :: log[i].start != now;
      forall what: Resource
        ensures SumAt(log, now, what) == 0
      {
        SumElsewhere(log, now, what);
      }
    }
  }

  lemma SumAppend(log: seq<Event>, e: Event, start: real, what: Resource)
    ensures SumAt(log + [e], start, what) == SumAt(log, start, what) + if e.start == start then Amount(e, what) else 0
  {
    assert (log + [e])[..|log + [e]| - 1] == log;
  }

  /** Booking an allowed event on the window in force. */
  lemma {:induction false} BookKept(lim: Limits, c: Window, log: seq<Event>, e: Event, d: Window)
    requires Kept(lim, Some(c), log, e.time) && e.start == c.startedAt && e.time < c.startedAt + lim.window
    requires d.startedAt == c.startedAt
    requires forall what: Resource :: Spent(d, what) == Spent(c, what) + Amount(e, what) <= Limit(lim, what)
    requires d.cursors == if e.page.Some? then c.cursors + {e.page.value} else c.cursors
    requires e.page.Some? ==> e.page.value !in c.cursors
    ensures Kept(lim, Some(d), log + [e], e.time)
  {
    var after := log + [e];
    forall start: real, what: Resource
      ensures SumAt(after, start, what) <= Limit(lim, what)
      ensures start == d.startedAt ==> SumAt(after, start, what) == Spent(d, what)
    {
      SumAppend(log, e, start, what);
    }
    forall cur
      ensures cur in d.cursors <==> exists i | 0 <= i < |after| :: after[i].start == d.startedAt && after[i].page == Some(cur)
    {
      if cur in c.cursors {
        var i :| 0 <= i < |log| && log[i].start == c.startedAt && log[i].page == Some(cur);
        assert after[i] == log[i];
      } else if e.page == Some(cur) {
        assert after[|log|] == e;
      }
    }
  }

  // ------------------------------------------------------------------- runs

  datatype Op =
    | BeginCall(scope: string, page: Option<string>, time: real)
    | AcceptResult(scope: string, items: nat, bytes: nat, maxResultItems: int, time: real)

  /** The window of each scope, and everything each scope was allowed. */
  datatype State = State(windows: map<string, Window>, logs: map<string, seq<Event>>)

  function WindowOf(windows: map<string, Window>, scope: string): Option<Window> {
    if scope in windows then Some(windows[scope]) else None
  }

  function LogOf(logs: map<string, seq<Event>>, scope: string): seq<Event> {
    if scope in logs then logs[scope] else []
  }

  function Answer(lim: Limits, windows: map<string, Window>, op: Op): (Option<Window>, Outcome) {
    match op
    case BeginCall(scope, page, time) =>
      var (w, o) := Begin(lim, WindowOf(windows, scope), page, time);
      (Some(w), o)
    case AcceptResult(scope, items, bytes, most, time) =>
      Accept(lim, WindowOf(windows, scope), items, bytes, most, time)
  }

  function EventOf(op: Op, start: real): Event {
    match op
    case BeginCall(_, page, time) => Event(time, start, 1, 0, 0, page)
    case AcceptResult(_, items, bytes, _, time) => Event(time, start, 0, items, bytes, None)
  }

  function Step(lim: Limits, s: State, op: Op): State {
    var (w, o) := Answer(lim, s.windows, op);
    State(if w.Some? then s.windows[op.scope := w.value] else s.windows,
          if o == Allowed && w.Some?
          then s.logs[op.scope := LogOf(s.logs, op.scope) + [EventOf(op, w.value.startedAt)]]
          else s.logs)
  }

  function Run(lim: Limits, ops: seq<Op>): State {
    if ops == [] then State(map[], map[]) else Step(lim, Run(lim, ops[..|ops| - 1]), ops[|ops| - 1])
  }

  ghost predicate InOrder(ops: seq<Op>) {
    forall i, j | 0 <= i < j < |ops| :: ops[i].time <= ops[j].time
  }

  ghost predicate KeptAt(lim: Limits, s: State, scope: string, last: real) {
    Kept(lim, WindowOf(s.windows, scope), LogOf(s.logs, scope), last)
  }

  lemma {:induction false} KeptLater(lim: Limits, w: Option<Window>, log: seq<Event>, last: real, later: real)
    requires Kept(lim, w, log, last) && last <= later
    ensures Kept(lim, w, log, later)
  {
  }

  lemma {:induction false} BeginKept(lim: Limits, w: Option<Window>, log: seq<Event>, last: real, page: Option<string>, now: real)
    requires lim.window > 0.0 && Kept(lim, w, log, last) && last <= now
    ensures var (d, o) := Begin(lim, w, page, now);
            Kept(lim, Some(d), if o == Allowed then log + [Event(now, d.startedAt, 1, 0, 0, page)] else log, now)
  {
    var c := Current(lim, w, now);
    CurrentKept(lim, w, log, last, now);
    var (d, o) := Begin(lim, w, page, now);
    if o == Allowed {
      forall what: Resource
        ensures Spent(d, what) == Spent(c, what) + Amount(Event(now, d.startedAt, 1, 0, 0, page), what) <= Limit(lim, what)
      {
        assert SumAt(log, c.startedAt, what) <= Limit(lim, what);
      }
      BookKept(lim, c, log, Event(now, d.startedAt, 1, 0, 0, page), d);
    }
  }

  lemma {:induction false} AcceptKept(lim: Limits, w: Option<Window>, log: seq<Event>, last: real, items: nat, bytes: nat, most: int, now: real)
    requires lim.window > 0.0 && Kept(lim, w, log, last) && last <= now
    ensures var (d, o) := Accept(lim, w, items, bytes, most, now);
            && (o == Allowed ==> d.Some? && Kept(lim, d, log + [Event(now, d.value.startedAt, 0, items, bytes, None)], now))
            && (o != Allowed ==> Kept(lim, d, log, now))
  {
    var c := Current(lim, w, now);
    CurrentKept(lim, w, log, last, now);
    KeptLater(lim, w, log, last, now);
    var (d, o) := Accept(lim, w, items, bytes, most, now);
    if o == Allowed {
      var e := Event(now, c.startedAt, 0, items, bytes, None);
      forall what: Resource
        ensures Spent(d.value, what) == Spent(c, what) + Amount(e, what) <= Limit(lim, what)
      {
        assert SumAt(log, c.startedAt, what) <= Limit(lim, what);
      }
      BookKept(lim, c, log, e, d.value);
    }
  }

  lemma StepKept(lim: Limits, s: State, op: Op, scope: string, last: real)
    requires lim.window > 0.0 && KeptAt(lim, s, scope, last) && last <= op.time
    ensures KeptAt(lim, Step(lim, s, op), scope, op.time)
  {
    KeptLater(lim, WindowOf(s.windows, scope), LogOf(s.logs, scope), last, op.time);
    if scope == op.scope {
      match op
      case BeginCall(_, page, time) =>
        BeginKept(lim, WindowOf(s.windows, scope), LogOf(s.logs, scope), last, page, time);
      case AcceptResult(_, items, bytes, most, time) =>
        AcceptKept(lim, WindowOf(s.windows, scope), LogOf(s.logs, scope), last, items, bytes, most, time);
    }
  }

  lemma {:induction false} RunKept(lim: Limits, ops: seq<Op>, scope: string, now: real)
    requires lim.window > 0.0 && InOrder(ops) && (ops != [] ==> ops[|ops| - 1].time <= now)
    ensures KeptAt(lim, Run(lim, ops), scope, now)
  {
    if ops == [] {
    } else {
      var op := ops[|ops| - 1];
      RunKept(lim, ops[..|ops| - 1], scope, op.time);
      StepKept(lim, Run(lim, ops[..|ops| - 1]), op, scope, op.time);
      KeptLater(lim, WindowOf(Run(lim, ops).windows, scope), LogOf(Run(lim, ops).logs, scope), op.time, now);
    }
  }

  // ------------------------------------------------------------ the answers

  /** The start of a window that is in force at this time, and otherwise the time itself. */
  function StartAt(lim: Limits, start: Option<real>, now: real): real {
    if start.Some? && now - start.value < lim.window then start.value else now
  }

  /** The start of the scope's last window, from the operations alone: an operation that finds none in
      force starts one, unless it is a result that is too large by itself. */
  function LastStart(lim: Limits, ops: seq<Op>, scope: string): Option<real> {
    if ops == [] then None
    else
      var op, before := ops[|ops| - 1], LastStart(lim, ops[..|ops| - 1], scope);
      if op.scope != scope || (op.AcceptResult? && (op.bytes > lim.maxCallBytes || op.items > op.maxResultItems)) then before
      else Some(StartAt(lim, before, op.time))
  }

  lemma {:induction false} LastStartIs(lim: Limits, ops: seq<Op>, scope: string)
    ensures var w := WindowOf(Run(lim, ops).windows, scope);
            LastStart(lim, ops, scope) == if w.Some? then Some(w.value.startedAt) else None
  {
    if ops != [] {
      LastStartIs(lim, ops[..|ops| - 1], scope);
      NextStart(lim, Run(lim, ops[..|ops| - 1]), ops[|ops| - 1]);
    }
  }

  lemma NextStart(lim: Limits, s: State, op: Op)
    ensures op.AcceptResult? && (op.bytes > lim.maxCallBytes || op.items > op.maxResultItems) ==>
              WindowOf(Step(lim, s, op).windows, op.scope) == WindowOf(s.windows, op.scope)
    ensures var w, v := WindowOf(s.windows, op.scope), WindowOf(Step(lim, s, op).windows, op.scope);
            !(op.AcceptResult? && (op.bytes > lim.maxCallBytes || op.items > op.maxResultItems)) ==>
              v.Some? && v.value.startedAt == StartAt(lim, if w.Some? then Some(w.value.startedAt) else None, op.time)
    ensures forall scope | scope != op.scope :: WindowOf(Step(lim, s, op).windows, scope) == WindowOf(s.windows, scope)
  {
  }

  /** What was allowed is logged as it was asked for, at the start of its window; nothing else is. */
  lemma LoggedTells(lim: Limits, ops: seq<Op>, op: Op)
    ensures var s, t := Run(lim, ops), Run(lim, ops + [op]);
            var start := StartAt(lim, LastStart(lim, ops, op.scope), op.time);
            && LogOf(t.logs, op.scope)
               == LogOf(s.logs, op.scope)
                  + (if Answer(lim, s.windows, op).1 != Allowed then []
                     else match op
                       case BeginCall(_, page, time) => [Event(time, start, 1, 0, 0, page)]
                       case AcceptResult(_, items, bytes, _, time) => [Event(time, start, 0, items, bytes, None)])
            && forall scope | scope != op.scope :: LogOf(t.logs, scope) == LogOf(s.logs, scope)
  {
    RunMore(lim, ops, op);
    LastStartIs(lim, ops, op.scope);
    NextStart(lim, Run(lim, ops), op);
  }

  /** The window that pays at this time, and what it has paid for. */
  lemma {:induction false} InForceKept(lim: Limits, ops: seq<Op>, scope: string, now: real) returns (c: Window)
    requires lim.window > 0.0 && InOrder(ops) && (ops != [] ==> ops[|ops| - 1].time <= now)
    ensures c == Current(lim, WindowOf(Run(lim, ops).windows, scope), now)
    ensures c.startedAt == StartAt(lim, LastStart(lim, ops, scope), now)
    ensures Booked(c, LogOf(Run(lim, ops).logs, scope))
  {
    c := Current(lim, WindowOf(Run(lim, ops).windows, scope), now);
    RunKept(lim, ops, scope, now);
    LastStartIs(lim, ops, scope);
    CurrentKept(lim, WindowOf(Run(lim, ops).windows, scope), LogOf(Run(lim, ops).logs, scope), now, now);
  }

  /** The page was taken in the window with this start. */
  ghost predicate Taken(log: seq<Event>, start: real, page: Option<string>) {
    page.Some? && exists i | 0 <= i < |log| :: log[i].start == start && log[i].page == page
  }

  /** Every answer to a call, after any run, from the log alone: too many calls when the window in force
      has paid for as many as the limit, a loop when it has paid for this page, and otherwise allowed. */
  lemma {:induction false} CallTells(lim: Limits, ops: seq<Op>, scope: string, page: Option<string>, now: real)
    requires lim.window > 0.0 && InOrder(ops) && (ops != [] ==> ops[|ops| - 1].time <= now)
    ensures var s := Run(lim, ops);
            var o := Answer(lim, s.windows, BeginCall(scope, page, now)).1;
            var log := LogOf(s.logs, scope);
            var start := StartAt(lim, LastStart(lim, ops, scope), now);
            && (o == TooManyCalls <==> SumAt(log, start, Calls) >= lim.maxCalls)
            && (o == PaginationLoop <==> SumAt(log, start, Calls) < lim.maxCalls && Taken(log, start, page))
            && (o == Allowed <==> SumAt(log, start, Calls) < lim.maxCalls && !Taken(log, start, page))
  {
    var c := InForceKept(lim, ops, scope, now);
    var log := LogOf(Run(lim, ops).logs, scope);
    assert SumAt(log, c.startedAt, Calls) == Spent(c, Calls);
    if page.Some? {
      assert page.value in c.cursors <==> exists i | 0 <= i < |log| :: log[i].start == c.startedAt && log[i].page == Some(page.value);
    }
  }

  /** And every answer to a result. */
  lemma {:induction false} ResultTells(lim: Limits, ops: seq<Op>, scope: string, items: nat, bytes: nat, most: int, now: real)
    requires lim.window > 0.0 && InOrder(ops) && (ops != [] ==> ops[|ops| - 1].time <= now)
    ensures var s := Run(lim, ops);
            var o := Answer(lim, s.windows, AcceptResult(scope, items, bytes, most, now)).1;
            var log := LogOf(s.logs, scope);
            var start := StartAt(lim, LastStart(lim, ops, scope), now);
            var small := bytes <= lim.maxCallBytes && items <= most;
            var fits := SumAt(log, start, Items) + items <= lim.maxItems;
            && (o == CallTooLarge <==> bytes > lim.maxCallBytes)
            && (o == TooManyResultItems <==> bytes <= lim.maxCallBytes && items > most)
            && (o == TooManyItems <==> small && !fits)
            && (o == TooManyBytes <==> small && fits && SumAt(log, start, Bytes) + bytes > lim.maxBytes)
            && (o == Allowed <==> small && fits && SumAt(log, start, Bytes) + bytes <= lim.maxBytes)
  {
    var c := InForceKept(lim, ops, scope, now);
    var log := LogOf(Run(lim, ops).logs, scope);
    assert SumAt(log, c.startedAt, Items) == Spent(c, Items) && SumAt(log, c.startedAt, Bytes) == Spent(c, Bytes);
  }

  // -------------------------------------------------------------- the bounds

  /** Within one window no limit is passed and no cursor is accepted twice. */
  lemma {:induction false} WindowTheorem(lim: Limits, ops: seq<Op>, scope: string, start: real, what: Resource)
    requires lim.window > 0.0 && InOrder(ops)
    ensures SumAt(LogOf(Run(lim, ops).logs, scope), start, what) <= Limit(lim, what)
    ensures NoPageTwice(LogOf(Run(lim, ops).logs, scope))
  {
    RunKept(lim, ops, scope, if ops == [] then 0.0 else ops[|ops| - 1].time);
  }

  lemma {:induction false} SumOfTwo(log: seq<Event>, lo: real, hi: real, a: real, b: real, what: Resource)
    requires forall i | 0 <= i < |log| && lo <= log[i].time <= hi :: log[i].start == a || log[i].start == b
    ensures SumIn(log, lo, hi, what) <= SumAt(log, a, what) + SumAt(log, b, what)
  {
    if log != [] {
      SumOfTwo(log[..|log| - 1], lo, hi, a, b, what);
    }
  }

  /** The events of an interval no longer than a window were paid for by at most two windows. */
  lemma {:induction false} TwoWindows(lim: Limits, log: seq<Event>, lo: real) returns (a: real, b: real)
    requires lim.window > 0.0 && Spaced(lim, log)
    ensures forall i | 0 <= i < |log| && lo <= log[i].time <= lo + lim.window ::
              log[i].start == a || log[i].start == b
  {
    a, b := lo, lo;
    if i :| 0 <= i < |log| && lo <= log[i].time <= lo + lim.window {
      a, b := log[i].start, log[i].start;
      if j :| 0 <= j < |log| && lo <= log[j].time <= lo + lim.window && log[j].start != a {
        b := log[j].start;
        forall k | 0 <= k < |log| && lo <= log[k].time <= lo + lim.window
          ensures log[k].start == a || log[k].start == b
        {
          assert i != j;
        }
      }
    }
  }

  /** Any interval as long as a window, wherever it lies, sees at most twice each limit. */
  lemma {:induction false} TwiceTheorem(lim: Limits, ops: seq<Op>, scope: string, lo: real, what: Resource)
    requires lim.window > 0.0 && InOrder(ops)
    ensures SumIn(LogOf(Run(lim, ops).logs, scope), lo, lo + lim.window, what) <= 2 * Limit(lim, what)
  {
    var log := LogOf(Run(lim, ops).logs, scope);
    RunKept(lim, ops, scope, if ops == [] then 0.0 else ops[|ops| - 1].time);
    var a, b := TwoWindows(lim, log, lo);
    SumOfTwo(log, lo, lo + lim.window, a, b, what);
    assert SumAt(log, a, what) <= Limit(lim, what) && SumAt(log, b, what) <= Limit(lim, what);
  }

  /** Without a positive length every call starts its own window, and all of them are allowed. */
  lemma {:induction false} NoWindowNoLimit(lim: Limits, ops: seq<Op>, scope: string)
    requires lim.window <= 0.0 && lim.maxCalls > 0 && InOrder(ops)
    requires forall i | 0 <= i < |ops| :: ops[i].BeginCall? && ops[i].scope == scope
    ensures |LogOf(Run(lim, ops).logs, scope)| == |ops|
    ensures WindowOf(Run(lim, ops).windows, scope).Some? ==>
              ops != [] && WindowOf(Run(lim, ops).windows, scope).value.startedAt == ops[|ops| - 1].time
  {
    if ops != [] {
      NoWindowNoLimit(lim, ops[..|ops| - 1], scope);
    }
  }

  /** The most of a resource that one operation can be allowed. */
  function Most(lim: Limits, what: Resource): nat {
    match what
    case Calls => if lim.maxCalls > 0 then 1 else 0
    case Items => lim.maxItems
    case Bytes => if lim.maxBytes < lim.maxCallBytes then lim.maxBytes else lim.maxCallBytes
  }

  /** An operation that asks for one unit at the time 0. */
  function Unit(what: Resource): Op {
    match what
    case Calls => BeginCall("", None, 0.0)
    case Items => AcceptResult("", 1, 0, 1, 0.0)
    case Bytes => AcceptResult("", 0, 1, 1, 0.0)
  }

  function Units(what: Resource, n: nat): seq<Op> {
    seq(n, _ => Unit(what))
  }

  lemma SumAppendIn(log: seq<Event>, e: Event, lo: real, hi: real, what: Resource)
    ensures SumIn(log + [e], lo, hi, what) == SumIn(log, lo, hi, what) + if lo <= e.time <= hi then Amount(e, what) else 0
  {
    assert (log + [e])[..|log + [e]| - 1] == log;
  }

  /** Without a positive length every operation starts its own window, and is allowed. */
  lemma {:induction false} UnitsAllowed(lim: Limits, what: Resource, n: nat)
    requires lim.window <= 0.0 && Most(lim, what) > 0
    ensures var s := Run(lim, Units(what, n));
            && SumAt(LogOf(s.logs, ""), 0.0, what) == n && SumIn(LogOf(s.logs, ""), 0.0, 0.0, what) == n
            && (WindowOf(s.windows, "").Some? ==> WindowOf(s.windows, "").value.startedAt == 0.0)
  {
    if n > 0 {
      UnitsAllowed(lim, what, n - 1);
      assert Units(what, n)[..n - 1] == Units(what, n - 1);
      var t := Run(lim, Units(what, n - 1));
      var w := UnitAnswer(lim, t.windows, what);
      StepAllowed(lim, t, Unit(what), w);
      UnitSums(LogOf(t.logs, ""), what);
    }
  }

  lemma StepAllowed(lim: Limits, s: State, op: Op, w: Window)
    requires Answer(lim, s.windows, op) == (Some(w), Allowed)
    ensures LogOf(Step(lim, s, op).logs, op.scope) == LogOf(s.logs, op.scope) + [EventOf(op, w.startedAt)]
    ensures WindowOf(Step(lim, s, op).windows, op.scope) == Some(w)
  {
  }

  lemma UnitAnswer(lim: Limits, windows: map<string, Window>, what: Resource) returns (w: Window)
    requires lim.window <= 0.0 && Most(lim, what) > 0
    requires WindowOf(windows, "").Some? ==> WindowOf(windows, "").value.startedAt == 0.0
    ensures Unit(what).scope == "" && Answer(lim, windows, Unit(what)) == (Some(w), Allowed) && w.startedAt == 0.0
  {
    var c := Current(lim, WindowOf(windows, ""), 0.0);
    assert c == Window(0.0, 0, 0, 0, {});
    match what
    case Calls => w := c.(calls := 1);
    case Items => w := c.(items := 1);
    case Bytes => w := c.(bytes := 1);
  }

  lemma UnitSums(log: seq<Event>, what: Resource)
    ensures var e := EventOf(Unit(what), 0.0);
            && SumAt(log + [e], 0.0, what) == SumAt(log, 0.0, what) + 1
            && SumIn(log + [e], 0.0, 0.0, what) == SumIn(log, 0.0, 0.0, what) + 1
  {
    var e := EventOf(Unit(what), 0.0);
    SumAppend(log, e, 0.0, what);
    SumAppendIn(log, e, 0.0, 0.0, what);
  }

  /** Nothing is ever allowed of a resource of which no operation can be allowed anything. */
  lemma {:induction false} NothingAllowed(lim: Limits, ops: seq<Op>, scope: string, what: Resource)
    requires Most(lim, what) == 0
    ensures forall i | 0 <= i < |LogOf(Run(lim, ops).logs, scope)| :: Amount(LogOf(Run(lim, ops).logs, scope)[i], what) == 0
  {
    if ops != [] {
      var op, s := ops[|ops| - 1], Run(lim, ops[..|ops| - 1]);
      NothingAllowed(lim, ops[..|ops| - 1], scope, what);
      NothingMore(lim, s, op, what);
      if scope != op.scope {
        assert LogOf(Step(lim, s, op).logs, scope) == LogOf(s.logs, scope);
      }
    }
  }

  lemma NothingMore(lim: Limits, s: State, op: Op, what: Resource)
    requires Most(lim, what) == 0
    ensures var (w, o) := Answer(lim, s.windows, op);
            o == Allowed && w.Some? ==> Amount(EventOf(op, w.value.startedAt), what) == 0
  {
  }

  lemma {:induction false} NothingSums(log: seq<Event>, start: real, lo: real, hi: real, what: Resource)
    requires forall i | 0 <= i < |log| :: Amount(log[i], what) == 0
    ensures SumAt(log, start, what) == 0 && SumIn(log, lo, hi, what) == 0
  {
    if log != [] {
      NothingSums(log[..|log| - 1], start, lo, hi, what);
    }
  }

  /** No window ever pays for more than its limit. */
  ghost predicate WindowsHold(lim: Limits, what: Resource) {
    forall ops, scope, start: real | InOrder(ops) :: SumAt(LogOf(Run(lim, ops).logs, scope), start, what) <= Limit(lim, what)
  }

  /** No interval as long as a window ever sees more than twice the limit. */
  ghost predicate IntervalsHold(lim: Limits, what: Resource) {
    forall ops, scope, lo: real | InOrder(ops) :: SumFrom(lim, LogOf(Run(lim, ops).logs, scope), lo, what) <= 2 * Limit(lim, what)
  }

  /** The amount allowed in an interval as long as a window. */
  function SumFrom(lim: Limits, log: seq<Event>, lo: real, what: Resource): nat {
    SumIn(log, lo, lo + lim.window, what)
  }

  /** No window ever takes a cursor twice. */
  ghost predicate PagesHold(lim: Limits) {
    forall ops, scope | InOrder(ops) :: NoPageTwice(LogOf(Run(lim, ops).logs, scope))
  }

  lemma PagesHoldIff(lim: Limits)
    ensures PagesHold(lim) <==> lim.window > 0.0 || lim.maxCalls == 0
  {
    if lim.window > 0.0 || lim.maxCalls == 0 {
      forall ops, scope | InOrder(ops)
        ensures NoPageTwice(LogOf(Run(lim, ops).logs, scope))
      {
        if lim.window > 0.0 {
          WindowTheorem(lim, ops, scope, 0.0, Calls);
        } else {
          NoPages(lim, ops, scope);
        }
      }
    } else {
      var op := BeginCall("", Some(""), 0.0);
      var one := Step(lim, State(map[], map[]), op);
      RunMore(lim, [], op);
      RunMore(lim, [op], op);
      assert [] + [op] == [op] && [op] + [op] == [op, op];
      var log := LogOf(Step(lim, one, op).logs, "");
      assert log == [EventOf(op, 0.0), EventOf(op, 0.0)];
      assert log[0].start == log[1].start && log[0].page == log[1].page;
      assert InOrder([op, op]) && !NoPageTwice(LogOf(Run(lim, [op, op]).logs, ""));
    }
  }

  lemma RunMore(lim: Limits, ops: seq<Op>, op: Op)
    ensures Run(lim, ops + [op]) == Step(lim, Run(lim, ops), op)
  {
    assert (ops + [op])[..|ops + [op]| - 1] == ops;
  }

  lemma {:induction false} NoPages(lim: Limits, ops: seq<Op>, scope: string)
    requires lim.maxCalls == 0
    ensures forall i | 0 <= i < |LogOf(Run(lim, ops).logs, scope)| :: LogOf(Run(lim, ops).logs, scope)[i].page == None
  {
    if ops != [] {
      var op, s := ops[|ops| - 1], Run(lim, ops[..|ops| - 1]);
      NoPages(lim, ops[..|ops| - 1], scope);
      assert op.BeginCall? ==> Answer(lim, s.windows, op).1 == TooManyCalls;
      if scope != op.scope {
        assert LogOf(Step(lim, s, op).logs, scope) == LogOf(s.logs, scope);
      }
    }
  }

  lemma {:induction false} NoInterval(log: seq<Event>, lo: real, hi: real, what: Resource)
    requires hi < lo
    ensures SumIn(log, lo, hi, what) == 0
  {
    if log != [] {
      NoInterval(log[..|log| - 1], lo, hi, what);
    }
  }

  /** Exactly when the limits of a window hold in every run: its length is positive, or nothing of
      the resource can be allowed at all. */
  lemma WindowsHoldIff(lim: Limits, what: Resource)
    ensures WindowsHold(lim, what) <==> lim.window > 0.0 || Most(lim, what) == 0
  {
    if lim.window > 0.0 || Most(lim, what) == 0 {
      forall ops, scope, start: real | InOrder(ops)
        ensures SumAt(LogOf(Run(lim, ops).logs, scope), start, what) <= Limit(lim, what)
      {
        if lim.window > 0.0 {
          WindowTheorem(lim, ops, scope, start, what);
        } else {
          NothingAllowed(lim, ops, scope, what);
          NothingSums(LogOf(Run(lim, ops).logs, scope), start, 0.0, 0.0, what);
        }
      }
    } else {
      UnitsAllowed(lim, what, Limit(lim, what) + 1);
      assert InOrder(Units(what, Limit(lim, what) + 1));
    }
  }

  lemma {:induction false} IntervalHolds(lim: Limits, ops: seq<Op>, scope: string, lo: real, what: Resource)
    requires InOrder(ops) && (lim.window != 0.0 || Most(lim, what) == 0)
    ensures SumFrom(lim, LogOf(Run(lim, ops).logs, scope), lo, what) <= 2 * Limit(lim, what)
  {
    if lim.window > 0.0 {
      TwiceTheorem(lim, ops, scope, lo, what);
    } else if lim.window < 0.0 {
      NoInterval(LogOf(Run(lim, ops).logs, scope), lo, lo + lim.window, what);
    } else {
      NothingAllowed(lim, ops, scope, what);
      NothingSums(LogOf(Run(lim, ops).logs, scope), lo, lo, lo + lim.window, what);
    }
  }

  lemma IntervalBreaks(lim: Limits, what: Resource, n: nat)
    requires lim.window == 0.0 && Most(lim, what) > 0
    ensures InOrder(Units(what, n)) && SumFrom(lim, LogOf(Run(lim, Units(what, n)).logs, ""), 0.0, what) == n
  {
    UnitsAllowed(lim, what, n);
  }

  /** Exactly when twice the limits hold in every interval: the length is not zero, a negative one
      leaving no interval, or nothing of the resource can be allowed at all. */
  lemma IntervalsHoldIff(lim: Limits, what: Resource)
    ensures IntervalsHold(lim, what) <==> lim.window != 0.0 || Most(lim, what) == 0
  {
    if lim.window != 0.0 || Most(lim, what) == 0 {
      forall ops, scope, lo: real | InOrder(ops)
        ensures SumFrom(lim, LogOf(Run(lim, ops).logs, scope), lo, what) <= 2 * Limit(lim, what)
      {
        IntervalHolds(lim, ops, scope, lo, what);
      }
    } else {
      IntervalBreaks(lim, what, 2 * Limit(lim, what) + 1);
    }
  }

  // -------------------------------------------------------------- the object

  class ToolBudget {
    const lim: Limits
    var windows: map<string, Window>
    ghost var logs: map<string, seq<Event>>

    ghost function St(): State
      reads this
    {
      State(windows, logs)
    }

    constructor (lim: Limits)
      ensures this.lim == lim && St() == Run(lim, [])
    {
      this.lim := lim;
      windows, logs := map[], map[];
    }

    /** Finds the scope's window, starting a new one when there is none or it is over. */
    method FindWindow(scope: string, now: real) returns (w: Window)
      modifies this`windows
      ensures w == Current(lim, WindowOf(old(windows), scope), now)
      ensures windows == old(windows)[scope := w]
    {
      if scope in windows && now - windows[scope].startedAt < lim.window {
        w := windows[scope];
      } else {
        w := Window(now, 0, 0, 0, {});
        windows := windows[scope := w];
      }
    }

    method BeginCall(scope: string, page: Option<string>, now: real) returns (outcome: Outcome)
      modifies this
      ensures outcome == Answer(lim, old(windows), Op.BeginCall(scope, page, now)).1
      ensures St() == Step(lim, old(St()), Op.BeginCall(scope, page, now))
    {
      var w := FindWindow(scope, now);
      if w.calls >= lim.maxCalls {
        return TooManyCalls;
      }
      if page.Some? {
        if page.value in w.cursors {
          return PaginationLoop;
        }
        w := w.(cursors := w.cursors + {page.value});
      }
      w := w.(calls := w.calls + 1);
      windows := windows[scope := w];
      logs := logs[scope := LogOf(logs, scope) + [Event(now, w.startedAt, 1, 0, 0, page)]];
      return Allowed;
    }

    method AcceptResult(scope: string, items: nat, bytes: nat, maxResultItems: int, now: real) returns (outcome: Outcome)
      modifies this
      ensures outcome == Answer(lim, old(windows), Op.AcceptResult(scope, items, bytes, maxResultItems, now)).1
      ensures St() == Step(lim, old(St()), Op.AcceptResult(scope, items, bytes, maxResultItems, now))
    {
      if bytes > lim.maxCallBytes {
        return CallTooLarge;
      }
      if items > maxResultItems {
        return TooManyResultItems;
      }
      var w := FindWindow(scope, now);
      if w.items + items > lim.maxItems {
        return TooManyItems;
      }
      if w.bytes + bytes > lim.maxBytes {
        return TooManyBytes;
      }
      w := w.(items := w.items + items, bytes := w.bytes + bytes);
      windows := windows[scope := w];
      logs := logs[scope := LogOf(logs, scope) + [Event(now, w.startedAt, 0, items, bytes, None)]];
      return Allowed;
    }
  }
}
