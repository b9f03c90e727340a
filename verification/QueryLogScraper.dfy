/**
 The query_log window scraper (receiver/clickhousesystemtablesreceiver/receiver.go:79-142). Times are
 uint32 seconds and all sums wrap around. Connecting, the server clock and the scrape itself are outcomes
 of an attempt.
 */
module QueryLogScraper {
  import opened Options

  const TWO32 := 0x1_0000_0000

  type UInt32 = x: int | 0 <= x < TWO32

  /** A sum or difference of two uint32 values wraps around at most once. */
  function Wrap(x: int): UInt32
    requires -TWO32 <= x < 2 * TWO32
  {
    if x >= TWO32 then x - TWO32 else if x < 0 then x + TWO32 else x
  }

  datatype Window = Window(start: UInt32, end: UInt32)

  /** What the outside does during one attempt. */
  datatype Attempt = Attempt(canConnect: bool, serverNow: Option<UInt32>, scrapeWorks: bool)

  datatype Outcome = NoClient | NoClock | NotReady | Failed(window: Window) | Pushed(window: Window)

  datatype Reply = Reply(wait: UInt32, outcome: Outcome)

  /** pushed is history. */
  datatype Scraper = Scraper(interval: UInt32, delay: UInt32, connected: bool, cursor: UInt32, pushed: seq<Window>)

  // ---- one attempt ----

  /** The cursor an attempt at this time works with: the first server time starts it off. */
  function Cursor(s: Scraper, now: UInt32): UInt32 {
    if s.cursor == 0 then now else s.cursor
  }

  function WindowAt(s: Scraper, now: UInt32): Window {
    Window(Cursor(s, now), Wrap(Cursor(s, now) + s.interval))
  }

  predicate Ready(s: Scraper, now: UInt32) {
    now >= Wrap(WindowAt(s, now).end + s.delay)
  }

  /** The rest of an attempt that has seen the server's time. */
  function NextAt(s: Scraper, now: UInt32, works: bool): Scraper {
    if !Ready(s, now) || !works then s.(cursor := Cursor(s, now))
    else s.(cursor := WindowAt(s, now).end, pushed := s.pushed + [WindowAt(s, now)])
  }

  function Next(s: Scraper, a: Attempt): Scraper {
    if !s.connected && !a.canConnect then s
    else if a.serverNow.None? then s.(connected := true)
    else NextAt(s.(connected := true), a.serverNow.value, a.scrapeWorks)
  }

  function TimeLeft(due: UInt32, now: UInt32): UInt32 {
    if due > now then due - now else 0
  }

  function AnswerAt(s: Scraper, now: UInt32, works: bool): Reply {
    var window := WindowAt(s, now);
    if !Ready(s, now) then Reply(Wrap(Wrap(window.end + s.delay) - now), NotReady)
    else if !works then Reply(s.interval, Failed(window))
    else Reply(TimeLeft(Wrap(Wrap(window.end + s.interval) + s.delay), now), Pushed(window))
  }

  function Answer(s: Scraper, a: Attempt): Reply {
    if !s.connected && !a.canConnect then Reply(s.interval, NoClient)
    else if a.serverNow.None? then Reply(s.interval, NoClock)
    else AnswerAt(s.(connected := true), a.serverNow.value, a.scrapeWorks)
  }

  class Receiver {
    const scrapeIntervalSeconds: UInt32
    const scrapeDelaySeconds: UInt32
    var connected: bool
    var nextScrapeIntervalStartTs: UInt32
    ghost var pushed: seq<Window>

    ghost function View(): Scraper
      reads this
    {
      Scraper(scrapeIntervalSeconds, scrapeDelaySeconds, connected, nextScrapeIntervalStartTs, pushed)
    }

    constructor (interval: UInt32, delay: UInt32)
      ensures View() == Scraper(interval, delay, false, 0, [])
    {
      scrapeIntervalSeconds, scrapeDelaySeconds := interval, delay;
      connected, nextScrapeIntervalStartTs, pushed := false, 0, [];
    }

    method ScrapeQueryLogIfReady(a: Attempt) returns (reply: Reply)
      modifies this
      ensures View() == Next(old(View()), a) && reply == Answer(old(View()), a)
    {
      if !connected {
        if !a.canConnect {
          return Reply(scrapeIntervalSeconds, NoClient);
        }
        connected := true;
      }
      if a.serverNow.None? {
        return Reply(scrapeIntervalSeconds, NoClock);
      }
      reply := ScrapeAt(a.serverNow.value, a.scrapeWorks);
    }

    /** The rest of the attempt, once the server's time is known. */
    method ScrapeAt(serverTsNow: UInt32, scrapeWorks: bool) returns (reply: Reply)
      modifies this
      ensures View() == NextAt(old(View()), serverTsNow, scrapeWorks)
      ensures reply == AnswerAt(old(View()), serverTsNow, scrapeWorks)
    {
      ghost var before := View();
      if nextScrapeIntervalStartTs == 0 {
        nextScrapeIntervalStartTs := serverTsNow;
      }
      var scrapeIntervalEndTs := Wrap(nextScrapeIntervalStartTs + scrapeIntervalSeconds);
      var minServerTs := Wrap(scrapeIntervalEndTs + scrapeDelaySeconds);
      var window := Window(nextScrapeIntervalStartTs, scrapeIntervalEndTs);
      assert window == WindowAt(before, serverTsNow) && (Ready(before, serverTsNow) <==> serverTsNow >= minServerTs);
      if serverTsNow < minServerTs {
        reply := Reply(Wrap(minServerTs - serverTsNow), NotReady);
      } else if !scrapeWorks {
        reply := Reply(scrapeIntervalSeconds, Failed(window));
      } else {
        reply := Advance(window, serverTsNow);
      }
    }

    /** After a successful scrape: move the cursor on and say how long to wait for the next window. */
    method Advance(window: Window, serverTsNow: UInt32) returns (reply: Reply)
      modifies this
      ensures View() == old(View()).(cursor := window.end, pushed := old(pushed) + [window])
      ensures var due := Wrap(Wrap(window.end + scrapeIntervalSeconds) + scrapeDelaySeconds);
              reply == Reply(TimeLeft(due, serverTsNow), Pushed(window))
    {
      pushed := pushed + [window];
      nextScrapeIntervalStartTs := window.end;
      var nextMinServerTs := Wrap(Wrap(nextScrapeIntervalStartTs + scrapeIntervalSeconds) + scrapeDelaySeconds);
      var nextWaitSeconds: UInt32 := 0;
      if nextMinServerTs > serverTsNow {
        nextWaitSeconds := nextMinServerTs - serverTsNow;
      }
      reply := Reply(nextWaitSeconds, Pushed(window));
    }
  }

  // ---- when the arithmetic is exact ----

  /** The unwrapped time from which the window at the cursor may be scraped. */
  function DueTime(s: Scraper, now: UInt32): int {
    Cursor(s, now) + s.interval + s.delay
  }

  /** A scrape goes ahead before its window is due exactly when the due time does not fit in 32 bits. */
  lemma PrematureExactlyOnOverflow(s: Scraper, now: UInt32)
    requires Ready(s, now)
    ensures now < DueTime(s, now) <==> DueTime(s, now) >= TWO32
  {
  }

  lemma ExactTimes(s: Scraper, now: UInt32)
    requires DueTime(s, now) + s.interval < TWO32
    ensures Wrap(WindowAt(s, now).end + s.delay) == DueTime(s, now)
    ensures Wrap(Wrap(WindowAt(s, now).end + s.interval) + s.delay) == DueTime(s, now) + s.interval
  {
  }

  /** Wherever the due time fits in 32 bits, the wait returned is the time left until the next window is due;
      after an error it is the interval. */
  lemma WaitIsTheTimeLeft(s: Scraper, a: Attempt)
    ensures var reply := Answer(s, a);
            match reply.outcome
            case NotReady =>
              && a.serverNow.Some?
              && (DueTime(s, a.serverNow.value) < TWO32 ==>
                    reply.wait == DueTime(s, a.serverNow.value) - a.serverNow.value > 0)
            case Pushed(_) =>
              && a.serverNow.Some?
              && var due := DueTime(s, a.serverNow.value) + s.interval;
                 due < TWO32 ==> reply.wait == if due > a.serverNow.value then due - a.serverNow.value else 0
            case _ => reply.wait == s.interval
  {
    if a.serverNow.Some? && DueTime(s, a.serverNow.value) + s.interval < TWO32 {
      ExactTimes(s, a.serverNow.value);
    }
  }

  // ---- runs ----

  function Run(interval: UInt32, delay: UInt32, attempts: seq<Attempt>): Scraper {
    if attempts == [] then Scraper(interval, delay, false, 0, [])
    else Next(Run(interval, delay, attempts[..|attempts| - 1]), attempts[|attempts| - 1])
  }

  /** The attempt gets as far as seeing the server's time. */
  predicate SeesClock(s: Scraper, a: Attempt) {
    (s.connected || a.canConnect) && a.serverNow.Some?
  }

  /** The first server time an attempt of the run gets to see. */
  function FirstNow(interval: UInt32, delay: UInt32, attempts: seq<Attempt>): Option<UInt32> {
    if attempts == [] then None
    else
      var n := |attempts| - 1;
      var before := FirstNow(interval, delay, attempts[..n]);
      if before.None? && SeesClock(Run(interval, delay, attempts[..n]), attempts[n]) then attempts[n].serverNow
      else before
  }

  /** Before any server time was seen the cursor is unset and nothing was pushed; afterwards the pushed
      windows tile the time from the first one up to the cursor. */
  ghost predicate Tiled(s: Scraper, first: Option<UInt32>) {
    if first.None? then s.cursor == 0 && s.pushed == []
    else
      && s.cursor == first.value + |s.pushed| * s.interval
      && forall i :: 0 <= i < |s.pushed| ==>
           s.pushed[i].start == first.value + i * s.interval && s.pushed[i].end == first.value + (i + 1) * s.interval
  }

  lemma Products(a: nat, b: nat, interval: UInt32)
    requires a <= b
    ensures a * interval <= b * interval && (a + 1) * interval == a * interval + interval
  {
  }

  /** The first server time after one more attempt. */
  function FirstAfter(s: Scraper, first: Option<UInt32>, a: Attempt): Option<UInt32> {
    if first.None? && SeesClock(s, a) then a.serverNow else first
  }

  predicate Pushes(s: Scraper, a: Attempt) {
    SeesClock(s, a) && Ready(s, a.serverNow.value) && a.scrapeWorks
  }

  predicate NonZero(first: Option<UInt32>) {
    first.Some? ==> first.value != 0
  }

  lemma TiledCursor(s: Scraper, first: Option<UInt32>, a: Attempt)
    requires Tiled(s, first) && SeesClock(s, a) && NonZero(FirstAfter(s, first, a))
    ensures Cursor(s, a.serverNow.value) == FirstAfter(s, first, a).value + |s.pushed| * s.interval
  {
    Products(0, |s.pushed|, s.interval);
  }

  /** A successful push keeps the tiling if and only if the end of its window fits in 32 bits. */
  lemma PushKeepsTilingIff(s: Scraper, first: Option<UInt32>, a: Attempt)
    requires Tiled(s, first) && Pushes(s, a) && NonZero(FirstAfter(s, first, a))
    ensures Tiled(Next(s, a), FirstAfter(s, first, a)) <==> Cursor(s, a.serverNow.value) + s.interval < TWO32
  {
    TiledCursor(s, first, a);
    Products(|s.pushed|, |s.pushed|, s.interval);
    assert |Next(s, a).pushed| == |s.pushed| + 1;
  }

  lemma OtherwiseTiled(s: Scraper, first: Option<UInt32>, a: Attempt)
    requires Tiled(s, first) && !Pushes(s, a) && NonZero(FirstAfter(s, first, a))
    ensures Tiled(Next(s, a), FirstAfter(s, first, a))
  {
    if SeesClock(s, a) {
      TiledCursor(s, first, a);
    }
  }

  /** The windows pushed so far end within 32 bits. */
  predicate Fits(s: Scraper, first: Option<UInt32>) {
    first.Some? ==> first.value + |s.pushed| * s.interval < TWO32
  }

  lemma FitsBefore(s: Scraper, first: Option<UInt32>, a: Attempt)
    requires Fits(Next(s, a), FirstAfter(s, first, a))
    ensures Fits(s, first)
    ensures first.Some? && Pushes(s, a) ==> first.value + |s.pushed| * s.interval + s.interval < TWO32
  {
    Products(|s.pushed|, |s.pushed| + 1, s.interval);
  }

  lemma FitsStep(s: Scraper, first: Option<UInt32>, a: Attempt)
    requires Tiled(s, first) && NonZero(FirstAfter(s, first, a)) && Fits(Next(s, a), FirstAfter(s, first, a))
    ensures Tiled(Next(s, a), FirstAfter(s, first, a))
  {
    if Pushes(s, a) {
      TiledCursor(s, first, a);
      Products(|s.pushed|, |s.pushed|, s.interval);
      PushKeepsTilingIff(s, first, a);
    } else {
      OtherwiseTiled(s, first, a);
    }
  }

  lemma {:induction false} FittingRunIsTiled(interval: UInt32, delay: UInt32, attempts: seq<Attempt>)
    requires NonZero(FirstNow(interval, delay, attempts))
    requires Fits(Run(interval, delay, attempts), FirstNow(interval, delay, attempts))
    ensures Tiled(Run(interval, delay, attempts), FirstNow(interval, delay, attempts))
  {
    if attempts != [] {
      var n := |attempts| - 1;
      var s, first := Run(interval, delay, attempts[..n]), FirstNow(interval, delay, attempts[..n]);
      FitsBefore(s, first, attempts[n]);
      FittingRunIsTiled(interval, delay, attempts[..n]);
      FitsStep(s, first, attempts[n]);
    }
  }

  lemma {:induction false} RunKeepsSettings(interval: UInt32, delay: UInt32, attempts: seq<Attempt>)
    ensures Run(interval, delay, attempts).interval == interval && Run(interval, delay, attempts).delay == delay
  {
    if attempts != [] {
      RunKeepsSettings(interval, delay, attempts[..|attempts| - 1]);
    }
  }

  /** A run whose first server time is not zero tiles time if and only if the windows it pushed end within
      32 bits, however many attempts failed or came too early. */
  lemma TilesExactlyWhenItFits(interval: UInt32, delay: UInt32, attempts: seq<Attempt>)
    requires NonZero(FirstNow(interval, delay, attempts))
    ensures var s, first := Run(interval, delay, attempts), FirstNow(interval, delay, attempts);
            Tiled(s, first) <==> Fits(s, first)
  {
    if Fits(Run(interval, delay, attempts), FirstNow(interval, delay, attempts)) {
      FittingRunIsTiled(interval, delay, attempts);
    }
  }

  /** Over every such run the windows pushed start at the first server time seen, each where the one before
      ended, and each spans exactly one interval. */
  lemma WindowsTileTime(interval: UInt32, delay: UInt32, attempts: seq<Attempt>, i: nat)
    requires NonZero(FirstNow(interval, delay, attempts))
    requires Fits(Run(interval, delay, attempts), FirstNow(interval, delay, attempts))
    requires i < |Run(interval, delay, attempts).pushed|
    ensures var s := Run(interval, delay, attempts);
            && FirstNow(interval, delay, attempts).Some?
            && s.pushed[0].start == FirstNow(interval, delay, attempts).value
            && s.pushed[i].end == s.pushed[i].start + interval
            && (i + 1 < |s.pushed| ==> s.pushed[i + 1].start == s.pushed[i].end)
            && (i + 1 == |s.pushed| ==> s.cursor == s.pushed[i].end)
  {
    FittingRunIsTiled(interval, delay, attempts);
    RunKeepsSettings(interval, delay, attempts);
    Products(i, i, interval);
    Products(0, 0, interval);
  }

  /** After any run, an attempt whose own due time fits in 32 bits scrapes no window before the server time
      reaches the window's end plus the delay. */
  lemma NoWindowTooEarly(interval: UInt32, delay: UInt32, attempts: seq<Attempt>, a: Attempt)
    requires a.serverNow.Some? ==> DueTime(Run(interval, delay, attempts), a.serverNow.value) < TWO32
    ensures var outcome := Answer(Run(interval, delay, attempts), a).outcome;
            outcome.Pushed? || outcome.Failed? ==>
              a.serverNow.Some? && a.serverNow.value >= outcome.window.end + delay
  {
    var s := Run(interval, delay, attempts);
    RunKeepsSettings(interval, delay, attempts);
    if SeesClock(s, a) && Ready(s, a.serverNow.value) {
      PrematureExactlyOnOverflow(s, a.serverNow.value);
    }
  }

  /** At the last second of 32 bits, with an interval and a delay of one second, the cursor wraps to zero,
      which reads as never set: two attempts from the start push the same window twice. */
  lemma WrappedCursorRepeatsAWindow()
    ensures var last: UInt32 := TWO32 - 1;
            var a := Attempt(true, Some(last), true);
            Run(1, 1, [a, a]).pushed == [Window(last, 0), Window(last, 0)]
  {
    var a := Attempt(true, Some(TWO32 - 1), true);
    var start := Scraper(1, 1, false, 0, []);
    assert [a, a][..1] == [a] && [a][..0] == [];
    assert Run(1, 1, []) == start;
    assert Run(1, 1, [a]) == Next(start, a);
    assert Run(1, 1, [a, a]) == Next(Next(start, a), a);
  }
}
