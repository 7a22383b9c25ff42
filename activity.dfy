/**
 * The crawl session of MainActivity.java: the `crawlingRunning` flag and the
 * `crawledUrlCount` counter, driven by the start and stop buttons, by the
 * crawling callbacks and by the delayed stop message. Views, Toasts and the
 * logcat dump of the database are left out.
 */
module Activity {
  import opened Crawler

  /** The delay of the stop message; every message in `handler` is a stop message. */
  const CrawlingRunningTimeMs := 60000

  /** The two session fields of MainActivity. */
  datatype Session = Session(running: bool, count: int)

  /** onClick on the start button: an empty URL only shows a Toast. */
  function AfterStart(s: Session, webUrl: string): Session
  {
    if webUrl == "" then s else Session(true, s.count)
  }

  /** onPageCrawlingCompleted: one more page crawled. */
  function AfterPage(s: Session): Session
  {
    Session(s.running, s.count + 1)
  }

  /** stopCrawling: a running session is stopped and its counter reset; otherwise nothing happens. */
  function AfterStop(s: Session): Session
  {
    if s.running then Session(false, 0) else s
  }

  /** An empty URL changes nothing; a non-empty one starts the session and keeps the counter. */
  lemma StartGuard(s: Session, webUrl: string)
    ensures webUrl == "" ==> AfterStart(s, webUrl) == s
    ensures webUrl != "" ==> AfterStart(s, webUrl).running && AfterStart(s, webUrl).count == s.count
  {
  }

  /** Each completed page adds exactly one to the counter. */
  lemma PageCounts(s: Session)
    ensures AfterPage(s).count == s.count + 1 && AfterPage(s).running == s.running
  {
  }

  /** Stopping leaves the session not running; a running session also loses its count. */
  lemma StopResets(s: Session)
    ensures !AfterStop(s).running
    ensures s.running ==> AfterStop(s).count == 0
    ensures !s.running ==> AfterStop(s) == s
  {
  }

  /** stopCrawling is idempotent. */
  lemma StopIdempotent(s: Session)
    ensures AfterStop(AfterStop(s)) == AfterStop(s)
  {
  }

  /**
   * A session started from an idle state, after any number of completed pages,
   * ends idle with a zero counter however many times it is stopped.
   */
  lemma {:induction false} SessionRoundTrip(s: Session, webUrl: string, pages: nat, stops: nat)
    requires !s.running && webUrl != "" && stops >= 1
    ensures StopTimes(PageTimes(AfterStart(s, webUrl), pages), stops) == Session(false, 0)
  {
    PageTimesKeepsRunning(AfterStart(s, webUrl), pages);
    StopTimesAfterRunning(PageTimes(AfterStart(s, webUrl), pages), stops);
  }

  /** `n` completed pages in a row. */
  function PageTimes(s: Session, n: nat): Session
  {
    if n == 0 then s else AfterPage(PageTimes(s, n - 1))
  }

  /** `n` stops in a row. */
  function StopTimes(s: Session, n: nat): Session
  {
    if n == 0 then s else AfterStop(StopTimes(s, n - 1))
  }

  lemma {:induction false} PageTimesKeepsRunning(s: Session, n: nat)
    ensures PageTimes(s, n).running == s.running
    ensures PageTimes(s, n).count == s.count + n
  {
    if n > 0 {
      PageTimesKeepsRunning(s, n - 1);
    }
  }

  lemma {:induction false} StopTimesAfterRunning(s: Session, n: nat)
    requires s.running && n >= 1
    ensures StopTimes(s, n) == Session(false, 0)
  {
    if n > 1 {
      StopTimesAfterRunning(s, n - 1);
    }
  }

  /** MainActivity with widgets abstracted away; it owns one WebCrawler. */
  class MainActivity {
    const crawler: WebCrawler
    var crawledUrlCount: int
    var crawlingRunning: bool
    /** Delays (ms) of the MSG_STOP_CRAWLING messages waiting in `handler`. */
    var stopMessages: seq<int>
    /** Starts with a non-empty URL so far. */
    ghost var sessions: nat
    /** Calls of crawler.stopCrawlerTasks so far. */
    ghost var stopRequests: nat

    /**
     * A running session has a manager to stop, and the crawler is stopped at
     * most once per session.
     */
    ghost predicate Valid()
      reads this, crawler
    {
      && crawler.Valid()
      && (crawlingRunning ==> crawler.manager != null)
      && stopRequests + (if crawlingRunning then 1 else 0) <= sessions
    }

    ghost function View(): Session
      reads this
    {
      Session(crawlingRunning, crawledUrlCount)
    }

    /** onCreate: a fresh crawler over the database left by earlier runs. */
    constructor (ghost stored: seq<(string, string)>)
      requires SavedWellFormed(stored)
      ensures Valid()
      ensures View() == Session(false, 0) && stopMessages == [] && sessions == 0 && stopRequests == 0
      ensures fresh(crawler) && crawler.State() == Frontier({}, [], stored) && crawler.manager == null
      ensures crawler.events == [] && crawler.refillSignals == 0
    {
      crawler := new WebCrawler(stored);
      crawledUrlCount, crawlingRunning, stopMessages := 0, false, [];
      sessions, stopRequests := 0, 0;
    }

    /**
     * onClick on the start button: a non-empty URL starts a root crawl and
     * schedules the stop message 60000 ms later.
     */
    method OnClickStart(webUrl: string)
      requires Valid()
      modifies this, crawler, crawler.manager
      ensures Valid()
      ensures View() == AfterStart(old(View()), webUrl)
      ensures webUrl == "" ==>
        && unchanged(this) && unchanged(crawler)
        && (crawler.manager != null ==> unchanged(crawler.manager))
      ensures webUrl != "" ==>
        && crawler.State() == EmptyFrontier && fresh(crawler.manager)
        && crawler.manager.active == 0 && !crawler.manager.shutdown && crawler.manager.executed == [webUrl]
        && stopMessages == old(stopMessages) + [CrawlingRunningTimeMs]
        && sessions == old(sessions) + 1 && stopRequests == old(stopRequests)
        && (old(crawler.manager) != null ==> unchanged(old(crawler.manager)))
      ensures crawler.events == old(crawler.events) && crawler.refillSignals == old(crawler.refillSignals)
    {
      if webUrl == "" {
        // a Toast asks for a URL
      } else {
        crawlingRunning := true;
        crawler.StartCrawlerTask(webUrl, true);
        sessions := sessions + 1;
        stopMessages := stopMessages + [CrawlingRunningTimeMs];
      }
    }

    /** mCallback.onPageCrawlingCompleted. */
    method OnPageCrawlingCompleted()
      modifies this`crawledUrlCount
      ensures View() == AfterPage(old(View()))
    {
      crawledUrlCount := crawledUrlCount + 1;
    }

    /** stopCrawling: shut the crawler down once, reset the session. */
    method StopCrawling()
      requires Valid()
      modifies this, crawler.manager
      ensures Valid()
      ensures View() == AfterStop(old(View()))
      ensures old(crawlingRunning) ==> crawler.manager.shutdown && stopRequests == old(stopRequests) + 1
      ensures !old(crawlingRunning) ==>
        && stopRequests == old(stopRequests)
        && (crawler.manager != null ==> unchanged(crawler.manager))
      ensures crawler.manager != null ==>
        crawler.manager.active == old(crawler.manager.active) && crawler.manager.executed == old(crawler.manager.executed)
      ensures stopMessages == old(stopMessages) && sessions == old(sessions)
    {
      if crawlingRunning {
        crawler.StopCrawlerTasks();
        stopRequests := stopRequests + 1;
        crawlingRunning := false;
        crawledUrlCount := 0;
      }
    }

    /** mCallback.onCrawlingCompleted: the same transition as the stop button. */
    method OnCrawlingCompleted()
      requires Valid()
      modifies this, crawler.manager
      ensures Valid()
      ensures View() == AfterStop(old(View()))
      ensures old(crawlingRunning) ==> crawler.manager.shutdown && stopRequests == old(stopRequests) + 1
      ensures !old(crawlingRunning) ==>
        && stopRequests == old(stopRequests)
        && (crawler.manager != null ==> unchanged(crawler.manager))
      ensures crawler.manager != null ==>
        crawler.manager.active == old(crawler.manager.active) && crawler.manager.executed == old(crawler.manager.executed)
      ensures stopMessages == old(stopMessages) && sessions == old(sessions)
    {
      StopCrawling();
    }

    /** onClick on the stop button: drop the scheduled stop messages, then stop. */
    method OnClickStop()
      requires Valid()
      modifies this, crawler.manager
      ensures Valid()
      ensures View() == AfterStop(old(View()))
      ensures old(crawlingRunning) ==> crawler.manager.shutdown && stopRequests == old(stopRequests) + 1
      ensures !old(crawlingRunning) ==>
        && stopRequests == old(stopRequests)
        && (crawler.manager != null ==> unchanged(crawler.manager))
      ensures crawler.manager != null ==>
        crawler.manager.active == old(crawler.manager.active) && crawler.manager.executed == old(crawler.manager.executed)
      ensures stopMessages == [] && sessions == old(sessions)
    {
      stopMessages := [];
      StopCrawling();
    }

    /** handler.handleMessage: the delayed stop message arrives. */
    method HandleStopMessage()
      requires Valid()
      requires stopMessages != []
      modifies this, crawler.manager
      ensures Valid()
      ensures View() == AfterStop(old(View()))
      ensures old(crawlingRunning) ==> crawler.manager.shutdown && stopRequests == old(stopRequests) + 1
      ensures !old(crawlingRunning) ==>
        && stopRequests == old(stopRequests)
        && (crawler.manager != null ==> unchanged(crawler.manager))
      ensures crawler.manager != null ==>
        crawler.manager.active == old(crawler.manager.active) && crawler.manager.executed == old(crawler.manager.executed)
      ensures stopMessages == old(stopMessages)[1..] && sessions == old(sessions)
    {
      stopMessages := stopMessages[1..];
      StopCrawling();
    }

    /**
     * A crawler task runs for `url` and its callbacks reach mCallback: the
     * counter grows by one exactly when the page was completed; failure
     * callbacks do nothing and the crawler never reports the end of the crawl.
     */
    method CrawlPage(url: string, outcome: FetchOutcome, links: seq<string>)
      requires Valid()
      requires crawler.manager != null
      modifies this, crawler
      ensures Valid()
      ensures crawler.State() == AfterTask(old(crawler.State()), url, Content(outcome), links)
      ensures crawler.events == old(crawler.events) + TaskCallbacks(url, outcome)
      ensures View() == if Content(outcome) != "" then AfterPage(old(View())) else old(View())
      ensures stopMessages == old(stopMessages) && sessions == old(sessions) && stopRequests == old(stopRequests)
      ensures crawler.refillSignals == old(crawler.refillSignals) + (if Aborts(outcome) then 0 else 1)
      ensures crawler.manager == old(crawler.manager)
      ensures crawler.manager != null ==> unchanged(crawler.manager)
    {
      var fired := crawler.RunTask(url, outcome, links);
      if Aborts(outcome) {
        NonHttpUrlAborts(url);
      } else {
        TaskVerdict(url, outcome);
      }
      if PageCrawlingCompleted in fired {
        OnPageCrawlingCompleted();
      }
    }
  }
}
