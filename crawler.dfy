/**
 * The crawling engine of WebCrawler.java: the visited set and the FIFO
 * queue of pending URLs, the per-URL crawler task, the refill handler and
 * the thread-pool manager reduced to a slot counter and a shutdown flag.
 *
 * Every `synchronized (lock)` block of the source is one atomic step here,
 * so the engine is a sequential class. Network access and HTML parsing are
 * inputs: a task receives the outcome of its fetch and the `href` strings
 * Jsoup would have extracted from the page.
 */
module Crawler {

  /**
   * Pool sizes of RunnableManager. Over an unbounded work queue the executor
   * never starts more than the core number of threads.
   */
  const CorePoolSize := 5
  const MaximumPoolSize := 8

  /** HTTP status accepted as a successful fetch. */
  const ScOk := 200
  const ConnectTimeoutMs := 5000
  const ReadTimeoutMs := 5000

  /** Error code of a failure that carries no HTTP status. */
  const NoStatus := -1

  /** The three methods of CrawlingCallback, as events. */
  datatype Callback =
    | PageCrawlingCompleted
    | PageCrawlingFailed(url: string, errorCode: int)
    | CrawlingCompleted

  /**
   * What the network did for one fetch.
   * MalformedUrl: `new URL(Url)` threw, so nothing is fetched.
   * NonHttpUrl: the URL parsed but its scheme (file:, ftp:, jar:, ...) does
   * not give an HttpURLConnection, so the cast throws a ClassCastException
   * that nothing catches and the task ends there.
   * ConnectFailed: opening the connection or reading the status threw an IOException.
   * Response: the server answered with `status`; when that is 200 the body
   * supplied `lines` (as readLine returns them), and `readFailed` says that
   * an IOException ended the reading after those lines.
   */
  datatype FetchOutcome =
    | MalformedUrl
    | NonHttpUrl
    | ConnectFailed
    | Response(status: int, lines: seq<string>, readFailed: bool)

  /** The lines appended to the StringBuilder, without separators. */
  function Concat(lines: seq<string>): string
  {
    if lines == [] then "" else lines[0] + Concat(lines[1..])
  }

  lemma {:induction false} ConcatSnoc(lines: seq<string>, line: string)
    ensures Concat(lines + [line]) == Concat(lines) + line
  {
    if lines == [] {
      assert lines + [line] == [line];
      assert Concat([line]) == line + Concat([]);
    } else {
      assert (lines + [line])[1..] == lines[1..] + [line];
      ConcatSnoc(lines[1..], line);
    }
  }

  /** The content is empty exactly when every line read was empty. */
  lemma {:induction false} ConcatEmpty(lines: seq<string>)
    ensures Concat(lines) == "" <==> forall i :: 0 <= i < |lines| ==> lines[i] == ""
  {
    if lines != [] {
      ConcatEmpty(lines[1..]);
      assert forall i :: 1 <= i < |lines| ==> lines[i] == lines[1..][i - 1];
    }
  }

  /** The lines retreiveHtmlContent reads before it stops. */
  function LinesRead(outcome: FetchOutcome): seq<string>
  {
    match outcome
    case MalformedUrl => []
    case NonHttpUrl => []
    case ConnectFailed => []
    case Response(status, lines, _) => if status == ScOk then lines else []
  }

  /** The string retreiveHtmlContent returns. */
  function Content(outcome: FetchOutcome): string
  {
    Concat(LinesRead(outcome))
  }

  /** The callbacks retreiveHtmlContent fires itself. */
  function RetrievalCallbacks(url: string, outcome: FetchOutcome): seq<Callback>
  {
    match outcome
    case MalformedUrl => []
    case NonHttpUrl => []
    case ConnectFailed => [PageCrawlingFailed(url, NoStatus)]
    case Response(status, _, readFailed) =>
      if status != ScOk then [PageCrawlingFailed(url, status)]
      else if readFailed then [PageCrawlingFailed(url, NoStatus)]
      else []
  }

  /** The fetch ends the task with an exception that leaves CrawlerRunnable.run. */
  predicate Aborts(outcome: FetchOutcome)
  {
    outcome.NonHttpUrl?
  }

  /** All callbacks one run of a crawler task fires, in order. */
  function TaskCallbacks(url: string, outcome: FetchOutcome): seq<Callback>
  {
    if Aborts(outcome) then []
    else
      RetrievalCallbacks(url, outcome)
        + (if Content(outcome) != "" then [PageCrawlingCompleted] else [PageCrawlingFailed(url, NoStatus)])
  }

  /**
   * CrawlerRunnable.retreiveHtmlContent: fetch the page, firing a failure
   * callback on an I/O error or a non-200 status, and return whatever lines
   * were read before the failure, concatenated. `aborted` says that an
   * uncaught exception left the method instead.
   */
  method RetreiveHtmlContent(url: string, outcome: FetchOutcome)
    returns (content: string, fired: seq<Callback>, aborted: bool)
    ensures aborted == Aborts(outcome)
    ensures content == Content(outcome)
    ensures fired == RetrievalCallbacks(url, outcome)
  {
    content, fired, aborted := "", [], false;
    match outcome {
      case MalformedUrl =>
        // httpUrl stays null: no connection is opened and nothing is reported
      case NonHttpUrl =>
        // the cast to HttpURLConnection throws; no handler catches it
        aborted := true;
      case ConnectFailed =>
        fired := [PageCrawlingFailed(url, NoStatus)];
      case Response(responseCode, lines, readFailed) =>
        if responseCode != ScOk {
          fired := [PageCrawlingFailed(url, responseCode)];
        } else {
          var i := 0;
          while i < |lines|
            invariant 0 <= i <= |lines|
            invariant content == Concat(lines[..i])
          {
            assert lines[..i + 1] == lines[..i] + [lines[i]];
            ConcatSnoc(lines[..i], lines[i]);
            content := content + lines[i];
            i := i + 1;
          }
          assert lines[..|lines|] == lines;
          if readFailed {
            fired := [PageCrawlingFailed(url, NoStatus)];
          }
        }
    }
  }

  /** A non-200 answer is reported twice: with its status, then with -1 for the empty page. */
  lemma BadStatusFailsTwice(url: string, status: int, lines: seq<string>, readFailed: bool)
    requires status != ScOk
    ensures Content(Response(status, lines, readFailed)) == ""
    ensures TaskCallbacks(url, Response(status, lines, readFailed))
         == [PageCrawlingFailed(url, status), PageCrawlingFailed(url, NoStatus)]
  {
  }

  /** A malformed URL is reported once, by the task, with -1. */
  lemma MalformedUrlFailsOnce(url: string)
    ensures Content(MalformedUrl) == ""
    ensures TaskCallbacks(url, MalformedUrl) == [PageCrawlingFailed(url, NoStatus)]
  {
  }

  /**
   * An I/O error before any content is read (while connecting, reading the
   * status, opening the stream, or after only empty lines) is reported twice with -1.
   */
  lemma IoErrorWithoutContentFailsTwice(url: string, outcome: FetchOutcome)
    requires outcome == ConnectFailed
      || (outcome.Response? && outcome.status == ScOk && outcome.readFailed && Content(outcome) == "")
    ensures TaskCallbacks(url, outcome) == [PageCrawlingFailed(url, NoStatus), PageCrawlingFailed(url, NoStatus)]
  {
  }

  /** A URL of another scheme ends the task with no callback and no content. */
  lemma NonHttpUrlAborts(url: string)
    ensures Aborts(NonHttpUrl) && Content(NonHttpUrl) == ""
    ensures TaskCallbacks(url, NonHttpUrl) == []
  {
  }

  /**
   * An I/O error after some non-empty lines still yields a completed page:
   * the failure with -1 is followed by onPageCrawlingCompleted.
   */
  lemma PartialReadCompletes(url: string, lines: seq<string>)
    requires exists i :: 0 <= i < |lines| && lines[i] != ""
    ensures Content(Response(ScOk, lines, true)) != ""
    ensures TaskCallbacks(url, Response(ScOk, lines, true)) == [PageCrawlingFailed(url, NoStatus), PageCrawlingCompleted]
  {
    ConcatEmpty(lines);
  }

  /**
   * Every task ends with exactly one verdict on its page: its last callback is
   * onPageCrawlingCompleted when the content is non-empty and a failure with -1
   * otherwise; the page is reported completed at most once and only then, every
   * failure names the task's URL, and onCrawlingCompleted is never fired.
   */
  lemma TaskVerdict(url: string, outcome: FetchOutcome)
    requires !Aborts(outcome)
    ensures var cs := TaskCallbacks(url, outcome);
      && 1 <= |cs| <= 2
      && (cs[|cs| - 1] == PageCrawlingCompleted <==> Content(outcome) != "")
      && (Content(outcome) == "" <==> cs[|cs| - 1] == PageCrawlingFailed(url, NoStatus))
      && (forall i :: 0 <= i < |cs| - 1 ==> cs[i] != PageCrawlingCompleted)
      && (forall i :: 0 <= i < |cs| ==> cs[i] != CrawlingCompleted)
      && (forall i :: 0 <= i < |cs| && cs[i].PageCrawlingFailed? ==> cs[i].url == url)
  {
  }

  /** A successful (200, fully read) fetch fires only onPageCrawlingCompleted, exactly when some line is non-empty. */
  lemma CleanFetchCallbacks(url: string, lines: seq<string>)
    ensures (exists i :: 0 <= i < |lines| && lines[i] != "")
        <==> TaskCallbacks(url, Response(ScOk, lines, false)) == [PageCrawlingCompleted]
  {
    ConcatEmpty(lines);
    var cs := TaskCallbacks(url, Response(ScOk, lines, false));
    if Concat(lines) != "" {
      assert cs == [] + [PageCrawlingCompleted];
    } else {
      assert cs == [] + [PageCrawlingFailed(url, NoStatus)];
      assert cs[0] != PageCrawlingCompleted;
    }
  }

  /** The saved-page store never holds an empty body. */
  predicate SavedWellFormed(saved: seq<(string, string)>)
  {
    forall i :: 0 <= i < |saved| ==> saved[i].1 != ""
  }

  /** The abstract state of the engine: crawledURL, uncrawledURL and the DB table. */
  datatype Frontier = Frontier(visited: set<string>, pending: seq<string>, saved: seq<(string, string)>)

  /** The state a root start leaves behind. */
  const EmptyFrontier := Frontier({}, [], [])

  /** The extracted links the task appends to uncrawledURL, in extraction order. */
  function NewLinks(links: seq<string>, visited: set<string>): seq<string>
  {
    if links == [] then []
    else (if links[0] != "" && links[0] !in visited then [links[0]] else []) + NewLinks(links[1..], visited)
  }

  /** Links are filtered one by one, so the filter distributes over concatenation. */
  lemma {:induction false} NewLinksAppend(a: seq<string>, b: seq<string>, visited: set<string>)
    ensures NewLinks(a + b, visited) == NewLinks(a, visited) + NewLinks(b, visited)
  {
    if a == [] {
      assert a + b == b;
    } else {
      assert (a + b)[0] == a[0];
      assert (a + b)[1..] == a[1..] + b;
      NewLinksAppend(a[1..], b, visited);
    }
  }

  /** A link is appended exactly when it occurs among the extracted links, is non-empty and is not visited. */
  lemma {:induction false} NewLinksMembers(links: seq<string>, visited: set<string>, x: string)
    ensures x in NewLinks(links, visited) <==> x in links && x != "" && x !in visited
  {
    if links != [] {
      NewLinksMembers(links[1..], visited, x);
      assert links == [links[0]] + links[1..];
    }
  }

  /** Nothing prevents duplicates: the same link extracted twice is queued twice. */
  lemma NewLinksKeepsDuplicates(u: string, visited: set<string>)
    requires u != "" && u !in visited
    ensures NewLinks([u, u], visited) == [u, u]
  {
    assert [u, u][1..] == [u];
    assert [u][1..] == [];
    assert NewLinks([u], visited) == [u];
  }

  /**
   * CrawlerRunnable.run on the frontier: a task whose content is non-empty saves
   * the page, marks its own URL visited and then queues the new links; a task
   * with empty content changes nothing.
   */
  function AfterTask(f: Frontier, url: string, content: string, links: seq<string>): Frontier
  {
    if content == "" then f
    else
      var visited := f.visited + {url};
      Frontier(visited, f.pending + NewLinks(links, visited), f.saved + [(url, content)])
  }

  /** The visited set gains only the task's URL, and only when its content is non-empty. */
  lemma AfterTaskVisited(f: Frontier, url: string, content: string, links: seq<string>)
    ensures var g := AfterTask(f, url, content, links);
      && f.visited <= g.visited
      && g.visited - f.visited <= {url}
      && (url in g.visited <==> url in f.visited || content != "")
  {
  }

  /** An empty page leaves the whole frontier, the store included, as it was. */
  lemma AfterTaskEmptyContent(f: Frontier, url: string, links: seq<string>)
    ensures AfterTask(f, url, "", links) == f
  {
  }

  /**
   * The queue keeps its old contents as a prefix; what is appended are exactly
   * the extracted links that are non-empty and not visited, the task's own URL
   * never among them.
   */
  lemma {:induction false} AfterTaskPending(f: Frontier, url: string, content: string, links: seq<string>)
    requires content != ""
    ensures var g := AfterTask(f, url, content, links);
      && |f.pending| <= |g.pending|
      && g.pending[..|f.pending|] == f.pending
      && (forall x :: x in g.pending[|f.pending|..] <==> x in links && x != "" && x !in g.visited)
      && url !in g.pending[|f.pending|..]
  {
    var g := AfterTask(f, url, content, links);
    assert g.pending[|f.pending|..] == NewLinks(links, g.visited);
    forall x {
      NewLinksMembers(links, g.visited, x);
    }
  }

  /** The store gains exactly the task's page when its content is non-empty, and stays free of empty bodies. */
  lemma AfterTaskSaved(f: Frontier, url: string, content: string, links: seq<string>)
    requires SavedWellFormed(f.saved)
    ensures var g := AfterTask(f, url, content, links);
      && SavedWellFormed(g.saved)
      && g.saved[..|f.saved|] == f.saved
      && |g.saved| == |f.saved| + (if content == "" then 0 else 1)
      && (content != "" ==> g.saved[|f.saved|] == (url, content))
  {
  }

  /**
   * How many URLs the refill handler takes off the queue when the pool has
   * `free` unused slots and `queued` URLs are waiting: as many as both allow.
   */
  function RefillCount(free: int, queued: nat): (k: nat)
    ensures k <= queued
    ensures free <= 0 ==> k == 0
    ensures free > 0 ==> k <= free && (k == free || k == queued)
  {
    if free <= 0 then 0 else if free < queued then free else queued
  }

  /** What the refill handler leaves in the queue: the URLs it did not take, in order. */
  function AfterRefill(f: Frontier, free: int): Frontier
  {
    Frontier(f.visited, f.pending[RefillCount(free, |f.pending|)..], f.saved)
  }

  /** The URLs the refill handler starts, oldest first. */
  function Dispatched(f: Frontier, free: int): seq<string>
  {
    f.pending[..RefillCount(free, |f.pending|)]
  }

  /** Refill splits the queue: what it starts followed by what it leaves is the old queue. */
  lemma RefillSplitsQueue(f: Frontier, free: int)
    ensures Dispatched(f, free) + AfterRefill(f, free).pending == f.pending
    ensures AfterRefill(f, free).visited == f.visited && AfterRefill(f, free).saved == f.saved
    ensures f.pending != [] && free > 0 ==> Dispatched(f, free) != [] && Dispatched(f, free)[0] == f.pending[0]
  {
  }

  /** Scenario, first step: seed A answers 200 with a page linking to B and to A itself. */
  lemma ScenarioSeed(a: string, b: string, body: string)
    requires a != "" && b != "" && a != b && body != ""
    ensures TaskCallbacks(a, Response(ScOk, [body], false)) == [PageCrawlingCompleted]
    ensures AfterTask(EmptyFrontier, a, Content(Response(ScOk, [body], false)), [b, a]) == Frontier({a}, [b], [(a, body)])
  {
    assert Concat([body]) == body + Concat([]);
    assert body + "" == body;
    assert Content(Response(ScOk, [body], false)) == body;
    var f1 := AfterTask(EmptyFrontier, a, body, [b, a]);
    assert [b, a][1..] == [a] && [a][1..] == [];
    assert NewLinks([a], {a}) == [] + NewLinks([], {a});
    assert NewLinks([b, a], {a}) == [b] + NewLinks([a], {a});
    assert EmptyFrontier.visited + {a} == {a};
    assert f1.pending == [] + [b];
    assert f1.saved == [] + [(a, body)];
    assert f1 == Frontier({a}, [b], [(a, body)]);
    assert TaskCallbacks(a, Response(ScOk, [body], false)) == [] + [PageCrawlingCompleted];
  }

  /** Scenario, second step: the refill handler starts B, whatever the number of free slots. */
  lemma ScenarioRefill(a: string, b: string, body: string, free: int)
    requires free > 0
    ensures Dispatched(Frontier({a}, [b], [(a, body)]), free) == [b]
    ensures AfterRefill(Frontier({a}, [b], [(a, body)]), free) == Frontier({a}, [], [(a, body)])
  {
    assert RefillCount(free, 1) == 1;
    assert [b][1..] == [] && [b][..1] == [b];
  }

  /** Scenario, third step: B answers 404 and changes nothing but the callbacks. */
  lemma ScenarioMissingPage(a: string, b: string, body: string, links: seq<string>)
    ensures TaskCallbacks(b, Response(404, [], false)) == [PageCrawlingFailed(b, 404), PageCrawlingFailed(b, NoStatus)]
    ensures AfterTask(Frontier({a}, [], [(a, body)]), b, Content(Response(404, [], false)), links)
         == Frontier({a}, [], [(a, body)])
  {
    assert Content(Response(404, [], false)) == "";
    assert TaskCallbacks(b, Response(404, [], false)) == [PageCrawlingFailed(b, 404)] + [PageCrawlingFailed(b, NoStatus)];
  }

  /**
   * Seed A (a page linking to B and to A itself) followed by B answering 404:
   * A is saved once and never queued, B is started by the refill and reported
   * failed with 404 and then -1, and the store holds exactly A's page.
   */
  lemma {:induction false} ScenarioSelfLinkAndMissingPage(a: string, b: string, body: string, active: nat)
    requires a != "" && b != "" && a != b && body != "" && active < MaximumPoolSize
    ensures var f1 := AfterTask(EmptyFrontier, a, Content(Response(ScOk, [body], false)), [b, a]);
      var f2 := AfterRefill(f1, MaximumPoolSize - active);
      var f3 := AfterTask(f2, b, Content(Response(404, [], false)), []);
      && TaskCallbacks(a, Response(ScOk, [body], false)) == [PageCrawlingCompleted]
      && a !in f1.pending && Dispatched(f1, MaximumPoolSize - active) == [b]
      && TaskCallbacks(b, Response(404, [], false)) == [PageCrawlingFailed(b, 404), PageCrawlingFailed(b, NoStatus)]
      && f3 == Frontier({a}, [], [(a, body)])
  {
    ScenarioSeed(a, b, body);
    ScenarioRefill(a, b, body, MaximumPoolSize - active);
    ScenarioMissingPage(a, b, body, []);
  }

  /**
   * A failed URL is not marked visited, so a later page that links to it
   * queues it again, so the URL can be fetched again.
   */
  lemma FailedUrlIsQueuedAgain(f: Frontier, b: string, outcome: FetchOutcome, c: string, body: string)
    requires b != "" && b != c && body != "" && b !in f.visited && Content(outcome) == ""
    ensures var g := AfterTask(AfterTask(f, b, Content(outcome), []), c, body, [b]);
      b !in g.visited && g.pending == f.pending + [b]
  {
    var f1 := AfterTask(f, b, Content(outcome), []);
    assert f1 == f;
    assert [b][1..] == [];
    assert NewLinks([b], f.visited + {c}) == [b] + NewLinks([], f.visited + {c});
  }

  /**
   * A URL queued twice and then crawled successfully from its first copy stays
   * in the queue although it is now visited: the queue and the visited set can overlap.
   */
  lemma QueuedUrlCanBecomeVisited(a: string, u: string, body: string, body2: string)
    requires a != "" && u != "" && a != u && body != "" && body2 != ""
    ensures var f1 := AfterTask(EmptyFrontier, a, body, [u, u]);
      var f2 := AfterRefill(f1, 1);
      var f3 := AfterTask(f2, u, body2, []);
      && f1.pending == [u, u]
      && Dispatched(f1, 1) == [u]
      && u in f3.visited && f3.pending == [u]
  {
    NewLinksKeepsDuplicates(u, {a});
    var f1 := AfterTask(EmptyFrontier, a, body, [u, u]);
    assert EmptyFrontier.visited + {a} == {a};
    assert f1.pending == [] + [u, u];
    assert f1.saved == [] + [(a, body)];
    assert f1 == Frontier({a}, [u, u], [(a, body)]);
    assert RefillCount(1, 2) == 1;
    assert [u, u][1..] == [u] && [u, u][..1] == [u];
    var f2 := AfterRefill(f1, 1);
    assert f2 == Frontier({a}, [u], [(a, body)]);
    assert NewLinks([], {a, u}) == [];
  }

  /**
   * RunnableManager: the ThreadPoolExecutor as seen by the crawler, namely the
   * number of threads executing a task, whether shutdown has begun, and the
   * tasks handed to it.
   */
  class RunnableManager {
    var active: nat
    var shutdown: bool
    /** URLs of the crawler tasks passed to execute(), in order. */
    ghost var executed: seq<string>

    constructor ()
      ensures active == 0 && !shutdown && executed == []
    {
      active, shutdown := 0, false;
      executed := [];
    }

    /** getUnusedPoolSize: the maximum pool size minus the active threads. */
    function UnusedPoolSize(): (free: int)
      reads this
      ensures free <= MaximumPoolSize
      ensures free == MaximumPoolSize <==> active == 0
    {
      MaximumPoolSize - active
    }

    /** isShuttingDown: shutdown has been requested (the pool is shut down or terminating). */
    predicate IsShuttingDown()
      reads this
    {
      shutdown
    }

    /**
     * addToCrawlingQueue: execute() on the pool. A pool that is shutting down
     * rejects the task with an exception the source never catches, so the
     * caller must have checked IsShuttingDown().
     */
    method AddToCrawlingQueue(url: string)
      requires !shutdown
      modifies this
      ensures executed == old(executed) + [url]
      ensures active == old(active) && shutdown == old(shutdown)
    {
      executed := executed + [url];
    }

    /** cancelAllRunnable: shutdownNow(). Running tasks are only interrupted, so the active count stays. */
    method CancelAllRunnable()
      modifies this
      ensures shutdown
      ensures active == old(active) && executed == old(executed)
    {
      shutdown := true;
    }

    /**
     * Worker threads pick up or finish tasks on their own; the crawler only
     * sees the new active count, which never exceeds the core pool size.
     */
    method SetActiveCount(n: nat)
      requires n <= CorePoolSize
      modifies this
      ensures active == n
      ensures shutdown == old(shutdown) && executed == old(executed)
    {
      active := n;
    }
  }

  /** WebCrawler: the frontier, the saved pages, the current manager and the callbacks fired. */
  class WebCrawler {
    /** crawledURL */
    var visited: set<string>
    /** uncrawledURL, front first */
    var pending: seq<string>
    /** Rows of the crawler database table as (url, page content). */
    ghost var saved: seq<(string, string)>
    /** mManager; null until the first root start. */
    var manager: RunnableManager?
    /** Every callback fired so far, in order. */
    ghost var events: seq<Callback>
    /** Messages sent to mHandler and not yet handled. */
    ghost var refillSignals: nat

    /**
     * No empty body is stored, and URLs are queued only by a task, which runs
     * only after a root start has installed a manager (never reset to null).
     */
    ghost predicate Valid()
      reads this
    {
      && SavedWellFormed(saved)
      && (pending != [] ==> manager != null)
    }

    ghost function State(): Frontier
      reads this
    {
      Frontier(visited, pending, saved)
    }

    /** The constructor: empty collections; the database keeps what earlier runs stored. */
    constructor (ghost stored: seq<(string, string)>)
      requires SavedWellFormed(stored)
      ensures Valid()
      ensures State() == Frontier({}, [], stored)
      ensures manager == null && events == [] && refillSignals == 0
    {
      visited, pending, manager := {}, [], null;
      saved, events, refillSignals := stored, [], 0;
    }

    /** clearDB: delete every row of the table. */
    method ClearDB()
      modifies this`saved
      ensures saved == []
    {
      saved := [];
    }

    /** insertIntoCrawlerDB: store the page unless its body is empty. */
    method InsertIntoCrawlerDB(url: string, result: string)
      requires Valid()
      modifies this`saved
      ensures Valid()
      ensures saved == if result == "" then old(saved) else old(saved) + [(url, result)]
    {
      if result == "" {
        return;
      }
      saved := saved + [(url, result)];
    }

    /**
     * startCrawlerTask: a root start clears both collections and the database
     * and installs a fresh manager; then the task is submitted unless the
     * manager is shutting down, in which case it is dropped.
     */
    method StartCrawlerTask(url: string, isRoot: bool)
      requires Valid()
      requires isRoot || manager != null
      modifies this, manager
      ensures Valid()
      ensures isRoot ==>
        && State() == EmptyFrontier && fresh(manager)
        && manager.active == 0 && !manager.shutdown && manager.executed == [url]
      ensures !isRoot ==>
        && State() == old(State()) && manager == old(manager)
        && manager.active == old(manager.active) && manager.shutdown == old(manager.shutdown)
        && manager.executed == old(manager.executed) + (if old(manager.shutdown) then [] else [url])
      ensures isRoot && old(manager) != null ==> unchanged(old(manager))
      ensures events == old(events) && refillSignals == old(refillSignals)
    {
      if isRoot {
        visited := {};
        pending := [];
        ClearDB();
        manager := new RunnableManager();
      }
      if !manager.IsShuttingDown() {
        manager.AddToCrawlingQueue(url);
      }
    }

    /** stopCrawlerTasks: shut the current manager down; later submissions are dropped. */
    method StopCrawlerTasks()
      requires manager != null
      modifies manager
      ensures manager.shutdown
      ensures manager.active == old(manager.active) && manager.executed == old(manager.executed)
    {
      manager.CancelAllRunnable();
    }

    /** The link loop of CrawlerRunnable.run: queue every non-empty extracted link not yet visited. */
    method EnqueueLinks(links: seq<string>)
      modifies this`pending
      ensures pending == old(pending) + NewLinks(links, visited)
    {
      for i := 0 to |links|
        invariant pending == old(pending) + NewLinks(links[..i], visited)
      {
        var extractedLink := links[i];
        NewLinksAppend(links[..i], [extractedLink], visited);
        assert links[..i + 1] == links[..i] + [extractedLink];
        assert [extractedLink][1..] == [];
        if extractedLink != "" {
          if extractedLink !in visited {
            pending := pending + [extractedLink];
          }
        }
      }
      assert links[..|links|] == links;
    }

    /**
     * CrawlerRunnable.run: fetch, save a non-empty page and mark it visited,
     * report the page, queue its links, and send one message to the refill handler.
     */
    method RunTask(url: string, outcome: FetchOutcome, links: seq<string>) returns (fired: seq<Callback>)
      requires Valid()
      requires manager != null
      modifies this
      ensures Valid()
      ensures State() == AfterTask(old(State()), url, Content(outcome), links)
      ensures fired == TaskCallbacks(url, outcome)
      ensures events == old(events) + fired
      ensures refillSignals == old(refillSignals) + (if Aborts(outcome) then 0 else 1)
      ensures manager == old(manager)
    {
      var pageContent, retrievalFired, aborted := RetreiveHtmlContent(url, outcome);
      if aborted {
        // the exception ends run(): no callback, no database row, no refill message
        return [];
      }
      fired := retrievalFired;
      if pageContent != "" {
        InsertIntoCrawlerDB(url, pageContent);
        visited := visited + {url};
        fired := fired + [PageCrawlingCompleted];
      } else {
        fired := fired + [PageCrawlingFailed(url, NoStatus)];
      }
      if pageContent != "" {
        EnqueueLinks(links);
      }
      refillSignals := refillSignals + 1;
      events := events + fired;
    }

    /**
     * mHandler.handleMessage: when the queue is not empty, start as many queued
     * URLs as the pool has unused slots, front first, each as a non-root task.
     */
    method HandleRefillMessage() returns (dispatched: seq<string>)
      requires Valid()
      requires refillSignals > 0
      modifies this, manager
      ensures Valid()
      ensures refillSignals == old(refillSignals) - 1
      ensures visited == old(visited) && saved == old(saved) && events == old(events) && manager == old(manager)
      ensures old(pending) == [] ==> dispatched == [] && pending == []
      ensures manager != null ==> manager.active == old(manager.active) && manager.shutdown == old(manager.shutdown)
      ensures old(pending) == [] && manager != null ==> manager.executed == old(manager.executed)
      ensures old(pending) != [] ==>
        && dispatched == Dispatched(old(State()), MaximumPoolSize - old(manager.active))
        && State() == AfterRefill(old(State()), MaximumPoolSize - old(manager.active))
        && manager.executed == old(manager.executed) + (if old(manager.shutdown) then [] else dispatched)
    {
      refillSignals := refillSignals - 1;
      dispatched := [];
      if pending != [] {
        ghost var queue := pending;
        var availableTasks := manager.UnusedPoolSize();
        ghost var free := availableTasks;
        while availableTasks > 0 && pending != []
          invariant Valid() && manager == old(manager) && manager != null
          invariant visited == old(visited) && saved == old(saved) && events == old(events)
          invariant refillSignals == old(refillSignals) - 1
          invariant |dispatched| <= |queue|
          invariant dispatched == queue[..|dispatched|] && pending == queue[|dispatched|..]
          invariant availableTasks == free - |dispatched|
          invariant free <= 0 ==> dispatched == []
          invariant free > 0 ==> availableTasks >= 0
          invariant manager.active == old(manager.active) && manager.shutdown == old(manager.shutdown)
          invariant manager.executed == old(manager.executed) + (if old(manager.shutdown) then [] else dispatched)
          decreases |pending|
        {
          var url := pending[0];
          pending := pending[1..];
          assert queue[..|dispatched| + 1] == queue[..|dispatched|] + [url];
          StartCrawlerTask(url, false);
          dispatched := dispatched + [url];
          availableTasks := availableTasks - 1;
        }
        assert |dispatched| == RefillCount(free, |queue|);
      }
    }
  }
}
