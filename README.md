# Web crawler engine: a Dafny model

This project models the crawling engine of an Android web crawler and the
crawl session of its main screen.

`crawler.dfy` (module `Crawler`) models `WebCrawler.java`:

- `crawledURL` is the visited set and `uncrawledURL` the FIFO queue of pending URLs.
- The saved-page table of the crawler database is a ghost sequence of (url, content) rows.
- `RunnableManager` wraps the thread pool. It is reduced to a count of active
  threads, a shutdown flag and a ghost log of the tasks handed to `execute()`.
- A crawler task (`CrawlerRunnable.run` with `retreiveHtmlContent`) gets the
  network's behaviour as a `FetchOutcome` value and the `href` strings of the
  page as a sequence of strings.
- The refill handler (`mHandler`) takes queued URLs and starts them as
  non-root tasks, at most as many as the pool has unused slots.

Each `synchronized (lock)` block is one atomic step, so `WebCrawler` is a
sequential class. Its methods are specified by functions on the abstract
state `Frontier(visited, pending, saved)`:

- `AfterTask` is the effect of one task;
- `NewLinks` is the filter applied to the extracted links;
- `RefillCount`, `Dispatched` and `AfterRefill` are the effect of one refill;
- `Content`, `RetrievalCallbacks` and `TaskCallbacks` give what a fetch
  returns and which callbacks it fires.

The lemmas about these functions carry the crawler's guarantees.

`activity.dfy` (module `Activity`) models `MainActivity.java`:

- the `crawlingRunning` flag and the `crawledUrlCount` counter;
- the start button, guarded by a non-empty URL;
- the page-completed callback;
- the three routes into `stopCrawling`: the stop button, the delayed
  MSG_STOP_CRAWLING message sent 60000 ms after a start, and the
  `onCrawlingCompleted` callback.

The `MainActivity` class owns a `WebCrawler` and calls into it.
`Session`, `AfterStart`, `AfterPage` and `AfterStop` give the session's
transitions as functions.

The code does several things a reader of its comments might not expect, and
the model does them too:

- A URL whose fetch fails is not marked visited. A later page linking to it
  queues it again (`FailedUrlIsQueuedAgain`).
- Links are checked against the visited set only, never against the queue.
  The same URL can be queued twice (`NewLinksKeepsDuplicates`).
- A queued URL stays queued after it becomes visited. The queue and the
  visited set can overlap (`QueuedUrlCanBecomeVisited`).
- The crawler never fires `onCrawlingCompleted`, not even when the queue
  runs dry. `TaskVerdict` shows no task fires it.
- Stopping does not fire `onCrawlingCompleted` either. The session counter
  is reset when a session stops, not when one starts.
- An empty response is simply a failure with -1.
- A read that fails after some non-empty lines still counts as a completed
  page. It fires the -1 failure first (`PartialReadCompletes`).
- A non-200 status is reported twice: first with its code, then with -1.
- A URL that parses but does not name an HTTP resource (`file:`, `ftp:`,
  `jar:`) makes the cast to `HttpURLConnection` throw a ClassCastException
  that nothing catches. The task then ends with no callback, no database row
  and no refill message (`NonHttpUrlAborts`).

## Model

| member | source | states |
|---|---|---|
| Crawler.RetreiveHtmlContent | app/src/main/java/com/android/webcrawler/WebCrawler.java:145-183 | returns the concatenation of the lines read before any failure (nothing for a malformed URL, a non-HTTP URL, a failed connection or a non-200 status) and fires the failure with the status for a non-200 answer, with -1 for an I/O error, nothing for a malformed URL; reports an abort exactly for a non-HTTP URL, whose cast throws |
| Crawler.ConcatSnoc | app/src/main/java/com/android/webcrawler/WebCrawler.java:169-171 | appending one more line to the builder extends the content by exactly that line |
| Crawler.ConcatEmpty | app/src/main/java/com/android/webcrawler/WebCrawler.java:112-122 | the page content is empty exactly when every line read was empty |
| Crawler.BadStatusFailsTwice | app/src/main/java/com/android/webcrawler/WebCrawler.java:161-180 | a non-200 status yields empty content and the callbacks failed(url, status) then failed(url, -1) |
| Crawler.MalformedUrlFailsOnce | app/src/main/java/com/android/webcrawler/WebCrawler.java:146-156 | a malformed URL yields empty content and the single callback failed(url, -1), fired by the task |
| Crawler.IoErrorWithoutContentFailsTwice | app/src/main/java/com/android/webcrawler/WebCrawler.java:157-176 | an I/O error before any content is read (on connecting, on the status or the stream, or after only empty lines of a 200 answer) fires failed(url, -1) twice |
| Crawler.NonHttpUrlAborts | app/src/main/java/com/android/webcrawler/WebCrawler.java:155-159 | a URL of a scheme other than HTTP ends the task with empty content and no callback at all |
| Crawler.PartialReadCompletes | app/src/main/java/com/android/webcrawler/WebCrawler.java:166-182 | an I/O error after a non-empty line fires failed(url, -1) and then page-completed |
| Crawler.TaskVerdict | app/src/main/java/com/android/webcrawler/WebCrawler.java:110-120 | a task that is not aborted fires one or two callbacks; the last is page-completed iff the content is non-empty and failed(url, -1) otherwise; page-completed never comes earlier; every failure names the task's URL; onCrawlingCompleted is never fired |
| Crawler.CleanFetchCallbacks | app/src/main/java/com/android/webcrawler/WebCrawler.java:112-117 | a fully read 200 answer fires only page-completed, exactly when some line is non-empty |
| Crawler.TaskCallbacks | app/src/main/java/com/android/webcrawler/WebCrawler.java:110-120 | all callbacks of one task: none when it aborts, else the retrieval's callbacks followed by page-completed or failed(url, -1); its properties are the lemmas around it |
| Crawler.NewLinks | app/src/main/java/com/android/webcrawler/WebCrawler.java:127-136 | the links a page adds to the queue: non-empty and not visited, in extraction order; see NewLinksMembers and NewLinksAppend |
| Crawler.AfterTask | app/src/main/java/com/android/webcrawler/WebCrawler.java:109-136 | the frontier after one task; see AfterTaskVisited, AfterTaskEmptyContent, AfterTaskPending and AfterTaskSaved |
| Crawler.NewLinksAppend | app/src/main/java/com/android/webcrawler/WebCrawler.java:127-136 | links are filtered one at a time in extraction order, so the filter distributes over concatenation of link lists |
| Crawler.NewLinksMembers | app/src/main/java/com/android/webcrawler/WebCrawler.java:128-133 | a link is queued iff it is among the extracted links, non-empty and not visited |
| Crawler.NewLinksKeepsDuplicates | app/src/main/java/com/android/webcrawler/WebCrawler.java:130-133 | a link extracted twice is queued twice: there is no check against the queue |
| Crawler.AfterTaskVisited | app/src/main/java/com/android/webcrawler/WebCrawler.java:112-117 | the visited set only grows, gains at most the task's URL, and gains it iff the content is non-empty |
| Crawler.AfterTaskEmptyContent | app/src/main/java/com/android/webcrawler/WebCrawler.java:118-122 | a task with empty content leaves visited, pending and saved unchanged |
| Crawler.AfterTaskPending | app/src/main/java/com/android/webcrawler/WebCrawler.java:114-136 | the old queue is kept as a prefix; the appended URLs are exactly the extracted links that are non-empty and not visited; the task's own URL is never appended |
| Crawler.AfterTaskSaved | app/src/main/java/com/android/webcrawler/WebCrawler.java:205-216 | the store gains exactly (url, content) when the content is non-empty, keeps its old rows, and never holds an empty body |
| Crawler.RefillCount | app/src/main/java/com/android/webcrawler/WebCrawler.java:225-230 | the number of URLs taken is at most the queue length, zero without free slots, and otherwise the smaller of free slots and queue length |
| Crawler.RefillSplitsQueue | app/src/main/java/com/android/webcrawler/WebCrawler.java:227-230 | the started URLs followed by the remaining queue are the old queue (FIFO); the front URL is started first when there is a slot |
| Crawler.ScenarioSeed | app/src/main/java/com/android/webcrawler/WebCrawler.java:110-136 | seed A linking to B and to itself completes, is saved and visited, and only B is queued |
| Crawler.ScenarioRefill | app/src/main/java/com/android/webcrawler/WebCrawler.java:224-231 | with any free slot the refill starts B and empties the queue |
| Crawler.ScenarioMissingPage | app/src/main/java/com/android/webcrawler/WebCrawler.java:161-180 | B answering 404 fires failed(B, 404) then failed(B, -1) and changes nothing else |
| Crawler.ScenarioSelfLinkAndMissingPage | app/src/main/java/com/android/webcrawler/WebCrawler.java:109-143 | the whole scenario: A is never queued, B is started, and the store ends with exactly A's page |
| Crawler.FailedUrlIsQueuedAgain | app/src/main/java/com/android/webcrawler/WebCrawler.java:112-133 | a failed URL stays unvisited and is queued again when a later page links to it |
| Crawler.QueuedUrlCanBecomeVisited | app/src/main/java/com/android/webcrawler/WebCrawler.java:127-133 | a URL queued twice and crawled from its first copy is both visited and still queued |
| Crawler.RunnableManager.constructor | app/src/main/java/com/android/webcrawler/WebCrawler.java:266-271 | a new manager has no active threads, is not shutting down and has run no task |
| Crawler.RunnableManager.UnusedPoolSize | app/src/main/java/com/android/webcrawler/WebCrawler.java:281-283 | free slots never exceed the maximum pool size 8 and equal it exactly when no thread is active |
| Crawler.RunnableManager.IsShuttingDown | app/src/main/java/com/android/webcrawler/WebCrawler.java:285-288 | whether the pool has been shut down; the model does not separate shut down from terminating |
| Crawler.RunnableManager.AddToCrawlingQueue | app/src/main/java/com/android/webcrawler/WebCrawler.java:273-275 | a pool that is not shutting down takes the task; nothing else changes |
| Crawler.RunnableManager.CancelAllRunnable | app/src/main/java/com/android/webcrawler/WebCrawler.java:277-279 | the pool is shutting down afterwards; active count and task log are unchanged |
| Crawler.RunnableManager.SetActiveCount | app/src/main/java/com/android/webcrawler/WebCrawler.java:281-283 | stands for the pool's threads changing the count behind getActiveCount, which over the unbounded work queue stays within the core size 5: only that count changes, the shutdown flag and task log stay |
| Crawler.WebCrawler.constructor | app/src/main/java/com/android/webcrawler/WebCrawler.java:55-62 | empty visited set and queue, no manager, the database as earlier runs left it |
| Crawler.WebCrawler.ClearDB | app/src/main/java/com/android/webcrawler/WebCrawler.java:190-197 | the saved-page table is empty afterwards |
| Crawler.WebCrawler.InsertIntoCrawlerDB | app/src/main/java/com/android/webcrawler/WebCrawler.java:205-216 | an empty body is not stored; otherwise exactly (url, body) is appended |
| Crawler.WebCrawler.StartCrawlerTask | app/src/main/java/com/android/webcrawler/WebCrawler.java:70-83 | a root start empties visited, pending and saved and installs a fresh manager, which takes the task, and leaves the old manager untouched; a non-root start changes no frontier state and submits the URL iff the manager is not shutting down |
| Crawler.WebCrawler.StopCrawlerTasks | app/src/main/java/com/android/webcrawler/WebCrawler.java:88-90 | the current manager is shutting down afterwards, so every later non-root start is dropped |
| Crawler.WebCrawler.EnqueueLinks | app/src/main/java/com/android/webcrawler/WebCrawler.java:127-136 | the queue becomes the old queue followed by the non-empty, unvisited extracted links in order |
| Crawler.WebCrawler.RunTask | app/src/main/java/com/android/webcrawler/WebCrawler.java:109-143 | runs only once a root start has installed a manager; the frontier becomes AfterTask of the old one, the fired callbacks are TaskCallbacks, and exactly one refill message is sent unless the task aborts, when none is |
| Crawler.WebCrawler.HandleRefillMessage | app/src/main/java/com/android/webcrawler/WebCrawler.java:221-237 | a non-empty queue implies a manager, by the crawler's invariant; an empty queue starts nothing; otherwise the first RefillCount(8 - active, queue length) URLs are removed in FIFO order and each is submitted as a non-root start unless the manager is shutting down |
| Activity.AfterStart | app/src/main/java/com/android/webcrawler/MainActivity.java:89-99 | the session after the start button; see StartGuard |
| Activity.AfterPage | app/src/main/java/com/android/webcrawler/MainActivity.java:55 | the session after one completed page; see PageCounts |
| Activity.AfterStop | app/src/main/java/com/android/webcrawler/MainActivity.java:120-135 | the session after stopCrawling; see StopResets and StopIdempotent |
| Activity.StartGuard | app/src/main/java/com/android/webcrawler/MainActivity.java:88-99 | an empty URL changes nothing; a non-empty URL makes the session running and keeps the counter |
| Activity.PageCounts | app/src/main/java/com/android/webcrawler/MainActivity.java:54-55 | each completed page adds exactly one to the counter |
| Activity.StopResets | app/src/main/java/com/android/webcrawler/MainActivity.java:120-135 | after a stop the session is not running; a running session's counter is reset to 0; an idle session is unchanged |
| Activity.StopIdempotent | app/src/main/java/com/android/webcrawler/MainActivity.java:120-135 | stopping twice gives the same session as stopping once |
| Activity.SessionRoundTrip | app/src/main/java/com/android/webcrawler/MainActivity.java:84-135 | start from idle, any number of completed pages, one or more stops: the session ends idle with a zero counter |
| Activity.PageTimesKeepsRunning | app/src/main/java/com/android/webcrawler/MainActivity.java:54-55 | n completed pages add n to the counter and leave the running flag alone |
| Activity.StopTimesAfterRunning | app/src/main/java/com/android/webcrawler/MainActivity.java:120-135 | any positive number of stops of a running session leaves it idle with a zero counter |
| Activity.MainActivity.constructor | app/src/main/java/com/android/webcrawler/MainActivity.java:35-46 | a fresh activity is idle with a zero counter, no stop message, and a fresh crawler with no manager, no callback fired and no refill message waiting |
| Activity.MainActivity.OnClickStart | app/src/main/java/com/android/webcrawler/MainActivity.java:87-101 | an empty URL changes nothing; otherwise the session runs, the crawler gets a root start for the URL under a fresh idle manager (no active thread), and a stop message delayed 60000 ms is queued; no refill message is sent and the previous manager is not touched |
| Activity.MainActivity.OnPageCrawlingCompleted | app/src/main/java/com/android/webcrawler/MainActivity.java:54-65 | the counter grows by exactly one |
| Activity.MainActivity.StopCrawling | app/src/main/java/com/android/webcrawler/MainActivity.java:120-135 | when running: the crawler's manager is shut down, the session stops and the counter is reset; when idle: nothing changes; the crawler is stopped at most once per session |
| Activity.MainActivity.OnCrawlingCompleted | app/src/main/java/com/android/webcrawler/MainActivity.java:73-76 | the same transition as StopCrawling, with the same guarantees about the manager; the stop messages stay |
| Activity.MainActivity.OnClickStop | app/src/main/java/com/android/webcrawler/MainActivity.java:102-107 | removes every pending stop message, then the StopCrawling transition with all its guarantees about the manager |
| Activity.MainActivity.HandleStopMessage | app/src/main/java/com/android/webcrawler/MainActivity.java:111-115 | consumes one delayed stop message, then the StopCrawling transition with all its guarantees about the manager |
| Activity.MainActivity.CrawlPage | app/src/main/java/com/android/webcrawler/MainActivity.java:51-78 | a crawler task, which the source only creates once a root start has installed a manager, has its callbacks reach the activity: the counter grows by one exactly when the page content is non-empty, and failures change nothing; the task sends one refill message unless it aborts and leaves the manager alone |

## Left out

- Network I/O (`HttpURLConnection`, the 5000 ms timeouts, `BufferedReader`) is an input `FetchOutcome`. The timeouts appear only as constants.
- Jsoup parsing is an input list of `href` strings. The task uses it only when the page content is non-empty.
- SQLite (`CrawlerDB`, `getWritableDatabase`, `printCrawledEntriesFromDb`) is a ghost sequence of rows. Database exceptions, which `clearDB` swallows, are not modelled.
- `ThreadPoolExecutor` is a count of active threads (at most the core size 5), a shutdown flag and a task log; the keep-alive time (idle threads only), the work queue and the interruption by `shutdownNow` are not modelled. No thread interleaving is modelled. Each `synchronized` block, and each task, is one atomic step.
- The Android `Handler`/`Looper` queues are explicit message queues: a counter of refill messages and a sequence of delayed stop messages. Time is not modelled, so the 60000 ms delay is only the recorded delay of the queued message.
- Crawler.RunnableManager.SetActiveCount: stands for worker threads starting and finishing tasks. The model does not tie the active count to the tasks submitted; it only bounds it by the core size 5, since the unbounded work queue never lets the pool grow further.
- Crawler.WebCrawler.RunTask: the ClassCastException of a non-HTTP URL ends the worker's task; the exception reaching the thread pool's uncaught-exception handler is not modelled.
- Crawler.WebCrawler.StartCrawlerTask: the null `mManager` before the first root start would throw a NullPointerException. The model requires a manager for non-root starts, for `stopCrawlerTasks` and for running a task; the crawler's invariant gives one whenever the queue is not empty.
- Crawler.RunnableManager.AddToCrawlingQueue: `execute()` on a shut-down pool throws an uncaught RejectedExecutionException. The model requires the caller's `isShuttingDown` check instead.
- Widgets, Toasts and logcat output of `MainActivity` are left out. So is the button enabling that stops a second start while running. `onPageCrawlingFailed` of the activity does nothing and has no member.
