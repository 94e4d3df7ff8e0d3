# Crawl bookkeeping of the kitaec-ua parser, in Dafny

The parser walks the URLs of a category sitemap with a browser. It keeps a
global list `visited_links` of what it has already handled and checkpoints
that list to `data.pkl` after every URL it handles, so that an interrupted run
can resume. This project models that bookkeeping from `main.py`:

- `chunk_generator`: splitting a list into slices of at most 1000 entries.
- `save_progress` and `load_progress`: the checkpoint file. The file is a field
  of type `Option<seq<seq<Entry>>>`, with `None` standing for a missing
  `data.pkl`. Pickling is the identity on chunk values.
- The visited test inside `parse`, with Python's `in` semantics:
  - `visited_links` is heterogeneous. After a load it holds one list per
    checkpoint record. `parse` then appends plain URL strings to it.
  - The model writes this as `datatype Entry = S(s: string) | L(items: seq<Entry>)`.
  - `url in entry` is substring search when the entry is a string, and exact
    element equality when the entry is a list.
- The `parse` loop itself, as the class `Crawl.Crawler`:
  - The fields are `visited` and `file`, plus a ghost event log.
  - The log records every append, every `connect_to` call and every save, in
    the order they happen.
- The three-way result of `is404` and the branch logic of `connect_to`. The
  network and the browser are inputs, given as a `Site` of three functions:
  the HTTP outcome, whether the card marker appeared, and the page source.

Files:
- `chunking.dfy`: `Chunking`
- `entries.dfy`: `Entries`
- `fetch.dfy`: `Fetch`
- `crawl.dfy`: `Crawl`, which holds the specification functions `Step`/`Run`/`RunEvents` and the class
- `crawl_facts.dfy`: `CrawlFacts`, the properties of a pass
- `restarts.dfy`: `Restarts`, what a save then load does

What the proofs establish, in the program's own terms:

- The chunks concatenate back to the list, in order. Each chunk is non-empty
  and holds at most 1000 entries. Every chunk but the last is full. There are
  ceil(n/1000) chunks, so empty input yields no chunk at all.
- Loading after saving `vs` yields one list entry per chunk, in write order.
- A URL is skipped exactly when some entry contains it in the sense above.
  Consequences:
  - a sitemap URL that repeats an earlier one is skipped;
  - so is a URL that is a substring of a URL appended earlier in the run,
    although it was never fetched.
- A non-skipped URL is appended as a plain string before `connect_to` is
  called. After the fetch the whole list is saved, whether a page came back or
  `None`.
- The event log of a pass is a sequence of blocks `Appended(u)`,
  `Fetched(u, ...)`, `Saved(list ending in u)`, exactly one block per appended
  URL. So there is exactly one save per non-skipped URL and none for a skipped
  one.
- Restarts change what the visited test sees:
  - After one restart, the visited test becomes exact membership of the plain
    URL string in the saved list, so substring matches are lost.
  - A run that appends nothing never saves, so `data.pkl` stays as it was
    (`NextCheckpoint`, and the `file` clauses of `Crawler.Start`).
  - After a second restart that followed a run which appended at least one
    URL, every URL that came from the first checkpoint is nested two levels
    deep and fails the visited test. Only URLs appended in the run in between
    are still recognised.
  - `SecondRunCheckpoint`, `ForgottenAfterSecondRestart` and
    `FirstRunUrlForgotten` state this.
- `connect_to` returns `None` whenever the pre-check result is truthy. That
  covers a 404 (`True`) and every other failure, since the exception object
  `is404` returns is truthy. `is404` never returns a string, so the `str`
  branch of `connect_to` is dead.

Facts about the code that shape the model:

- `visited_links` is a list, not a set. Every load wraps each saved record
  in one more list, so a round trip does not give back the saved list.
- The checkpoint is saved after every URL that was not skipped, whatever
  `connect_to` returned.
- `parse` discards the page `connect_to` returns. Nothing is extracted from
  it and nothing is written to the workbook.
- Timeouts, other request failures and HTTP errors all make `connect_to`
  return `None`.

## Model

| member | source | states |
|---|---|---|
| Chunking.Chunks | main.py:24-27 | each slice is non-empty with at most `n` entries, and there are none exactly when the input is empty |
| Chunking.ChunksConcat | main.py:26-27 | concatenating the slices gives back the input exactly, in order |
| Chunking.ChunkCount | main.py:26-27 | the number of slices is ceil(len/n): `n` times the count covers the data, and one slice fewer does not |
| Chunking.ChunkAt | main.py:26-27 | slice k is exactly `data[k*n : k*n+n]` (clipped at the end), the generator's `range(0, len, n)` form |
| Chunking.AllButLastFull | main.py:26-27 | every slice except the last has exactly `n` entries |
| Entries.HasSubstring | main.py:191 | Python's `url in chunk` on strings holds iff `url` occurs at some index of `chunk` |
| Entries.InEntry | main.py:191 | `url in chunk` for one entry: the URL occurs at some index of a string entry, or a list entry has the plain URL string as an element |
| Entries.FindVisited | main.py:189-193 | the inner loop with `break` sets `visited` iff some entry is a string containing the URL as a substring or a list having the URL string as an element |
| Entries.VisitedGrows | main.py:197 | appending to `visited_links` never makes a visited URL unvisited |
| Fetch.RaisesForStatus | main.py:67 | the statuses for which `raise_for_status` raises, 400 to 599: a 404 raises and reaches the `HTTPError` handler, a 2xx success never raises |
| Fetch.Is404 | main.py:54-78 | `True` exactly for a 404, `False` exactly for a response `raise_for_status` lets through, an exception object for every other HTTP error or request failure, and never a string |
| Fetch.ConnectTo | main.py:132-161 | `None` whenever the pre-check result is truthy (404 or any error); a page exactly when the response passed the pre-check and the card marker appeared, and then it is the page source |
| Crawl.Loaded | main.py:36-51 | what `load_progress` returns: empty for a missing file, otherwise one list entry per stored record, in order |
| Crawl.Step | main.py:188-197 | one loop body: the list is unchanged exactly when the URL passes the visited test, and otherwise gains the plain URL string at its end |
| Crawl.Run | main.py:188-197 | the loop over the sitemap keeps the starting list as a prefix and adds at most one entry per URL |
| Crawl.NextCheckpoint | main.py:194-206 | the file after a run: an existing checkpoint is never removed, and the file changes only when the run appended at least one URL |
| Crawl.Crawler.SaveProgress | main.py:30-34 | the file is overwritten with one record per chunk of at most 1000 entries of `data`, in order, and one save is logged |
| Crawl.Crawler.LoadProgress | main.py:36-51 | an empty list when the file is missing; otherwise one list entry per stored record, in order, up to end of file |
| Crawl.Crawler.Resume | main.py:211 | `visited_links` becomes what `load_progress` returns for the current file |
| Crawl.Crawler.Visit | main.py:188-206 | a visited URL changes nothing; otherwise the list becomes old ++ [url], the log gains append, fetch and save of the new list, and the file holds its chunks |
| Crawl.Crawler.Parse | main.py:183-206 | after the loop the list is the run of the URLs over the old list, the log gains that run's events, and the file is untouched iff nothing was appended, otherwise it holds the chunks of the final list |
| Crawl.Crawler.Start | main.py:209-233 | loading the checkpoint then parsing gives the run of the sitemap over the loaded list; the file is unchanged when that run appended nothing, and otherwise holds the chunks of the final list |
| CrawlFacts.RunExtends | main.py:188-197 | the visited list only grows, by at most one entry per sitemap URL, and every new entry is a plain string taken from the sitemap |
| CrawlFacts.SeenStaysSeen | main.py:189-197 | once a URL passes the visited test it passes it for the rest of the run |
| CrawlFacts.VisitedAfterOwnPass | main.py:189-197 | right after its own pass a URL is visited, whether it was skipped or appended |
| CrawlFacts.RepeatedUrlSkipped | main.py:188-195 | a sitemap URL equal to an earlier one is skipped and leaves the list unchanged |
| CrawlFacts.SubstringOfAppendedSkipped | main.py:189-197 | a sitemap URL that is a substring of a URL appended earlier in the run is skipped |
| CrawlFacts.AllVisitedAfterRun | main.py:188-206 | after a pass every sitemap URL passes the visited test |
| CrawlFacts.RunOfVisited | main.py:188-195 | a pass over URLs that are all visited leaves the list unchanged |
| CrawlFacts.RunIdempotent | main.py:188-206 | a second pass over the same sitemap against the same list appends nothing |
| CrawlFacts.EventsInBlocks | main.py:194-206 | the events of a pass are one block per appended URL, in order: append, `connect_to` on it, save of the list ending with it; so one save per non-skipped URL whatever the fetch returned, none for a skipped one |
| Restarts.Restart | main.py:202-211 | the list loaded at the next start after a save of `vs` (it assumes the run did save): one list entry per chunk, each of 1 to 1000 entries |
| Restarts.SaveLoadRoundTrip | main.py:30-51 | load after save gives one list entry per chunk of at most 1000, in write order, and replaying them gives back the saved list exactly |
| Restarts.VisitedAfterRestart | main.py:190-191 | after a restart, a URL passes the visited test iff its plain string was in the saved list (substring matches are lost) |
| Restarts.ForgottenAfterSecondRestart | main.py:48 | after a second restart that followed a run which appended at least one URL, only URLs appended in that run pass the visited test; those loaded from the earlier checkpoint do not |
| Restarts.SecondRunCheckpoint | main.py:188-211 | over three start-ups: if the middle run appended nothing the file is unchanged and the test is membership in the first saved list; otherwise only URLs the middle run appended pass the test |
| Restarts.FirstRunUrlForgotten | main.py:33-48 | a URL from the first run passes the test after one restart; it still passes after a middle run that appends nothing, and fails after a middle run that appends another URL |
| Restarts.NothingRedoneAfterOneRestart | main.py:188-195 | URLs appended as plain strings before a restart are all still skipped after it, and a pass over them appends nothing |

## Left out

- `requests.get` is not modelled; it is network I/O. Its outcome, a status
  code or a `RequestException`, is an input (`HttpOutcome`). The decision rule
  of `raise_for_status` (an HTTP error for statuses 400 to 599) is taken from
  the `requests` library and encoded as `Fetch.RaisesForStatus`.
- Selenium navigation and the 5-second `WebDriverWait` for the class
  `kc__card--inner` are not modelled. They are browser automation with
  real-time waits. Their outcome is an input: whether the marker appeared, and
  the page source. Exceptions raised by `driver.get` itself propagate in the
  program and are not modelled.
- Pickle's byte format and the file handles are not modelled. A record is the
  chunk value itself, and end of file is the end of the record sequence.
  - A corrupt or truncated file, which would make `pickle.load` raise something
    other than `EOFError`, is not modelled.
  - A crash in the middle of `save_progress` is not modelled. The intermediate
    file states are visible in the loop of `SaveProgress`, but no interruption
    is.
- `get_sitemap_links` is not modelled; it is XML parsing through
  BeautifulSoup. The sitemap URL list is an input.
- `create_workbook`, `open_workbook` and `workbook_write` are not modelled.
  They are spreadsheet I/O, and `workbook_write` is an empty stub.
- Logging and `print` are not modelled.
- Chunking.Chunks: requires a positive chunk size. The program only ever uses
  1000. A zero size makes `range` raise `ValueError`, and a negative one yields
  no chunk; neither is modelled.
