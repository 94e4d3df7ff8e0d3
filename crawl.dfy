/** The crawl bookkeeping of main.py: the checkpoint file `data.pkl`, the
    global `visited_links` list and the loop of `parse`. Pickle is identity on
    chunk values; the file is the sequence of records written to it. */
module Crawl {
  import opened Chunking
  import opened Entries
  import opened Fetch

  /** The checkpoint file: `None` when `data.pkl` does not exist, otherwise
      the records it holds in write order. */
  type Checkpoint = Option<seq<seq<Entry>>>

  /** What the network and the browser answer for each URL. */
  datatype Site = Site(net: string -> HttpOutcome, markerFound: string -> bool, pageSource: string -> string)

  function Connect(site: Site, u: string): Option<string>
  {
    ConnectTo(site.net(u), site.markerFound(u), site.pageSource(u))
  }

  /** The observable steps of `parse`, in the order they happen. */
  datatype Event =
    | Appended(url: string)
    | Fetched(url: string, page: Option<string>)
    | Saved(data: seq<Entry>)

  /** Each record read back becomes one list entry. */
  function Wrap(cs: seq<seq<Entry>>): (r: seq<Entry>)
    ensures |r| == |cs|
    ensures forall k :: 0 <= k < |cs| ==> r[k] == L(cs[k])
  {
    if cs == [] then [] else [L(cs[0])] + Wrap(cs[1..])
  }

  /** What `load_progress` returns for a checkpoint: nothing for a missing
      file, otherwise one list entry per record, in write order. */
  function Loaded(file: Checkpoint): (r: seq<Entry>)
    ensures file.None? ==> r == []
    ensures file.Some? ==> |r| == |file.value|
    ensures file.Some? ==> forall k :: 0 <= k < |r| ==> r[k] == L(file.value[k])
  {
    match file
    case None => []
    case Some(cs) => Wrap(cs)
  }

  /** One pass of the `parse` loop body over the visited list: the list is
      left alone exactly when `u` passes the visited test, and otherwise gains
      the plain string `u` at its end. */
  function Step(vs: seq<Entry>, u: string): (r: seq<Entry>)
    ensures r == vs <==> IsVisited(vs, u)
    ensures r != vs ==> r == vs + [S(u)]
  {
    if IsVisited(vs, u) then vs else vs + [S(u)]
  }

  /** The visited list after `parse` has gone through `urls`: the starting
      list is kept as a prefix, with at most one entry added per URL. */
  function Run(vs: seq<Entry>, urls: seq<string>): (r: seq<Entry>)
    ensures vs <= r
    ensures |r| <= |vs| + |urls|
    decreases |urls|
  {
    if urls == [] then vs
    else Step(Run(vs, urls[..|urls| - 1]), urls[|urls| - 1])
  }

  /** The events of one pass: nothing for a skipped URL; otherwise the append,
      the fetch and a save of the list that now ends with the URL. */
  function StepEvents(vs: seq<Entry>, u: string, site: Site): seq<Event>
  {
    if IsVisited(vs, u) then []
    else [Appended(u), Fetched(u, Connect(site, u)), Saved(vs + [S(u)])]
  }

  function RunEvents(vs: seq<Entry>, urls: seq<string>, site: Site): seq<Event>
    decreases |urls|
  {
    if urls == [] then []
    else
      var prefix := urls[..|urls| - 1];
      RunEvents(vs, prefix, site) + StepEvents(Run(vs, prefix), urls[|urls| - 1], site)
  }

  /** What `data.pkl` holds after a start-up run over `urls` from checkpoint
      `f`: the same file when the run appended nothing (no save happens),
      otherwise the chunks of the final visited list. */
  function NextCheckpoint(f: Checkpoint, urls: seq<string>): (r: Checkpoint)
    ensures f.Some? ==> r.Some?
    ensures r != f ==> r.Some? && Loaded(f) < Run(Loaded(f), urls)
  {
    var after := Run(Loaded(f), urls);
    if after == Loaded(f) then f else Some(Chunks(after, ChunkSize))
  }

  /** Extending the URL list by one extends the run by one step. */
  lemma RunSnoc(vs: seq<Entry>, urls: seq<string>, i: nat)
    requires i < |urls|
    ensures Run(vs, urls[..i + 1]) == Step(Run(vs, urls[..i]), urls[i])
  {
    assert urls[..i + 1][..i] == urls[..i];
  }

  lemma RunEventsSnoc(vs: seq<Entry>, urls: seq<string>, i: nat, site: Site)
    requires i < |urls|
    ensures RunEvents(vs, urls[..i + 1], site)
         == RunEvents(vs, urls[..i], site) + StepEvents(Run(vs, urls[..i]), urls[i], site)
  {
    assert urls[..i + 1][..i] == urls[..i];
  }

  /** The list `parse` appends to and the checkpoint file it rewrites. */
  class Crawler {
    var visited: seq<Entry>
    var file: Checkpoint
    ghost var events: seq<Event>

    /** Process start: `visited_links` is still empty and `data.pkl` holds
        whatever an earlier run left. */
    constructor (disk: Checkpoint)
      ensures visited == [] && file == disk && events == []
    {
      visited := [];
      file := disk;
      events := [];
    }

    /** `save_progress(data)`: truncate the file, then write one record per
        chunk of at most 1000 entries. */
    method SaveProgress(data: seq<Entry>)
      modifies this`file, this`events
      ensures file == Some(Chunks(data, ChunkSize))
      ensures events == old(events) + [Saved(data)]
    {
      file := Some([]);
      var chunks := Chunks(data, ChunkSize);
      var i := 0;
      while i < |chunks|
        invariant 0 <= i <= |chunks|
        invariant file == Some(chunks[..i])
        invariant events == old(events)
      {
        assert chunks[..i + 1] == chunks[..i] + [chunks[i]];
        file := Some(file.value + [chunks[i]]);
        i := i + 1;
      }
      assert chunks[..i] == chunks;
      events := events + [Saved(data)];
    }

    /** `load_progress()`: an empty list when the file is missing, otherwise
        every record in order, each as one list entry, until end of file. */
    method LoadProgress() returns (data: seq<Entry>)
      ensures file.None? ==> data == []
      ensures file.Some? ==> |data| == |file.value|
      ensures file.Some? ==> forall k :: 0 <= k < |data| ==> data[k] == L(file.value[k])
    {
      data := [];
      if file.None? {
        return;
      }
      var stored := file.value;
      var pos := 0;
      while pos < |stored|
        invariant 0 <= pos <= |stored|
        invariant |data| == pos
        invariant forall k :: 0 <= k < pos ==> data[k] == L(stored[k])
      {
        data := data + [L(stored[pos])];
        pos := pos + 1;
      }
    }

    /** `visited_links = load_progress()` at start-up. */
    method Resume()
      modifies this`visited
      ensures visited == Loaded(file)
    {
      visited := LoadProgress();
      if file.Some? {
        assert visited == Wrap(file.value);
      }
    }

    /** One pass of the loop in `parse`: skip `url` when visited; otherwise
        append it, call `connect_to`, and save the checkpoint on either
        outcome. */
    method Visit(url: string, site: Site)
      modifies this`visited, this`file, this`events
      ensures visited == Step(old(visited), url)
      ensures events == old(events) + StepEvents(old(visited), url, site)
      ensures visited == old(visited) ==> file == old(file)
      ensures visited != old(visited) ==> |visited| > |old(visited)| && file == Some(Chunks(visited, ChunkSize))
    {
      var seen := FindVisited(visited, url);
      if seen {
        return;
      }
      visited := visited + [S(url)];
      events := events + [Appended(url)];
      var page := Connect(site, url);
      events := events + [Fetched(url, page)];
      if page.None? {
        SaveProgress(visited);
        return;
      }
      SaveProgress(visited);
    }

    /** `parse`: run the loop body over every sitemap URL in order. The
        checkpoint is untouched while nothing was appended and otherwise
        holds the chunks of the final visited list. */
    method Parse(urls: seq<string>, site: Site)
      modifies this`visited, this`file, this`events
      ensures visited == Run(old(visited), urls)
      ensures events == old(events) + RunEvents(old(visited), urls, site)
      ensures visited == old(visited) ==> file == old(file)
      ensures visited != old(visited) ==> file == Some(Chunks(visited, ChunkSize))
    {
      var i := 0;
      assert urls[..0] == [];
      while i < |urls|
        invariant 0 <= i <= |urls|
        invariant visited == Run(old(visited), urls[..i])
        invariant events == old(events) + RunEvents(old(visited), urls[..i], site)
        invariant |old(visited)| <= |visited|
        invariant visited == old(visited) ==> file == old(file)
        invariant visited != old(visited) ==> file == Some(Chunks(visited, ChunkSize))
      {
        RunSnoc(old(visited), urls, i);
        RunEventsSnoc(old(visited), urls, i, site);
        ghost var done := RunEvents(old(visited), urls[..i], site);
        ghost var step := StepEvents(visited, urls[i], site);
        Visit(urls[i], site);
        assert events == old(events) + (done + step);
        i := i + 1;
      }
      assert urls[..i] == urls;
    }

    /** The `__main__` block as far as the crawl goes: load the checkpoint
        into `visited_links`, then run `parse` over the sitemap URLs. */
    method Start(urls: seq<string>, site: Site)
      modifies this`visited, this`file, this`events
      ensures visited == Run(Loaded(old(file)), urls)
      ensures events == old(events) + RunEvents(Loaded(old(file)), urls, site)
      ensures visited == Loaded(old(file)) ==> file == old(file)
      ensures visited != Loaded(old(file)) ==> file == Some(Chunks(visited, ChunkSize))
      ensures file == NextCheckpoint(old(file), urls)
    {
      Resume();
      Parse(urls, site);
    }
  }
}
