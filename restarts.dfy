/** What a save followed by a load (a restart of the program) does to the
    visited list and to the visited test. */
module Restarts {
  import opened Chunking
  import opened Entries
  import opened Fetch
  import opened Crawl
  import opened CrawlFacts

  /** The visited list of the next run when this run last saved `vs`; only
      meaningful when a save happened, since a run that appends nothing
      leaves `data.pkl` as it was (see `NextCheckpoint`). Every entry is a
      list, one per chunk. */
  function Restart(vs: seq<Entry>): (r: seq<Entry>)
    ensures |r| == |Chunks(vs, ChunkSize)|
    ensures forall k :: 0 <= k < |r| ==> r[k].L? && 0 < |r[k].items| <= ChunkSize
  {
    Loaded(Some(Chunks(vs, ChunkSize)))
  }

  /** Replaying the loaded records in order: the entries of every list entry
      one after the other (a string entry stands for itself). */
  function Unwrap(es: seq<Entry>): seq<Entry>
  {
    if es == [] then []
    else
      match es[0]
      case L(xs) => xs + Unwrap(es[1..])
      case S(_) => [es[0]] + Unwrap(es[1..])
  }

  lemma {:induction false} UnwrapWrap(cs: seq<seq<Entry>>)
    ensures Unwrap(Wrap(cs)) == Flatten(cs)
  {
    if cs != [] {
      assert Wrap(cs)[1..] == Wrap(cs[1..]);
      UnwrapWrap(cs[1..]);
    }
  }

  /** Load after save: one list entry per chunk of at most 1000 entries, in
      write order, and replaying them gives back the saved list exactly. */
  lemma SaveLoadRoundTrip(vs: seq<Entry>)
    ensures |Restart(vs)| == |Chunks(vs, ChunkSize)|
    ensures forall k :: 0 <= k < |Restart(vs)| ==> Restart(vs)[k] == L(Chunks(vs, ChunkSize)[k])
    ensures forall k :: 0 <= k < |Restart(vs)| ==> 0 < |Restart(vs)[k].items| <= ChunkSize
    ensures Unwrap(Restart(vs)) == vs
  {
    UnwrapWrap(Chunks(vs, ChunkSize));
    ChunksConcat(vs, ChunkSize);
  }

  lemma {:induction false} InFlatten<T>(cs: seq<seq<T>>, x: T)
    ensures x in Flatten(cs) <==> exists k :: 0 <= k < |cs| && x in cs[k]
  {
    if cs != [] {
      InFlatten(cs[1..], x);
      if x in Flatten(cs[1..]) {
        var k :| 0 <= k < |cs| - 1 && x in cs[1..][k];
        assert x in cs[k + 1];
      }
      forall k | 1 <= k < |cs| && x in cs[k] ensures x in Flatten(cs[1..]) {
        assert cs[1..][k - 1] == cs[k];
      }
    }
  }

  /** After a restart the visited test is exact membership of the plain URL
      string in the saved list: substring matches are gone. */
  lemma VisitedAfterRestart(vs: seq<Entry>, u: string)
    ensures IsVisited(Restart(vs), u) <==> S(u) in vs
  {
    var cs := Chunks(vs, ChunkSize);
    ChunksConcat(vs, ChunkSize);
    InFlatten(cs, S(u));
    if S(u) in vs {
      var k :| 0 <= k < |cs| && S(u) in cs[k];
      assert InEntry(u, Restart(vs)[k]);
    }
    if IsVisited(Restart(vs), u) {
      var k :| 0 <= k < |Restart(vs)| && InEntry(u, Restart(vs)[k]);
      assert S(u) in cs[k];
    }
  }

  /** A loaded list holds only list entries. */
  lemma RestartHoldsLists(vs: seq<Entry>, u: string)
    ensures S(u) !in Restart(vs)
  {
  }

  /** After a second restart that followed a run which appended `appended`
      (at least one URL, so that run saved), only the URLs appended in that
      run still pass the visited test: every URL that the earlier checkpoint
      held is nested two levels deep and is crawled again. */
  lemma ForgottenAfterSecondRestart(vs: seq<Entry>, appended: seq<Entry>, u: string)
    requires appended != []
    ensures IsVisited(Restart(Restart(vs) + appended), u) <==> S(u) in appended
  {
    VisitedAfterRestart(Restart(vs) + appended, u);
    RestartHoldsLists(vs, u);
  }

  /** Three start-ups in a row: the first run saved `vs`, the second runs over
      `urls` from that checkpoint. When the second run appended nothing the
      file is unchanged and the test is membership in `vs`; otherwise only
      the URLs the second run appended pass the visited test at the third. */
  lemma SecondRunCheckpoint(vs: seq<Entry>, urls: seq<string>, u: string)
    ensures var first := Some(Chunks(vs, ChunkSize));
            var after := Run(Loaded(first), urls);
            after == Loaded(first) ==>
              (IsVisited(Loaded(NextCheckpoint(first, urls)), u) <==> S(u) in vs)
    ensures var first := Some(Chunks(vs, ChunkSize));
            var after := Run(Loaded(first), urls);
            after != Loaded(first) ==>
              (IsVisited(Loaded(NextCheckpoint(first, urls)), u) <==> S(u) in after[|Loaded(first)|..])
  {
    var first := Some(Chunks(vs, ChunkSize));
    var start := Loaded(first);
    var after := Run(start, urls);
    if after == start {
      VisitedAfterRestart(vs, u);
    } else {
      var appended := after[|start|..];
      assert after == start + appended;
      assert appended != [];
      ForgottenAfterSecondRestart(vs, appended, u);
    }
  }

  /** A URL `u` visited in the first run passes the test after one restart.
      If the second run's sitemap is `[u]`, nothing is appended, the file is
      not rewritten and `u` still passes at the third start; if it is `[v]`
      for another URL `v`, `v` is appended, saved, and `u` fails the test at
      the third start. */
  lemma FirstRunUrlForgotten(u: string, v: string)
    requires u != v
    ensures IsVisited(Loaded(Some(Chunks([S(u)], ChunkSize))), u)
    ensures IsVisited(Loaded(NextCheckpoint(Some(Chunks([S(u)], ChunkSize)), [u])), u)
    ensures !IsVisited(Loaded(NextCheckpoint(Some(Chunks([S(u)], ChunkSize)), [v])), u)
  {
    var first := Some(Chunks([S(u)], ChunkSize));
    var start := Loaded(first);
    VisitedAfterRestart([S(u)], u);
    SecondRunCheckpoint([S(u)], [u], u);
    VisitedAfterRestart([S(u)], v);
    assert Run(start, [v]) == start + [S(v)] by {
      assert [v][..0] == [];
    }
    assert Run(start, [v])[|start|..] == [S(v)];
    SecondRunCheckpoint([S(u)], [v], u);
  }

  /** The same sitemap after a restart, when its URLs were appended as plain
      strings in the run before: nothing is appended again. */
  lemma NothingRedoneAfterOneRestart(vs: seq<Entry>, urls: seq<string>)
    requires forall j :: 0 <= j < |urls| ==> S(urls[j]) in vs
    ensures forall j :: 0 <= j < |urls| ==> IsVisited(Restart(vs), urls[j])
    ensures Run(Restart(vs), urls) == Restart(vs)
  {
    forall j | 0 <= j < |urls| ensures IsVisited(Restart(vs), urls[j]) {
      VisitedAfterRestart(vs, urls[j]);
    }
    RunOfVisited(Restart(vs), urls);
  }
}
