/** What a pass of `parse` over the sitemap URLs guarantees about the visited
    list and about the order of appends, fetches and saves. */
module CrawlFacts {
  import opened Entries
  import opened Crawl

  /** Running over `a + b` is running over `a`, then over `b`. */
  lemma {:induction false} RunAppend(vs: seq<Entry>, a: seq<string>, b: seq<string>)
    ensures Run(vs, a + b) == Run(Run(vs, a), b)
    decreases |b|
  {
    if b == [] {
      assert a + b == a;
    } else {
      var b0 := b[..|b| - 1];
      assert (a + b)[..|a + b| - 1] == a + b0;
      RunAppend(vs, a, b0);
    }
  }

  /** The visited list only grows, by at most one plain URL string per
      sitemap URL, each of them taken from the sitemap. */
  lemma {:induction false} RunExtends(vs: seq<Entry>, urls: seq<string>)
    ensures vs <= Run(vs, urls)
    ensures |Run(vs, urls)| <= |vs| + |urls|
    ensures forall k :: |vs| <= k < |Run(vs, urls)| ==> Run(vs, urls)[k].S? && Run(vs, urls)[k].s in urls
    decreases |urls|
  {
    if urls != [] {
      var prefix := urls[..|urls| - 1];
      RunExtends(vs, prefix);
      forall u | u in prefix ensures u in urls {
      }
    }
  }

  /** Once a URL passes the visited test it keeps passing it for the rest of
      the run. */
  lemma SeenStaysSeen(vs: seq<Entry>, urls: seq<string>, i: nat, j: nat, u: string)
    requires i <= j <= |urls|
    requires IsVisited(Run(vs, urls[..i]), u)
    ensures IsVisited(Run(vs, urls[..j]), u)
  {
    var mid := Run(vs, urls[..i]);
    assert urls[..j] == urls[..i] + urls[i..j];
    RunAppend(vs, urls[..i], urls[i..j]);
    RunExtends(mid, urls[i..j]);
    var after := Run(mid, urls[i..j]);
    assert after == mid + after[|mid|..];
    VisitedGrows(mid, after[|mid|..], u);
  }

  /** After its own pass, a URL is visited: it either was already, or it has
      just been appended and contains itself. */
  lemma VisitedAfterOwnPass(vs: seq<Entry>, urls: seq<string>, i: nat)
    requires i < |urls|
    ensures IsVisited(Run(vs, urls[..i + 1]), urls[i])
  {
    RunSnoc(vs, urls, i);
    var before := Run(vs, urls[..i]);
    if !IsVisited(before, urls[i]) {
      var after := before + [S(urls[i])];
      SelfSubstring(urls[i]);
      assert InEntry(urls[i], after[|before|]);
    }
  }

  /** A sitemap URL that repeats an earlier one is skipped. */
  lemma RepeatedUrlSkipped(vs: seq<Entry>, urls: seq<string>, i: nat, j: nat)
    requires i < j < |urls|
    requires urls[i] == urls[j]
    ensures IsVisited(Run(vs, urls[..j]), urls[j])
    ensures Run(vs, urls[..j + 1]) == Run(vs, urls[..j])
  {
    VisitedAfterOwnPass(vs, urls, i);
    SeenStaysSeen(vs, urls, i + 1, j, urls[i]);
    RunSnoc(vs, urls, j);
  }

  /** A sitemap URL that is a substring of a URL appended earlier in the run
      is skipped too, although it was never visited itself. */
  lemma SubstringOfAppendedSkipped(vs: seq<Entry>, urls: seq<string>, i: nat, j: nat)
    requires i < j < |urls|
    requires !IsVisited(Run(vs, urls[..i]), urls[i])
    requires HasSubstring(urls[j], urls[i])
    ensures IsVisited(Run(vs, urls[..j]), urls[j])
  {
    RunSnoc(vs, urls, i);
    var before := Run(vs, urls[..i]);
    var after := before + [S(urls[i])];
    assert InEntry(urls[j], after[|before|]);
    SeenStaysSeen(vs, urls, i + 1, j, urls[j]);
  }

  /** After a pass, every URL of the sitemap passes the visited test. */
  lemma AllVisitedAfterRun(vs: seq<Entry>, urls: seq<string>)
    ensures forall j :: 0 <= j < |urls| ==> IsVisited(Run(vs, urls), urls[j])
  {
    forall j | 0 <= j < |urls| ensures IsVisited(Run(vs, urls), urls[j]) {
      VisitedAfterOwnPass(vs, urls, j);
      assert urls[..|urls|] == urls;
      SeenStaysSeen(vs, urls, j + 1, |urls|, urls[j]);
    }
  }

  /** A pass in which every URL is already visited changes nothing. */
  lemma {:induction false} RunOfVisited(vs: seq<Entry>, urls: seq<string>)
    requires forall j :: 0 <= j < |urls| ==> IsVisited(vs, urls[j])
    ensures Run(vs, urls) == vs
    decreases |urls|
  {
    if urls != [] {
      RunOfVisited(vs, urls[..|urls| - 1]);
    }
  }

  /** Going over the same sitemap a second time against the same list
      appends nothing. */
  lemma RunIdempotent(vs: seq<Entry>, urls: seq<string>)
    ensures Run(Run(vs, urls), urls) == Run(vs, urls)
  {
    AllVisitedAfterRun(vs, urls);
    RunOfVisited(Run(vs, urls), urls);
  }

  /** Block `m` of `evs` is the append of the m-th entry of `all` past `vs`,
      `connect_to` on that URL, and a save of the list as it stood right
      after that append. */
  ghost predicate BlockAt(evs: seq<Event>, vs: seq<Entry>, all: seq<Entry>, site: Site, m: nat)
    requires |vs| + m < |all| && 3 * m + 2 < |evs|
  {
    all[|vs| + m].S? &&
    evs[3 * m] == Appended(all[|vs| + m].s) &&
    evs[3 * m + 1] == Fetched(all[|vs| + m].s, Connect(site, all[|vs| + m].s)) &&
    evs[3 * m + 2] == Saved(all[..|vs| + m + 1])
  }

  /** `evs` consists of one block of three events per entry of `all` past
      `vs`, in order. */
  ghost predicate InBlocks(evs: seq<Event>, vs: seq<Entry>, all: seq<Entry>, site: Site)
  {
    vs <= all &&
    |evs| == 3 * (|all| - |vs|) &&
    forall m: nat :: m < |all| - |vs| ==> BlockAt(evs, vs, all, site, m)
  }

  lemma BlocksSnoc(evs: seq<Event>, vs: seq<Entry>, all: seq<Entry>, site: Site, u: string)
    requires InBlocks(evs, vs, all, site)
    ensures InBlocks(evs + [Appended(u), Fetched(u, Connect(site, u)), Saved(all + [S(u)])],
                     vs, all + [S(u)], site)
  {
    var evs', all' := evs + [Appended(u), Fetched(u, Connect(site, u)), Saved(all + [S(u)])], all + [S(u)];
    var n := |all| - |vs|;
    assert vs <= all';
    assert |evs'| == 3 * (|all'| - |vs|);
    forall m: nat | m < n + 1
      ensures BlockAt(evs', vs, all', site, m)
    {
      if m < n {
        assert BlockAt(evs, vs, all, site, m);
        assert all'[|vs| + m] == all[|vs| + m];
        assert evs'[3 * m] == evs[3 * m];
        assert evs'[3 * m + 1] == evs[3 * m + 1];
        assert evs'[3 * m + 2] == evs[3 * m + 2];
        assert all'[..|vs| + m + 1] == all[..|vs| + m + 1];
      } else {
        assert all'[..|vs| + m + 1] == all';
      }
    }
  }

  /** The events of a pass come in blocks of three, one block per appended
      URL, in append order: so the checkpoint is written exactly once per URL
      that was not skipped, whatever `connect_to` returned, never for a
      skipped one, always after the append and the fetch, and each save ends
      with the URL just appended. */
  lemma {:induction false} EventsInBlocks(vs: seq<Entry>, urls: seq<string>, site: Site)
    ensures InBlocks(RunEvents(vs, urls, site), vs, Run(vs, urls), site)
    decreases |urls|
  {
    if urls != [] {
      var prefix := urls[..|urls| - 1];
      var last := urls[|urls| - 1];
      EventsInBlocks(vs, prefix, site);
      var before := Run(vs, prefix);
      var evs := RunEvents(vs, prefix, site);
      if !IsVisited(before, last) {
        BlocksSnoc(evs, vs, before, site, last);
        assert Run(vs, urls) == before + [S(last)];
        assert RunEvents(vs, urls, site)
            == evs + [Appended(last), Fetched(last, Connect(site, last)), Saved(before + [S(last)])];
      } else {
        assert Run(vs, urls) == before;
        assert RunEvents(vs, urls, site) == evs + [];
        assert evs + [] == evs;
      }
    }
  }
}
