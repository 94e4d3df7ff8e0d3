/** The heterogeneous `visited_links` list of main.py and Python's `in` test
    against one of its entries. */
module Entries {

  /** One element of `visited_links`: a URL string appended by `parse`, or a
      list read back from the checkpoint by `load_progress`. */
  datatype Entry = S(s: string) | L(items: seq<Entry>)

  predicate IsPrefix(u: string, s: string)
  {
    |u| <= |s| && s[..|u|] == u
  }

  /** `u` occurs in `s` starting at index `i`. */
  predicate OccursAt(u: string, s: string, i: nat)
  {
    i + |u| <= |s| && s[i .. i + |u|] == u
  }

  /** Dropping the first character of `s` shifts every occurrence one place left. */
  lemma OccursShift(u: string, s: string)
    requires s != []
    ensures forall i: nat :: OccursAt(u, s[1..], i) ==> OccursAt(u, s, i + 1)
    ensures forall i: nat :: 0 < i && OccursAt(u, s, i) ==> OccursAt(u, s[1..], i - 1)
  {
  }

  /** Python's `u in s` on two strings: `u` occurs in `s` as a contiguous
      substring (the empty string occurs everywhere). */
  function HasSubstring(u: string, s: string): (r: bool)
    ensures r <==> exists i: nat :: OccursAt(u, s, i)
    decreases |s|
  {
    if IsPrefix(u, s) then
      assert OccursAt(u, s, 0);
      true
    else if s == [] then
      false
    else
      var r := HasSubstring(u, s[1..]);
      OccursShift(u, s);
      assert !OccursAt(u, s, 0);
      r
  }

  /** Python's `url in chunk` where `chunk` is an element of `visited_links`:
      substring search on a string, element equality on a list (a list
      element that is itself a list never equals a string). */
  predicate InEntry(u: string, e: Entry)
    ensures InEntry(u, e) <==>
      (e.S? && exists i: nat :: OccursAt(u, e.s, i)) ||
      (e.L? && exists k :: 0 <= k < |e.items| && e.items[k] == S(u))
  {
    match e
    case S(s) => HasSubstring(u, s)
    case L(xs) => S(u) in xs
  }

  /** The condition under which `parse` skips `u`: some entry of the visited
      list contains it in the sense of `InEntry`. */
  predicate IsVisited(vs: seq<Entry>, u: string)
  {
    exists k :: 0 <= k < |vs| && InEntry(u, vs[k])
  }

  /** The inner loop of `parse`: scan the entries in order and stop at the
      first one that contains `u`. */
  method FindVisited(vs: seq<Entry>, u: string) returns (visited: bool)
    ensures visited <==> IsVisited(vs, u)
  {
    visited := false;
    var k := 0;
    while k < |vs|
      invariant 0 <= k <= |vs|
      invariant forall j :: 0 <= j < k ==> !InEntry(u, vs[j])
    {
      if InEntry(u, vs[k]) {
        visited := true;
        break;
      }
      k := k + 1;
    }
  }

  /** A URL string always contains itself. */
  lemma SelfSubstring(u: string)
    ensures HasSubstring(u, u)
  {
  }

  /** Growing the visited list never un-visits a URL. */
  lemma VisitedGrows(vs: seq<Entry>, more: seq<Entry>, u: string)
    requires IsVisited(vs, u)
    ensures IsVisited(vs + more, u)
  {
    var k :| 0 <= k < |vs| && InEntry(u, vs[k]);
    assert (vs + more)[k] == vs[k];
  }
}
