/** Keyset pagination (internal/core/pagination/slice.go and the size half of
    page.go), and the walk a client makes by following cursors over a listing
    that may change between any two pages. Keys are byte strings. */
module Pagination {
  import opened Wrappers
  import opened Strconv

  // ---- the order of keys -----------------------------------------------------

  /** cmp.Compare on strings is negative: byte by byte, a prefix first. */
  predicate Less(a: string, b: string) {
    b != "" && (a == "" || a[0] < b[0] || (a[0] == b[0] && Less(a[1..], b[1..])))
  }

  lemma {:induction false} LessIsTotal(a: string, b: string)
    ensures a == b || Less(a, b) || Less(b, a)
    ensures !(Less(a, b) && Less(b, a)) && !Less(a, a)
  {
    if a != "" {
      LessIsTotal(a[1..], a[1..]);
      if b != "" {
        LessIsTotal(a[1..], b[1..]);
        assert a == [a[0]] + a[1..] && b == [b[0]] + b[1..];
      }
    }
  }

  lemma {:induction false} LessIsTransitive(a: string, b: string, c: string)
    requires Less(a, b) && Less(b, c)
    ensures Less(a, c)
  {
    if a != "" && a[0] == b[0] == c[0] {
      LessIsTransitive(a[1..], b[1..], c[1..]);
    }
  }

  /** Slice's contract: ascending by a key no two items share. */
  ghost predicate Sorted<T>(items: seq<T>, key: T -> string) {
    forall i, j {:trigger key(items[i]), key(items[j])} :: 0 <= i < j < |items| ==> Less(key(items[i]), key(items[j]))
  }

  // ---- one page ----------------------------------------------------------------

  /** slices.BinarySearchFunc over items[lo..hi]: the first index at or after. */
  function SearchIn<T>(items: seq<T>, after: string, key: T -> string, lo: nat, hi: nat): (i: nat)
    requires lo <= hi <= |items|
    ensures lo <= i <= hi
    decreases hi - lo
  {
    if lo == hi then lo
    else
      var mid := (lo + hi) / 2;
      if Less(key(items[mid]), after) then SearchIn(items, after, key, mid + 1, hi)
      else SearchIn(items, after, key, lo, mid)
  }

  lemma {:induction false} SearchSplits<T>(items: seq<T>, after: string, key: T -> string, lo: nat, hi: nat)
    requires lo <= hi <= |items| && Sorted(items, key)
    requires forall k :: 0 <= k < lo ==> Less(key(items[k]), after)
    requires forall k :: hi <= k < |items| ==> !Less(key(items[k]), after)
    ensures var i := SearchIn(items, after, key, lo, hi);
            && (forall k :: 0 <= k < i ==> Less(key(items[k]), after))
            && (forall k :: i <= k < |items| ==> !Less(key(items[k]), after))
    decreases hi - lo
  {
    if lo < hi {
      var mid := (lo + hi) / 2;
      if Less(key(items[mid]), after) {
        forall k | 0 <= k < mid
          ensures Less(key(items[k]), after)
        {
          LessIsTransitive(key(items[k]), key(items[mid]), after);
        }
        SearchSplits(items, after, key, mid + 1, hi);
      } else {
        forall k | mid < k < |items|
          ensures !Less(key(items[k]), after)
        {
          if Less(key(items[k]), after) {
            LessIsTransitive(key(items[mid]), key(items[k]), after);
          }
        }
        SearchSplits(items, after, key, lo, mid);
      }
    }
  }

  /** The key to resume after, when items remain. */
  datatype Page<T> = Page(items: seq<T>, resume: Option<string>)

  function Start<T>(items: seq<T>, after: string, key: T -> string): (start: nat)
    ensures start <= |items|
  {
    if after == "" then 0
    else
      var i := SearchIn(items, after, key, 0, |items|);
      if i < |items| && key(items[i]) == after then i + 1 else i
  }

  /** Slice. An empty key mints no cursor, as NextToken returns none for it. */
  function Slice<T>(items: seq<T>, after: string, size: nat, key: T -> string): Page<T>
    requires size > 0
  {
    var start := Start(items, after, key);
    var end := if start + size < |items| then start + size else |items|;
    Page(items[start..end], if end < |items| && key(items[end - 1]) != "" then Some(key(items[end - 1])) else None)
  }

  lemma StartSplits<T>(items: seq<T>, after: string, key: T -> string)
    requires Sorted(items, key) && (after == "" ==> forall k :: 0 <= k < |items| ==> key(items[k]) != "")
    ensures forall k :: 0 <= k < |items| ==> (Less(after, key(items[k])) <==> Start(items, after, key) <= k)
  {
    if after != "" {
      SearchSplits(items, after, key, 0, |items|);
      StartPasses(items, after, key, SearchIn(items, after, key, 0, |items|));
    }
  }

  /** The item found is the key itself, and is stepped over, or the first past it. */
  lemma StartPasses<T>(items: seq<T>, after: string, key: T -> string, i: nat)
    requires Sorted(items, key) && i <= |items|
    requires forall k {:trigger key(items[k])} :: 0 <= k < i ==> Less(key(items[k]), after)
    requires forall k {:trigger key(items[k])} :: i <= k < |items| ==> !Less(key(items[k]), after)
    ensures var start := if i < |items| && key(items[i]) == after then i + 1 else i;
            forall k {:trigger key(items[k])} :: 0 <= k < |items| ==> (Less(after, key(items[k])) <==> start <= k)
  {
    forall k | 0 <= k < |items|
      ensures Less(after, key(items[k])) <==> (if i < |items| && key(items[i]) == after then i + 1 else i) <= k
    {
      LessIsTotal(after, key(items[k]));
      if i < k {
        assert Less(key(items[i]), key(items[k]));
      }
    }
  }

  ghost predicate NoEmptyKey<T>(items: seq<T>, key: T -> string) {
    forall k {:trigger key(items[k])} :: 0 <= k < |items| ==> key(items[k]) != ""
  }

  /** The page is the first `size` items after the key, and a cursor is there
      exactly when some item is left, naming the page's own last key. */
  ghost predicate NextRun<T>(items: seq<T>, after: string, size: nat, key: T -> string, p: Page<T>, start: nat) {
    && start + |p.items| <= |items| && p.items == items[start..start + |p.items|] && |p.items| <= size
    && (forall k :: 0 <= k < |items| ==> (Less(after, key(items[k])) <==> start <= k))
    && (p.resume.Some? <==> start + |p.items| < |items|)
    && (p.resume.Some? ==> |p.items| == size > 0 && p.resume.value == key(p.items[size - 1]))
  }

  lemma PageIsNextRun<T>(items: seq<T>, after: string, size: nat, key: T -> string) returns (start: nat)
    requires size > 0 && Sorted(items, key) && NoEmptyKey(items, key)
    ensures NextRun(items, after, size, key, Slice(items, after, size, key), start)
  {
    StartSplits(items, after, key);
    start := Start(items, after, key);
  }

  /** Slice's contract does not ask for non-empty keys, but needs them: with one,
      the listing ends early exactly when the empty key, first in the order,
      fills a first page of size one. */
  lemma EmptyKeyEndsListing<T>(items: seq<T>, after: string, size: nat, key: T -> string)
    requires size > 0 && Sorted(items, key)
    ensures var p := Slice(items, after, size, key);
            var left := Start(items, after, key) + |p.items| < |items|;
            p.resume.None? && left <==> after == "" && size == 1 && |items| > 1 && key(items[0]) == ""
  {
    var p := Slice(items, after, size, key);
    var start := Start(items, after, key);
    var end := start + |p.items|;
    assert 0 < end - 1 < |items| ==> Less(key(items[0]), key(items[end - 1]));
    if after != "" {
      SearchSplits(items, after, key, 0, |items|);
      assert start == 0 && |items| > 0 ==> !Less(key(items[0]), after);
    }
  }

  // ---- the walk --------------------------------------------------------------

  /** One request of a walk: the listing as it stands then, and a page size. */
  datatype Request<T> = Request(items: seq<T>, size: nat)

  ghost predicate Honest<T>(requests: seq<Request<T>>, key: T -> string) {
    forall i :: 0 <= i < |requests| ==>
      requests[i].size > 0 && Sorted(requests[i].items, key) && NoEmptyKey(requests[i].items, key)
  }

  /** The pages a client receives that follows cursors from `after` on, until
      one page carries none or the requests run out. */
  function Walk<T>(requests: seq<Request<T>>, after: string, key: T -> string): (pages: seq<Page<T>>)
    requires forall i :: 0 <= i < |requests| ==> requests[i].size > 0
    ensures |pages| <= |requests|
  {
    if requests == [] then []
    else
      var p := Slice(requests[0].items, after, requests[0].size, key);
      [p] + if p.resume.None? then [] else Walk(requests[1..], p.resume.value, key)
  }

  predicate Completed<T>(pages: seq<Page<T>>) {
    |pages| > 0 && pages[|pages| - 1].resume.None?
  }

  function Seen<T>(pages: seq<Page<T>>): seq<T> {
    if pages == [] then [] else pages[0].items + Seen(pages[1..])
  }

  /** One page, and the walk from its cursor. */
  lemma WalkStep<T>(requests: seq<Request<T>>, after: string, key: T -> string)
    requires requests != [] && forall i :: 0 <= i < |requests| ==> requests[i].size > 0
    ensures var p := Slice(requests[0].items, after, requests[0].size, key);
            var pages := Walk(requests, after, key);
            if p.resume.None? then Completed(pages) && Seen(pages) == p.items && |pages| == 1
            else
              var rest := Walk(requests[1..], p.resume.value, key);
              Completed(pages) == Completed(rest) && Seen(pages) == p.items + Seen(rest) && |pages| == 1 + |rest|
  {
    var p := Slice(requests[0].items, after, requests[0].size, key);
    var pages := Walk(requests, after, key);
    assert pages[0] == p;
    if p.resume.None? {
      assert pages[1..] == [];
    } else {
      assert pages[1..] == Walk(requests[1..], p.resume.value, key);
    }
  }

  lemma SortedAppend<T>(a: seq<T>, b: seq<T>, bound: string, key: T -> string)
    requires Sorted(a, key) && Sorted(b, key)
    requires forall i :: 0 <= i < |a| ==> key(a[i]) == bound || Less(key(a[i]), bound)
    requires forall i :: 0 <= i < |b| ==> Less(bound, key(b[i]))
    ensures Sorted(a + b, key)
  {
    forall i, j | 0 <= i < |a| && 0 <= j < |b|
      ensures Less(key(a[i]), key(b[j]))
    {
      if key(a[i]) != bound {
        LessIsTransitive(key(a[i]), bound, key(b[j]));
      }
    }
  }

  lemma PageAbove<T>(items: seq<T>, after: string, size: nat, key: T -> string)
    requires size > 0 && Sorted(items, key) && NoEmptyKey(items, key)
    ensures var p := Slice(items, after, size, key);
            && Sorted(p.items, key)
            && (forall i :: 0 <= i < |p.items| ==> Less(after, key(p.items[i])))
            && (p.resume.Some? ==> Less(after, p.resume.value)
                                   && forall i :: 0 <= i < |p.items| ==> key(p.items[i]) == p.resume.value || Less(key(p.items[i]), p.resume.value))
  {
    var start := PageIsNextRun(items, after, size, key);
    var p := Slice(items, after, size, key);
    forall i | 0 <= i < |p.items|
      ensures p.items[i] == items[start + i]
    {
    }
  }

  /** However the listing changes, the keys a client sees strictly increase: no
      item is repeated, and nothing is served out of order. */
  lemma {:induction false} WalkNeverRepeats<T>(requests: seq<Request<T>>, after: string, key: T -> string)
    requires Honest(requests, key)
    ensures var seen := Seen(Walk(requests, after, key));
            Sorted(seen, key) && forall i :: 0 <= i < |seen| ==> Less(after, key(seen[i]))
  {
    if requests != [] {
      var p := Slice(requests[0].items, after, requests[0].size, key);
      PageAbove(requests[0].items, after, requests[0].size, key);
      WalkStep(requests, after, key);
      if p.resume.Some? {
        var rest := Seen(Walk(requests[1..], p.resume.value, key));
        TailIsHonest(requests, key);
        WalkNeverRepeats(requests[1..], p.resume.value, key);
        SortedAppend(p.items, rest, p.resume.value, key);
        forall i | 0 <= i < |rest|
          ensures Less(after, key(rest[i]))
        {
          LessIsTransitive(after, p.resume.value, key(rest[i]));
        }
      }
    }
  }

  ghost predicate Has<T>(items: seq<T>, k: string, key: T -> string) {
    exists i :: 0 <= i < |items| && key(items[i]) == k
  }

  /** A key past the page is past its cursor. */
  lemma MissedIsLater<T>(items: seq<T>, after: string, size: nat, k: string, key: T -> string)
    requires size > 0 && Sorted(items, key) && NoEmptyKey(items, key) && Has(items, k, key) && Less(after, k)
    ensures var p := Slice(items, after, size, key);
            Has(p.items, k, key) || (p.resume.Some? && Less(p.resume.value, k))
  {
    var start := PageIsNextRun(items, after, size, key);
    var p := Slice(items, after, size, key);
    var i :| 0 <= i < |items| && key(items[i]) == k;
    if i < start + |p.items| {
      assert p.items[i - start] == items[i];
    } else {
      assert key(p.items[size - 1]) == key(items[start + size - 1]);
    }
  }

  lemma HasAppend<T>(a: seq<T>, b: seq<T>, k: string, key: T -> string)
    requires Has(a, k, key) || Has(b, k, key)
    ensures Has(a + b, k, key)
  {
    var all := a + b;
    if Has(a, k, key) {
      var i :| 0 <= i < |a| && key(a[i]) == k;
      assert key(all[i]) == k;
    } else {
      var i :| 0 <= i < |b| && key(b[i]) == k;
      assert key(all[|a| + i]) == k;
    }
  }

  /** The key is in each of the first `n` listings. */
  ghost predicate Throughout<T>(requests: seq<Request<T>>, n: nat, k: string, key: T -> string)
    requires n <= |requests|
  {
    forall i :: 0 <= i < n ==> Has(requests[i].items, k, key)
  }

  lemma TailThroughout<T>(requests: seq<Request<T>>, n: nat, k: string, key: T -> string)
    requires 0 < n <= |requests| && Throughout(requests, n, k, key)
    ensures Throughout(requests[1..], n - 1, k, key)
  {
    forall i | 0 <= i < n - 1
      ensures Has(requests[1..][i].items, k, key)
    {
      assert Has(requests[i + 1].items, k, key);
    }
  }

  lemma TailIsHonest<T>(requests: seq<Request<T>>, key: T -> string)
    requires Honest(requests, key) && requests != []
    ensures Honest(requests[1..], key)
  {
  }

  /** A completed walk misses nothing that was there throughout, and, its keys
      being strictly increasing, shows it once. */
  lemma {:induction false} WalkMissesNothing<T>(requests: seq<Request<T>>, after: string, k: string, key: T -> string)
    requires Honest(requests, key) && Completed(Walk(requests, after, key)) && Less(after, k)
    requires Throughout(requests, |Walk(requests, after, key)|, k, key)
    ensures Has(Seen(Walk(requests, after, key)), k, key)
  {
    var p := Slice(requests[0].items, after, requests[0].size, key);
    WalkStep(requests, after, key);
    MissedIsLater(requests[0].items, after, requests[0].size, k, key);
    if p.resume.Some? {
      var rest := Walk(requests[1..], p.resume.value, key);
      if !Has(p.items, k, key) {
        TailIsHonest(requests, key);
        TailThroughout(requests, |rest| + 1, k, key);
        WalkMissesNothing(requests[1..], p.resume.value, k, key);
      }
      HasAppend(p.items, Seen(rest), k, key);
    }
  }

  // ---- a listing that does not change ------------------------------------------

  ghost predicate Static<T>(requests: seq<Request<T>>, items: seq<T>) {
    forall i :: 0 <= i < |requests| ==> requests[i].items == items
  }

  /** The key to resume after separates the first `from` items from the rest. */
  ghost predicate Cuts<T>(items: seq<T>, from: nat, after: string, key: T -> string) {
    from <= |items| && forall k {:trigger key(items[k])} :: 0 <= k < |items| ==> (Less(after, key(items[k])) <==> from <= k)
  }

  lemma StaticPage<T>(items: seq<T>, from: nat, after: string, size: nat, key: T -> string)
    requires size > 0 && Sorted(items, key) && NoEmptyKey(items, key) && Cuts(items, from, after, key)
    ensures var p := Slice(items, after, size, key);
            var next := from + |p.items|;
            && next <= |items| && p.items == items[from..next] && (p.resume.Some? <==> next < |items|)
            && (p.resume.Some? ==> |p.items| > 0 && Cuts(items, next, p.resume.value, key))
  {
    var start := PageIsNextRun(items, after, size, key);
    StartIsOne(items, after, key, start, from);
    var p := Slice(items, after, size, key);
    if p.resume.Some? {
      assert p.items[size - 1] == items[start + size - 1];
      ResumesAfter(items, from + |p.items|, p.resume.value, key);
    }
  }

  lemma TailIsStatic<T>(requests: seq<Request<T>>, items: seq<T>)
    requires Static(requests, items) && requests != []
    ensures Static(requests[1..], items)
  {
  }

  /** One request on an unchanging listing: the next run of it, and the walk on. */
  lemma StaticStep<T>(requests: seq<Request<T>>, items: seq<T>, from: nat, after: string, key: T -> string)
    returns (page: seq<T>, resume: Option<string>)
    requires Honest(requests, key) && Static(requests, items) && requests != [] && Cuts(items, from, after, key)
    ensures from + |page| <= |items| && page == items[from..from + |page|]
    ensures var pages := Walk(requests, after, key);
            if resume.None? then Completed(pages) && Seen(pages) == items[from..]
            else
              var rest := Walk(requests[1..], resume.value, key);
              && Completed(pages) == Completed(rest) && Seen(pages) == page + Seen(rest)
              && |page| > 0 && from + |page| < |items| && Cuts(items, from + |page|, resume.value, key)
  {
    var p := Slice(items, after, requests[0].size, key);
    WalkStep(requests, after, key);
    StaticPage(items, from, after, requests[0].size, key);
    page, resume := p.items, p.resume;
  }

  /** From the middle of an unchanging listing, the pages are the rest of it. */
  lemma {:induction false} StaticShows<T>(requests: seq<Request<T>>, items: seq<T>, from: nat, after: string, key: T -> string)
    requires Honest(requests, key) && Static(requests, items) && Cuts(items, from, after, key) && Completed(Walk(requests, after, key))
    ensures Seen(Walk(requests, after, key)) == items[from..]
    decreases |requests|
  {
    var page, resume := StaticStep(requests, items, from, after, key);
    if resume.Some? {
      TailIsHonest(requests, key);
      TailIsStatic(requests, items);
      StaticShows(requests[1..], items, from + |page|, resume.value, key);
      Assemble(items, from, page, Seen(Walk(requests[1..], resume.value, key)), Seen(Walk(requests, after, key)));
    }
  }

  /** One request per remaining item is enough, and one when none remains. */
  lemma {:induction false} StaticEnds<T>(requests: seq<Request<T>>, items: seq<T>, from: nat, after: string, key: T -> string)
    requires Honest(requests, key) && Static(requests, items) && Cuts(items, from, after, key)
    requires |requests| >= |items| - from && |requests| > 0
    ensures Completed(Walk(requests, after, key))
    decreases |requests|
  {
    var page, resume := StaticStep(requests, items, from, after, key);
    if resume.Some? {
      TailIsHonest(requests, key);
      TailIsStatic(requests, items);
      StaticEnds(requests[1..], items, from + |page|, resume.value, key);
    }
  }

  lemma Assemble<T>(items: seq<T>, from: nat, page: seq<T>, rest: seq<T>, seen: seq<T>)
    requires from + |page| <= |items| && page == items[from..from + |page|] && rest == items[from + |page|..] && seen == page + rest
    ensures seen == items[from..]
  {
  }

  lemma StartIsOne<T>(items: seq<T>, after: string, key: T -> string, a: nat, b: nat)
    requires a <= |items| && b <= |items|
    requires forall k :: 0 <= k < |items| ==> (Less(after, key(items[k])) <==> a <= k)
    requires forall k :: 0 <= k < |items| ==> (Less(after, key(items[k])) <==> b <= k)
    ensures a == b
  {
    var low := if a < b then a else b;
    assert low < |items| ==> (Less(after, key(items[low])) <==> a <= low);
  }

  lemma ResumesAfter<T>(items: seq<T>, next: nat, after: string, key: T -> string)
    requires Sorted(items, key) && 0 < next <= |items| && after == key(items[next - 1])
    ensures forall k :: 0 <= k < |items| ==> (Less(after, key(items[k])) <==> next <= k)
  {
    forall k | 0 <= k < |items|
      ensures Less(after, key(items[k])) <==> next <= k
    {
      LessIsTotal(after, key(items[k]));
      if k < next - 1 {
        assert Less(key(items[k]), after);
      }
    }
  }

  /** On an unchanging listing the pages concatenate to the whole of it, and
      the walk ends within one request per item. */
  lemma StaticWalkIsListing<T>(requests: seq<Request<T>>, items: seq<T>, key: T -> string)
    requires Honest(requests, key) && Static(requests, items) && |requests| > 0
    ensures Completed(Walk(requests, "", key)) ==> Seen(Walk(requests, "", key)) == items
    ensures |requests| >= |items| ==> Completed(Walk(requests, "", key))
  {
    assert requests[0].items == items;
    if Completed(Walk(requests, "", key)) {
      StaticShows(requests, items, 0, "", key);
    }
    if |requests| >= |items| {
      StaticEnds(requests, items, 0, "", key);
    }
  }
}
