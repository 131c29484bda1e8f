/**
 The cache of prepared pages in web/src/app/features/prepare/prepare-processing.ts: a
 JavaScript Map in insertion order, least recently used first, with an entry budget and a
 byte budget.
 */
module PreparedPages {
  import opened Wrappers

  type Key = string

  // A prepared page: its key, its size in bytes and, standing for its bytes, an identity.
  datatype Page = Page(key: Key, size: nat, bytes: nat)

  datatype Budget = Budget(maxEntries: int, maxBytes: int)

  // ---------------------------------------------------------------------------
  // The cache as a sequence of pages, least recently used first
  // ---------------------------------------------------------------------------

  function TotalBytes(pages: seq<Page>): nat {
    if pages == [] then 0 else pages[0].size + TotalBytes(pages[1..])
  }

  ghost predicate Has(pages: seq<Page>, key: Key) { exists p :: p in pages && p.key == key }

  ghost predicate DistinctKeys(pages: seq<Page>) {
    forall i, j :: 0 <= i < j < |pages| ==> pages[i].key != pages[j].key
  }

  function Without(pages: seq<Page>, key: Key): seq<Page> {
    if pages == [] then []
    else if pages[0].key == key then pages[1..]
    else [pages[0]] + Without(pages[1..], key)
  }

  function Lookup(pages: seq<Page>, key: Key): Option<Page> {
    if pages == [] then None
    else if pages[0].key == key then Some(pages[0])
    else Lookup(pages[1..], key)
  }

  predicate Fits(pages: seq<Page>, budget: Budget) {
    |pages| <= budget.maxEntries && TotalBytes(pages) <= budget.maxBytes
  }

  // The pages left once the oldest are dropped until the rest fits.
  function Trimmed(pages: seq<Page>, budget: Budget): seq<Page> {
    if pages == [] || Fits(pages, budget) then pages else Trimmed(pages[1..], budget)
  }

  function AfterGet(pages: seq<Page>, key: Key): seq<Page> {
    match Lookup(pages, key)
    case None => pages
    case Some(page) => Without(pages, key) + [page]
  }

  predicate Acceptable(page: Page, budget: Budget) { page.size <= budget.maxBytes && budget.maxEntries >= 1 }

  function AfterSet(pages: seq<Page>, page: Page, budget: Budget): seq<Page> {
    var rest := Without(pages, page.key);
    if Acceptable(page, budget) then Trimmed(rest + [page], budget) else rest
  }

  // ---------------------------------------------------------------------------
  // Facts about the sequence
  // ---------------------------------------------------------------------------

  lemma {:induction false} TotalOfConcat(a: seq<Page>, b: seq<Page>)
    ensures TotalBytes(a + b) == TotalBytes(a) + TotalBytes(b)
  {
    if a == [] {
      assert a + b == b;
    } else {
      assert (a + b)[1..] == a[1..] + b;
      TotalOfConcat(a[1..], b);
    }
  }

  lemma {:induction false} LookupFinds(pages: seq<Page>, key: Key)
    ensures Lookup(pages, key).Some? <==> Has(pages, key)
    ensures Lookup(pages, key).Some? ==> Lookup(pages, key).value in pages && Lookup(pages, key).value.key == key
  {
    if pages != [] {
      LookupFinds(pages[1..], key);
      assert pages == [pages[0]] + pages[1..];
    }
  }

  // Without removes exactly the page under the key.
  lemma {:induction false} WithoutMembers(pages: seq<Page>, key: Key)
    requires DistinctKeys(pages)
    ensures forall p :: p in Without(pages, key) <==> p in pages && p.key != key
    ensures DistinctKeys(Without(pages, key))
  {
    if pages != [] {
      var tail := pages[1..];
      assert pages == [pages[0]] + tail;
      assert forall p :: p in tail ==> p.key != pages[0].key;
      WithoutMembers(tail, key);
      var rest := Without(tail, key);
      if pages[0].key != key {
        forall j | 0 <= j < |rest|
          ensures rest[j].key != pages[0].key
        {
          assert rest[j] in tail;
        }
      }
    }
  }

  lemma {:induction false} WithoutTotals(pages: seq<Page>, key: Key)
    ensures TotalBytes(Without(pages, key)) == TotalBytes(pages) - (match Lookup(pages, key) case None => 0 case Some(p) => p.size)
    ensures Lookup(pages, key).None? ==> Without(pages, key) == pages
    ensures |Without(pages, key)| == |pages| - (if Lookup(pages, key).Some? then 1 else 0)
  {
    if pages != [] {
      WithoutTotals(pages[1..], key);
      var rest := Without(pages[1..], key);
      assert ([pages[0]] + rest)[1..] == rest;
    }
  }

  lemma {:induction false} WithoutRemoves(pages: seq<Page>, key: Key)
    requires DistinctKeys(pages)
    ensures var rest := Without(pages, key);
            && DistinctKeys(rest)
            && !Has(rest, key)
            && (forall p :: p in rest <==> p in pages && p.key != key)
            && (!Has(pages, key) ==> rest == pages)
            && |rest| == |pages| - (if Has(pages, key) then 1 else 0)
            && TotalBytes(rest) == TotalBytes(pages) - (match Lookup(pages, key) case None => 0 case Some(p) => p.size)
  {
    WithoutMembers(pages, key);
    WithoutTotals(pages, key);
    LookupFinds(pages, key);
  }

  // The pages left after dropping the first d fit the budget.
  predicate FitsWithout(pages: seq<Page>, d: nat, budget: Budget)
    requires d <= |pages|
  {
    Fits(pages[d..], budget)
  }

  // Trimming keeps the newest pages: it drops from the front only, drops no more than it
  // must, and stops before a last page that fits on its own.
  lemma {:induction false} TrimmedIsMinimal(pages: seq<Page>, budget: Budget)
    ensures var kept := Trimmed(pages, budget);
            && |kept| <= |pages| && kept == pages[|pages| - |kept|..]
            && (kept == [] || Fits(kept, budget))
            && (forall d: nat :: d < |pages| - |kept| ==> !FitsWithout(pages, d, budget))
    ensures pages != [] && Acceptable(pages[|pages| - 1], budget) ==> Trimmed(pages, budget) != []
  {
    if |pages| == 1 {
      assert TotalBytes(pages[1..]) == 0;
    }
    if pages != [] && !Fits(pages, budget) {
      var tail := pages[1..];
      TrimmedIsMinimal(tail, budget);
      var kept := Trimmed(tail, budget);
      forall d: nat | d < |pages| - |kept|
        ensures !FitsWithout(pages, d, budget)
      {
        if d == 0 {
          assert pages[0..] == pages;
        } else {
          assert pages[d..] == tail[d - 1..];
          assert !FitsWithout(tail, d - 1, budget);
        }
      }
    }
  }

  // ---------------------------------------------------------------------------
  // The object
  // ---------------------------------------------------------------------------

  class PreparedPageCache {
    const budget: Budget
    var entries: seq<Page>
    var totalBytes: int

    ghost predicate Valid()
      reads this
    {
      && DistinctKeys(entries)
      && totalBytes == TotalBytes(entries)
      && (entries == [] || Fits(entries, budget))
    }

    constructor (budget: Budget)
      ensures Valid() && entries == [] && this.budget == budget
    {
      this.budget := budget;
      entries, totalBytes := [], 0;
    }

    method Get(key: Key) returns (page: Option<Page>)
      requires Valid()
      modifies this
      ensures Valid()
      ensures page == Lookup(old(entries), key) && entries == AfterGet(old(entries), key)
    {
      page := Lookup(entries, key);
      if page.None? {
        return;
      }
      LookupFinds(entries, key);
      WithoutRemoves(entries, key);
      entries := Without(entries, key);
      TotalOfConcat(entries, [page.value]);
      entries := entries + [page.value];
    }

    method Delete(key: Key) returns (found: bool)
      requires DistinctKeys(entries) && totalBytes == TotalBytes(entries)
      modifies this
      ensures DistinctKeys(entries) && totalBytes == TotalBytes(entries)
      ensures found == Has(old(entries), key) && entries == Without(old(entries), key)
    {
      LookupFinds(entries, key);
      WithoutRemoves(entries, key);
      var page := Lookup(entries, key);
      if page.None? {
        return false;
      }
      totalBytes := totalBytes - page.value.size;
      entries := Without(entries, key);
      return true;
    }

    method Set(page: Page)
      requires Valid()
      modifies this
      ensures Valid()
      ensures entries == AfterSet(old(entries), page, budget)
    {
      WithoutRemoves(entries, page.key);
      var _ := Delete(page.key);
      ShorterFits(old(entries), page.key, budget);
      if page.size > budget.maxBytes || budget.maxEntries < 1 {
        return;
      }
      TotalOfConcat(entries, [page]);
      ghost var all := entries + [page];
      entries := entries + [page];
      totalBytes := totalBytes + page.size;
      while |entries| > budget.maxEntries || totalBytes > budget.maxBytes
        invariant DistinctKeys(entries) && totalBytes == TotalBytes(entries)
        invariant Trimmed(entries, budget) == Trimmed(all, budget)
        decreases |entries|
      {
        if entries == [] {
          break;
        }
        var oldest := entries[0];
        var _ := Delete(oldest.key);
      }
    }

    method Take(key: Key) returns (page: Option<Page>)
      requires Valid()
      modifies this
      ensures Valid()
      ensures page == Lookup(old(entries), key) && entries == Without(old(entries), key)
    {
      page := Lookup(entries, key);
      LookupFinds(entries, key);
      WithoutRemoves(entries, key);
      ShorterFits(entries, key, budget);
      if page.Some? {
        var _ := Delete(key);
      }
    }

    method Clear()
      modifies this
      ensures Valid() && entries == []
    {
      entries, totalBytes := [], 0;
    }
  }

  lemma {:induction false} ShorterFits(pages: seq<Page>, key: Key, budget: Budget)
    requires DistinctKeys(pages) && (pages == [] || Fits(pages, budget))
    ensures Without(pages, key) == [] || Fits(Without(pages, key), budget)
  {
    WithoutRemoves(pages, key);
    LookupFinds(pages, key);
  }

  // ---------------------------------------------------------------------------
  // What the history of calls says
  // ---------------------------------------------------------------------------

  datatype Call = Get(key: Key) | Set(page: Page) | Remove(key: Key) | Clear

  // Delete and take leave the same pages behind.
  function Applied(pages: seq<Page>, call: Call, budget: Budget): seq<Page> {
    match call
    case Get(key) => AfterGet(pages, key)
    case Set(page) => AfterSet(pages, page, budget)
    case Remove(key) => Without(pages, key)
    case Clear => []
  }

  function After(calls: seq<Call>, budget: Budget): seq<Page> {
    if calls == [] then []
    else Applied(After(calls[..|calls| - 1], budget), calls[|calls| - 1], budget)
  }

  predicate Touches(call: Call, key: Key) {
    match call
    case Get(k) => k == key
    case Set(page) => page.key == key
    case Remove(_) => false
    case Clear => false
  }

  // The page set last under a key and not removed since.
  function LastSet(calls: seq<Call>, key: Key): Option<Page> {
    if calls == [] then None
    else
      match calls[|calls| - 1]
      case Set(page) => if page.key == key then Some(page) else LastSet(calls[..|calls| - 1], key)
      case Remove(k) => if k == key then None else LastSet(calls[..|calls| - 1], key)
      case Clear => None
      case Get(_) => LastSet(calls[..|calls| - 1], key)
  }

  function LastTouch(calls: seq<Call>, key: Key): (n: nat)
    ensures n <= |calls|
  {
    if calls == [] then 0
    else if Touches(calls[|calls| - 1], key) then |calls|
    else LastTouch(calls[..|calls| - 1], key)
  }

  ghost predicate Reflects(pages: seq<Page>, calls: seq<Call>) {
    && (forall i :: 0 <= i < |pages| ==> LastSet(calls, pages[i].key) == Some(pages[i]))
    && (forall i, j :: 0 <= i < j < |pages| ==> LastTouch(calls, pages[i].key) < LastTouch(calls, pages[j].key))
  }

  // Removing a key keeps the order of the others.
  lemma {:induction false} WithoutInOrder(pages: seq<Page>, key: Key, calls: seq<Call>)
    requires Reflects(pages, calls)
    ensures Reflects(Without(pages, key), calls)
    ensures forall p :: p in Without(pages, key) ==> p in pages
  {
    hide LastSet, LastTouch;
    if pages != [] && pages[0].key != key {
      var tail := pages[1..];
      assert Reflects(tail, calls);
      WithoutInOrder(tail, key, calls);
      var rest := Without(tail, key);
      forall j | 0 <= j < |rest|
        ensures LastTouch(calls, pages[0].key) < LastTouch(calls, rest[j].key)
      {
        assert rest[j] in tail;
      }
    }
  }

  // A page that was just set or found goes last; the call touched no other key.
  lemma {:induction false} AppendReflects(pages: seq<Page>, calls: seq<Call>, page: Page, call: Call)
    requires Reflects(pages, calls) && DistinctKeys(pages) && !Has(pages, page.key)
    requires call == Set(page) || (call == Get(page.key) && LastSet(calls, page.key) == Some(page))
    ensures Reflects(pages + [page], calls + [call])
  {
  }

  lemma UntouchedReflects(pages: seq<Page>, calls: seq<Call>, call: Call)
    requires Reflects(pages, calls)
    requires forall i :: 0 <= i < |pages| ==>
               !Touches(call, pages[i].key) && call != Remove(pages[i].key) && call != Clear
    ensures Reflects(pages, calls + [call])
  {
  }

  lemma ReflectsIsDistinct(pages: seq<Page>, calls: seq<Call>)
    requires Reflects(pages, calls)
    ensures DistinctKeys(pages)
  {
  }

  lemma AppliedReflects(pages: seq<Page>, calls: seq<Call>, call: Call, budget: Budget)
    requires Reflects(pages, calls) && (pages == [] || Fits(pages, budget))
    ensures var pages' := Applied(pages, call, budget);
            Reflects(pages', calls + [call]) && (pages' == [] || Fits(pages', budget))
  {
    ReflectsIsDistinct(pages, calls);
    match call
    case Clear =>
    case Remove(key) =>
      WithoutRemoves(pages, key);
      ShorterFits(pages, key, budget);
      WithoutInOrder(pages, key, calls);
      UntouchedReflects(Without(pages, key), calls, call);
    case Get(key) =>
      LookupFinds(pages, key);
      WithoutRemoves(pages, key);
      match Lookup(pages, key) {
        case None => UntouchedReflects(pages, calls, call);
        case Some(page) =>
          WithoutInOrder(pages, key, calls);
          AppendReflects(Without(pages, key), calls, page, call);
          TotalOfConcat(Without(pages, key), [page]);
      }
    case Set(page) =>
      SetReflects(pages, calls, page, budget);
  }

  lemma SetReflects(pages: seq<Page>, calls: seq<Call>, page: Page, budget: Budget)
    requires Reflects(pages, calls) && DistinctKeys(pages) && (pages == [] || Fits(pages, budget))
    ensures var pages' := AfterSet(pages, page, budget);
            Reflects(pages', calls + [Set(page)]) && (pages' == [] || Fits(pages', budget))
  {
    hide Reflects, Trimmed, Without, Fits;
    var rest := Without(pages, page.key);
    WithoutRemoves(pages, page.key);
    WithoutInOrder(pages, page.key, calls);
    ShorterFits(pages, page.key, budget);
    if Acceptable(page, budget) {
      AppendReflects(rest, calls, page, Set(page));
      TrimmedIsMinimal(rest + [page], budget);
      SuffixReflects(rest + [page], calls + [Set(page)], |rest| + 1 - |Trimmed(rest + [page], budget)|);
    } else {
      UntouchedReflects(rest, calls, Set(page));
    }
  }

  lemma SuffixReflects(pages: seq<Page>, calls: seq<Call>, d: nat)
    requires Reflects(pages, calls) && d <= |pages|
    ensures Reflects(pages[d..], calls)
  {
  }

  // After any history the cache is within both budgets, holds under each of its keys the
  // page set last, and is ordered by last use, so the pages dropped are always the least
  // recently used.
  lemma {:induction false} CacheReflectsHistory(calls: seq<Call>, budget: Budget)
    ensures var pages := After(calls, budget);
            Reflects(pages, calls) && (pages == [] || Fits(pages, budget))
  {
    if calls != [] {
      var n := |calls| - 1;
      CacheReflectsHistory(calls[..n], budget);
      AppliedReflects(After(calls[..n], budget), calls[..n], calls[n], budget);
      assert calls == calls[..n] + [calls[n]];
    }
  }
}
