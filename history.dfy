/**
 * The history store of script.js: the in-memory list `priceHistory`, which
 * each accepted result is prepended to, and the browser's local storage, whose
 * key "priceHistory" receives the first fifty entries of that list after
 * every prepend and is read back when the page loads. Storage holds the list
 * itself; its JSON text form is not modelled.
 */
module History {
  import opened Wrappers
  import opened Pricing

  const HistoryKey: string := "priceHistory"

  /** How many entries `slice(0, 50)` keeps in storage. */
  const PersistLimit: nat := 50

  /** Local storage, as a map from keys to the lists stored under them. */
  type Storage = map<string, seq<PricedResult>>

  /** The page's state: the in-memory history and local storage. */
  datatype Page = Page(history: seq<PricedResult>, storage: Storage)

  /**
   * The copy of the history that is written to storage: its most recent
   * entries, at most fifty of them, in the same order. The whole list is
   * kept exactly when it is no longer than fifty.
   */
  function Persisted(history: seq<PricedResult>): (saved: seq<PricedResult>)
    ensures saved <= history
    ensures |saved| <= PersistLimit
    ensures |history| >= PersistLimit ==> |saved| == PersistLimit
    ensures saved == history <==> |history| <= PersistLimit
  {
    if |history| <= PersistLimit then history else history[..PersistLimit]
  }

  /** Persisting a persisted list keeps it as it is. */
  lemma PersistedIdempotent(history: seq<PricedResult>)
    ensures Persisted(Persisted(history)) == Persisted(history)
  {
  }

  /**
   * `unshift` followed by `setItem`: the result becomes the first entry, the
   * older entries follow in their order, the in-memory list is not trimmed,
   * and only the history key of storage is (over)written.
   */
  function Record(page: Page, res: PricedResult): (next: Page)
    ensures |next.history| == |page.history| + 1
    ensures next.history[0] == res && next.history[1..] == page.history
    ensures HistoryKey in next.storage
    ensures next.storage[HistoryKey] == Persisted(next.history)
    ensures next.storage.Keys == page.storage.Keys + {HistoryKey}
    ensures forall k | k in page.storage && k != HistoryKey :: next.storage[k] == page.storage[k]
  {
    var history := [res] + page.history;
    Page(history, page.storage[HistoryKey := Persisted(history)])
  }

  /**
   * The history part of the page-load handler: a stored list, when there is
   * one, replaces the in-memory history; otherwise the history is left as it
   * is. Storage is only read.
   */
  function Restore(page: Page): (next: Page)
    ensures next.storage == page.storage
    ensures HistoryKey in page.storage ==> next.history == page.storage[HistoryKey]
    ensures HistoryKey !in page.storage ==> next.history == page.history
  {
    if HistoryKey in page.storage then page.(history := page.storage[HistoryKey]) else page
  }

  /** When the page opens, the history is the stored list, or empty if none is stored. */
  lemma Startup(storage: Storage)
    ensures Restore(Page([], storage)).history ==
      if HistoryKey in storage then storage[HistoryKey] else []
  {
  }

  /** Loading twice is loading once. */
  lemma RestoreIdempotent(page: Page)
    ensures Restore(Restore(page)) == Restore(page)
  {
  }

  /**
   * Reloading right after a result is recorded gives back that result first,
   * followed by at most 49 of the entries before it: the in-memory history
   * cut to its fifty most recent entries.
   */
  lemma RestoreAfterRecord(page: Page, res: PricedResult)
    ensures var reloaded := Restore(Record(page, res)).history;
      reloaded == Persisted([res] + page.history) &&
      reloaded[0] == res &&
      reloaded[1..] <= page.history &&
      |reloaded| == if |page.history| < PersistLimit then |page.history| + 1 else PersistLimit
  {
  }

  /** Storage holds the persisted copy of the in-memory history. */
  predicate Synced(page: Page) {
    HistoryKey in page.storage && page.storage[HistoryKey] == Persisted(page.history)
  }

  /** Storage holds no more than fifty entries under the history key. */
  predicate StoredBounded(page: Page) {
    HistoryKey in page.storage ==> |page.storage[HistoryKey]| <= PersistLimit
  }

  /** Recording makes storage a copy of the history's first fifty entries. */
  lemma RecordSyncs(page: Page, res: PricedResult)
    ensures Synced(Record(page, res)) && StoredBounded(Record(page, res))
  {
  }

  /** Loading keeps storage and history in step, and keeps storage bounded. */
  lemma RestorePreservesSynced(page: Page)
    requires Synced(page)
    ensures Synced(Restore(page)) && StoredBounded(Restore(page))
  {
  }

  /** Every entry of a list is well formed. */
  predicate AllWellFormed(entries: seq<PricedResult>) {
    forall i | 0 <= i < |entries| :: WellFormed(entries[i])
  }

  /** Every entry in memory and in storage is well formed. */
  predicate Sound(page: Page) {
    AllWellFormed(page.history) &&
    (HistoryKey in page.storage ==> AllWellFormed(page.storage[HistoryKey]))
  }

  /** Recording a well-formed result keeps every entry well formed. */
  lemma RecordPreservesSound(page: Page, res: PricedResult)
    requires Sound(page) && WellFormed(res)
    ensures Sound(Record(page, res))
  {
  }

  /** Loading keeps every entry well formed. */
  lemma RestorePreservesSound(page: Page)
    requires Sound(page)
    ensures Sound(Restore(page))
  {
  }

  /** The page after a series of results is recorded, the first result first. */
  function RecordAll(page: Page, results: seq<PricedResult>): Page
    decreases |results|
  {
    if results == [] then page
    else Record(RecordAll(page, results[..|results| - 1]), results[|results| - 1])
  }

  /**
   * After a series of recordings the history lists the results latest first,
   * followed by the history as it was.
   */
  lemma {:induction false} RecordAllHistory(page: Page, results: seq<PricedResult>)
    ensures var h := RecordAll(page, results).history;
      |h| == |results| + |page.history| &&
      (forall i | 0 <= i < |results| :: h[|results| - 1 - i] == results[i]) &&
      h[|results|..] == page.history
    decreases |results|
  {
    if results != [] {
      var n := |results|;
      var before := results[..n - 1];
      RecordAllHistory(page, before);
      var prev := RecordAll(page, before).history;
      var h := RecordAll(page, results).history;
      assert h[0] == results[n - 1] && h[1..] == prev;
      forall i | 0 <= i < n - 1
        ensures h[n - 1 - i] == results[i]
      {
        assert h[n - 1 - i] == prev[n - 2 - i] == before[i];
      }
      assert h[n..] == prev[n - 1..];
    }
  }

  /**
   * After at least one recording, storage holds the most recent results,
   * latest first: exactly fifty of them once fifty or more have been
   * recorded, as after fifty-one successive recordings.
   */
  lemma {:induction false} StoredAreMostRecent(page: Page, results: seq<PricedResult>)
    requires |results| > 0
    ensures var s := RecordAll(page, results).storage;
      var n := |results|;
      HistoryKey in s &&
      |s[HistoryKey]| == (if n + |page.history| < PersistLimit then n + |page.history| else PersistLimit) &&
      (forall i | 0 <= i < n && n - 1 - i < PersistLimit :: s[HistoryKey][n - 1 - i] == results[i])
  {
    var n := |results|;
    var final := RecordAll(page, results);
    assert final == Record(RecordAll(page, results[..n - 1]), results[n - 1]);
    RecordAllHistory(page, results);
    var saved := final.storage[HistoryKey];
    forall i | 0 <= i < n && n - 1 - i < PersistLimit
      ensures saved[n - 1 - i] == results[i]
    {
      assert saved[n - 1 - i] == final.history[n - 1 - i];
    }
  }
}
