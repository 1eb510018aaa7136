/**
 * The in-memory link database `urlDatabase`: an object mapping each short
 * id to `{link, visitCount}`, with `addUrl`, `getAllUrls` and
 * `updateVisitCount`. Both apps hold the same copy of this code.
 */
module LinkStore {
  import opened ShortIds

  /** One stored link: `{link: url, visitCount: n}`. */
  datatype Entry = Entry(link: string, visitCount: nat)

  /** One element of the array `getAllUrls` returns. */
  datatype UrlRecord = UrlRecord(shortId: string, link: string, visitCount: nat)

  /** The store after `urlDatabase[shortId] = {link, visitCount: 0}`. */
  function Added(db: map<string, Entry>, shortId: string, link: string): (r: map<string, Entry>)
    ensures r.Keys == db.Keys + {shortId}
    ensures r[shortId] == Entry(link, 0)
    ensures forall k :: k in db && k != shortId ==> r[k] == db[k]
  {
    db[shortId := Entry(link, 0)]
  }

  /** The store after `updateVisitCount(shortId)`. */
  function Visited(db: map<string, Entry>, shortId: string): (r: map<string, Entry>)
    ensures r.Keys == db.Keys
    ensures forall k :: k in db ==> r[k].link == db[k].link
    ensures forall k :: k in db ==>
      r[k].visitCount == db[k].visitCount + (if k == shortId then 1 else 0)
  {
    if shortId in db then
      db[shortId := db[shortId].(visitCount := db[shortId].visitCount + 1)]
    else
      db
  }

  /** `getAllUrls()` mirrors the store: one record per key, no key twice. */
  ghost predicate Mirrors(records: seq<UrlRecord>, db: map<string, Entry>) {
    && (forall i, j :: 0 <= i < j < |records| ==> records[i].shortId != records[j].shortId)
    && (forall i :: 0 <= i < |records| ==>
          records[i].shortId in db && db[records[i].shortId] == Entry(records[i].link, records[i].visitCount))
    && (forall k :: k in db ==> exists i :: 0 <= i < |records| && records[i].shortId == k)
  }

  /** The ids a listing names. */
  function IdsOf(records: seq<UrlRecord>): set<string> {
    set i | 0 <= i < |records| :: records[i].shortId
  }

  /** A listing without a repeated id has as many records as ids. */
  lemma {:induction false} DistinctIdsCount(records: seq<UrlRecord>)
    requires forall i, j :: 0 <= i < j < |records| ==> records[i].shortId != records[j].shortId
    ensures |IdsOf(records)| == |records|
  {
    if records != [] {
      var n := |records| - 1;
      var init := records[..n];
      DistinctIdsCount(init);
      assert IdsOf(records) == IdsOf(init) + {records[n].shortId};
      assert records[n].shortId !in IdsOf(init);
    }
  }

  /** The listing's length is the number of keys: `getAllUrls().length`. */
  lemma MirrorLength(records: seq<UrlRecord>, db: map<string, Entry>)
    requires Mirrors(records, db)
    ensures |records| == |db|
  {
    DistinctIdsCount(records);
    assert IdsOf(records) == db.Keys;
  }

  /** A listing never holds the same record twice. */
  lemma MirrorMultiplicity(records: seq<UrlRecord>, db: map<string, Entry>, x: UrlRecord)
    requires Mirrors(records, db)
    ensures multiset(records)[x] == if x in records then 1 else 0
  {
    if records != [] {
      var n := |records| - 1;
      var init := records[..n];
      assert records == init + [records[n]];
      MirrorsInit(records, db);
      MirrorMultiplicity(init, db - {records[n].shortId}, x);
      assert records[n] !in init;
    }
  }

  /** Dropping the last record of a listing mirrors the store without its key. */
  lemma MirrorsInit(records: seq<UrlRecord>, db: map<string, Entry>)
    requires Mirrors(records, db) && records != []
    ensures Mirrors(records[..|records| - 1], db - {records[|records| - 1].shortId})
  {
    var n := |records| - 1;
    var init := records[..n];
    forall k | k in db - {records[n].shortId}
      ensures exists i :: 0 <= i < |init| && init[i].shortId == k
    {
      var i :| 0 <= i < |records| && records[i].shortId == k;
      assert init[i].shortId == k;
    }
  }

  /**
   * Two listings of the same store are the same records, possibly in another
   * order: reading the listing twice without a change in between gives
   * identical contents.
   */
  lemma MirrorsAgree(a: seq<UrlRecord>, b: seq<UrlRecord>, db: map<string, Entry>)
    requires Mirrors(a, db) && Mirrors(b, db)
    ensures multiset(a) == multiset(b)
  {
    forall x ensures multiset(a)[x] == multiset(b)[x] {
      MirrorMultiplicity(a, db, x);
      MirrorMultiplicity(b, db, x);
      if x in a {
        var i :| 0 <= i < |a| && a[i] == x;
        var j :| 0 <= j < |b| && b[j].shortId == x.shortId;
      }
      if x in b {
        var j :| 0 <= j < |b| && b[j] == x;
        var i :| 0 <= i < |a| && a[i].shortId == x.shortId;
      }
    }
  }

  /** `updateVisitCount` repeated `n` times on the same id. */
  function VisitedTimes(db: map<string, Entry>, shortId: string, n: nat): map<string, Entry> {
    if n == 0 then db else Visited(VisitedTimes(db, shortId, n - 1), shortId)
  }

  /** `n` visits raise that entry's count by exactly `n` and change nothing else. */
  lemma {:induction false} VisitedTimesCount(db: map<string, Entry>, shortId: string, n: nat)
    ensures VisitedTimes(db, shortId, n).Keys == db.Keys
    ensures forall k :: k in db ==>
      && VisitedTimes(db, shortId, n)[k].link == db[k].link
      && VisitedTimes(db, shortId, n)[k].visitCount == db[k].visitCount + (if k == shortId then n else 0)
  {
    if n > 0 {
      VisitedTimesCount(db, shortId, n - 1);
    }
  }

  /**
   * A repeated id is not rejected: adding under a key already in use keeps
   * the number of keys, drops the old link and resets the count to 0.
   */
  lemma AddOverwrites(db: map<string, Entry>, shortId: string, link: string)
    requires shortId in db
    ensures |Added(db, shortId, link)| == |db|
    ensures Added(db, shortId, link).Keys == db.Keys
    ensures Added(db, shortId, link)[shortId].visitCount == 0
    ensures Added(db, shortId, link)[shortId].link == link
  {
    assert Added(db, shortId, link).Keys == db.Keys;
  }

  /** A store whose every key is a 7-character alphanumeric id, as `addUrl` writes them. */
  predicate KeysAreShortIds(db: map<string, Entry>) {
    forall k :: k in db ==> IsShortId(k)
  }

  /** The module-level object `urlDatabase` and the three functions over it. */
  class UrlDatabase {
    var urls: map<string, Entry>

    /**
     * Every key was produced by `generateId()`. This is what lets callers
     * apply the lemmas stated for `KeysAreShortIds` stores to `urls`.
     */
    ghost predicate Valid()
      reads this
    {
      KeysAreShortIds(urls)
    }

    /** `const urlDatabase = {}`. */
    constructor ()
      ensures Valid()
      ensures urls == map[]
    {
      urls := map[];
    }

    /**
     * `addUrl(url)`: generates an id with the default length and writes
     * `{link: url, visitCount: 0}` under it, whether or not the id was
     * already in use; returns the id.
     */
    method AddUrl(url: string, draws: seq<Draw>) returns (shortId: string)
      requires Valid()
      requires |draws| == DefaultIdLength
      modifies this
      ensures Valid()
      ensures shortId == IdOf(draws) && IsShortId(shortId)
      ensures urls == Added(old(urls), shortId, url)
    {
      shortId := GenerateId(DefaultIdLength, draws);
      urls := urls[shortId := Entry(url, 0)];
    }

    /** `getAllUrls()`: one record per entry, pushed while walking the keys. */
    method GetAllUrls() returns (records: seq<UrlRecord>)
      ensures Mirrors(records, urls)
    {
      records := [];
      var remaining := urls.Keys;
      while remaining != {}
        invariant remaining <= urls.Keys
        invariant forall i, j :: 0 <= i < j < |records| ==> records[i].shortId != records[j].shortId
        invariant forall i :: 0 <= i < |records| ==>
          && records[i].shortId in urls && records[i].shortId !in remaining
          && urls[records[i].shortId] == Entry(records[i].link, records[i].visitCount)
        invariant forall k :: k in urls && k !in remaining ==>
          exists i :: 0 <= i < |records| && records[i].shortId == k
        decreases remaining
      {
        var shortId :| shortId in remaining;
        var url := urls[shortId];
        ghost var before := records;
        records := records + [UrlRecord(shortId, url.link, url.visitCount)];
        remaining := remaining - {shortId};
        forall k | k in urls && k !in remaining
          ensures exists i :: 0 <= i < |records| && records[i].shortId == k
        {
          if k == shortId {
            assert records[|before|].shortId == k;
          } else {
            var i :| 0 <= i < |before| && before[i].shortId == k;
            assert records[i].shortId == k;
          }
        }
      }
    }

    /**
     * `updateVisitCount(shortId)`: adds 1 to the entry's `visitCount` if the
     * id is stored, and does nothing otherwise.
     */
    method UpdateVisitCount(shortId: string)
      requires Valid()
      modifies this
      ensures Valid()
      ensures urls == Visited(old(urls), shortId)
    {
      if shortId in urls {
        urls := urls[shortId := urls[shortId].(visitCount := urls[shortId].visitCount + 1)];
      }
    }
  }
}
