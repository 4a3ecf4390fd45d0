/** Backfill on the store: indexing heights is publishing their blocks. */
module BackfillStore {
  import opened Common
  import opened Schema
  import opened Payloads
  import opened Store
  import StoreRuns
  import Reindex
  import GapSearch
  import Pool
  import Backfill

  type Table = set<GapSearch.HeaderRow>

  /** The header table as the gap search sees it. */
  ghost function HeaderRows(rows: map<RowKey, Row>): Table {
    set h | h in rows && h.HeaderKey? && rows[h].cols.HeaderCols? ::
      GapSearch.HeaderRow(h.number, h.hash, rows[h].cols.timesValidated)
  }

  lemma InHeaderRows(rows: map<RowKey, Row>, r: GapSearch.HeaderRow)
    ensures var h := HeaderKey(r.number, r.hash);
            r in HeaderRows(rows) <==>
            h in rows && rows[h].cols.HeaderCols? && rows[h].cols.timesValidated == r.timesValidated
  {
    var h := HeaderKey(r.number, r.hash);
    if h in rows && rows[h].cols.HeaderCols? && rows[h].cols.timesValidated == r.timesValidated {
      assert GapSearch.HeaderRow(h.number, h.hash, rows[h].cols.timesValidated) == r;
    }
  }

  /** What indexing a height does to a single row. */
  lemma InIndex(t: Table, canon: int -> string, n: nat, r: GapSearch.HeaderRow)
    requires Backfill.ForkFree(t, canon)
    ensures r in Backfill.Index(t, canon, n) <==>
            if r.number == n && r.hash == canon(n) then r.timesValidated == Backfill.Times(t, n) + 1 else r in t
  {
    if GapSearch.At(t, n) {
      var q :| q in t && q.number == n;
      Backfill.TimesOf(t, canon, q);
    }
  }

  /** The header row of a block, against how often its height was indexed. */
  lemma TimesOfHeader(rows: map<RowKey, Row>, canon: int -> string, n: nat)
    requires Typed(rows) && Backfill.ForkFree(HeaderRows(rows), canon)
    ensures var h := HeaderKey(n, canon(n));
            Backfill.Times(HeaderRows(rows), n) == if h in rows then rows[h].cols.timesValidated else 0
  {
    var h, t := HeaderKey(n, canon(n)), HeaderRows(rows);
    if h in rows {
      assert Fits(TableOf(h), rows[h].cols);
      var r := GapSearch.HeaderRow(n, canon(n), rows[h].cols.timesValidated);
      InHeaderRows(rows, r);
      Backfill.TimesOf(t, canon, r);
    }
    if GapSearch.At(t, n) {
      var r :| r in t && r.number == n;
      InHeaderRows(rows, r);
    }
  }

  /** Publishing a block does to the header table what the backfill theorems take indexing to do. */
  lemma PublishIndexes(db: Database, env: Env, p: ConvertedPayload, canon: int -> string)
    requires Typed(db.rows) && Reindex.Effective(env, p) && canon(p.number) == p.hash
    requires Backfill.ForkFree(HeaderRows(db.rows), canon)
    ensures HeaderRows(Published(db, env, p).rows) == Backfill.Index(HeaderRows(db.rows), canon, p.number)
  {
    var after, t := Published(db, env, p), HeaderRows(db.rows);
    TimesOfHeader(db.rows, canon, p.number);
    forall r ensures r in HeaderRows(after.rows) <==> r in Backfill.Index(t, canon, p.number) {
      InHeaderRows(after.rows, r);
      InHeaderRows(db.rows, r);
      InIndex(t, canon, p.number, r);
      Reindex.HeaderAfterPublish(db, env, p, HeaderKey(r.number, r.hash));
    }
  }

  /** The chain: an effective block for every height, under its canonical hash. */
  ghost predicate Chain(env: Env, blocks: int -> ConvertedPayload, canon: int -> string) {
    forall n: nat :: blocks(n).number == n && blocks(n).hash == canon(n) && Reindex.Effective(env, blocks(n))
  }

  /** Publishing the blocks of the visited heights, one after the other. */
  function Publishes(blocks: int -> ConvertedPayload, visits: seq<int>): seq<StoreRuns.Event> {
    seq(|visits|, i requires 0 <= i < |visits| => StoreRuns.PublishEvent(blocks(visits[i])))
  }

  ghost predicate Natural(visits: seq<int>) {
    forall i :: 0 <= i < |visits| ==> visits[i] >= 0
  }

  /** After any history, publishing the blocks of the visited heights indexes exactly those heights. */
  lemma {:induction false} PublishesIndex(env: Env, evs: seq<StoreRuns.Event>, blocks: int -> ConvertedPayload,
                                          canon: int -> string, visits: seq<int>)
    requires Chain(env, blocks, canon) && Natural(visits)
    requires Backfill.ForkFree(HeaderRows(StoreRuns.Run(env, evs).rows), canon)
    ensures HeaderRows(StoreRuns.Run(env, evs + Publishes(blocks, visits)).rows)
         == Backfill.IndexAll(HeaderRows(StoreRuns.Run(env, evs).rows), canon, visits)
  {
    if visits == [] {
      assert evs + Publishes(blocks, visits) == evs;
    } else {
      var most, n := visits[..|visits| - 1], visits[|visits| - 1];
      var before := evs + Publishes(blocks, most);
      assert evs + Publishes(blocks, visits) == before + [StoreRuns.PublishEvent(blocks(n))];
      PublishesIndex(env, evs, blocks, canon, most);
      Backfill.IndexMany(HeaderRows(StoreRuns.Run(env, evs).rows), canon, most);
      OneMorePublish(env, before, blocks(n), canon);
    }
  }

  lemma OneMorePublish(env: Env, evs: seq<StoreRuns.Event>, p: ConvertedPayload, canon: int -> string)
    requires Reindex.Effective(env, p) && canon(p.number) == p.hash
    requires Backfill.ForkFree(HeaderRows(StoreRuns.Run(env, evs).rows), canon)
    ensures HeaderRows(StoreRuns.Run(env, evs + [StoreRuns.PublishEvent(p)]).rows)
         == Backfill.Index(HeaderRows(StoreRuns.Run(env, evs).rows), canon, p.number)
  {
    assert (evs + [StoreRuns.PublishEvent(p)])[..|evs|] == evs;
    StoreRuns.EveryRunIsConsistent(env, evs);
    PublishIndexes(StoreRuns.Run(env, evs), env, p, canon);
  }

  /** So a completed pool run over the bins that are due is, on the store, a pass of the backfill
      theorems: whatever the interleaving of its workers and whatever happened before. */
  lemma PassOnStore(env: Env, evs: seq<StoreRuns.Event>, blocks: int -> ConvertedPayload, canon: int -> string,
                    level: int, bins: seq<seq<int>>, n: nat, run: seq<Pool.Label>)
    requires Chain(env, blocks, canon)
    requires HeaderRows(StoreRuns.Run(env, evs).rows) != {}
    requires Backfill.ForkFree(HeaderRows(StoreRuns.Run(env, evs).rows), canon)
    requires forall h ::
               multiset(Flatten(bins))[h] == GapSearch.Due(HeaderRows(StoreRuns.Run(env, evs).rows), level, h)
    requires var pool := Pool.After(n, run); pool.Some? && !pool.value.active && pool.value.bins == bins
    ensures var visits := Pool.Visited(Pool.After(n, run).value.visits);
            Backfill.Pass(HeaderRows(StoreRuns.Run(env, evs).rows), canon, level, visits,
                          HeaderRows(StoreRuns.Run(env, evs + Publishes(blocks, visits)).rows))
  {
    var t, visits := HeaderRows(StoreRuns.Run(env, evs).rows), Pool.Visited(Pool.After(n, run).value.visits);
    Backfill.PoolMakesPass(t, canon, level, bins, n, run);
    PublishesIndex(env, evs, blocks, canon, visits);
  }
}
