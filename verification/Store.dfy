/** Publishing, cleaning and resetting as one state machine over the relational store. */
module Store {
  import opened Common
  import opened Schema
  import opened Payloads
  import opened Cleaner

  // ----- publishing -----

  /** One row to write, with the block it is stored under. */
  datatype Entry = Entry(key: RowKey, raw: Option<Bytes>, cols: Columns)

  function Apply(db: Database, env: Env, e: Entry): Database {
    match e.raw
    case Some(raw) => Upsert(InsertBlock(db, env.blockKey, raw), e.key, Some(env.blockKey(raw)), e.cols)
    case None => Upsert(db, e.key, None, e.cols)
  }

  function ApplyAll(db: Database, env: Env, es: seq<Entry>): Database {
    if es == [] then db else Apply(ApplyAll(db, env, es[..|es| - 1]), env, es[|es| - 1])
  }

  function InsertAll(db: Database, env: Env, raws: seq<Bytes>): Database {
    if raws == [] then db else InsertBlock(InsertAll(db, env, raws[..|raws| - 1]), env.blockKey, raws[|raws| - 1])
  }

  function HeaderOf(p: ConvertedPayload): RowKey { HeaderKey(p.number, p.hash) }

  function HeaderEntry(p: ConvertedPayload): Entry {
    Entry(HeaderOf(p), Some(p.headerRaw), HeaderCols(p.headerInfo, 1))
  }

  function UncleEntry(p: ConvertedPayload, u: Uncle): Entry {
    Entry(UncleKey(HeaderOf(p), u.hash), Some(u.raw), UncleCols(u.info))
  }

  function TxEntry(p: ConvertedPayload, i: nat): Entry
    requires i < |p.txs|
  {
    var tx := p.txs[i];
    Entry(TxKey(HeaderOf(p), tx.hash), Some(tx.raw), TxCols(tx.src, tx.dst, i))
  }

  function ReceiptEntry(p: ConvertedPayload, i: nat): Entry
    requires i < |p.txs| && i < |p.receipts|
  {
    var r := p.receipts[i];
    var topics := seq(|r.topics|, s requires 0 <= s < |r.topics| => TopicColumn(r.topics[s]));
    Entry(ReceiptKey(TxKey(HeaderOf(p), p.txs[i].hash)), Some(r.raw), ReceiptCols(topics, Some(r.logContracts)))
  }

  function StateKeyOf(p: ConvertedPayload, n: TrieNode): RowKey { StateKey(HeaderOf(p), n.path) }

  function StateEntry(env: Env, p: ConvertedPayload, n: TrieNode): Entry {
    Entry(StateKeyOf(p, n), Some(n.value), StateCols(StoredKey(env, n.leafKey), NodeTypeCode(n.kind)))
  }

  function StorageEntry(env: Env, p: ConvertedPayload, n: TrieNode, s: TrieNode): Entry {
    Entry(StorageKey(StateKeyOf(p, n), s.path), Some(s.value),
          StorageCols(StoredKey(env, s.leafKey), NodeTypeCode(s.kind)))
  }

  function UncleEntries(p: ConvertedPayload, n: nat): seq<Entry>
    requires n <= |p.uncles|
  {
    if n == 0 then [] else UncleEntries(p, n - 1) + [UncleEntry(p, p.uncles[n - 1])]
  }

  function PairEntries(p: ConvertedPayload, i: nat): seq<Entry>
    requires i < |p.txs| && i < |p.receipts|
  {
    [TxEntry(p, i)] + [ReceiptEntry(p, i)]
  }

  function TxEntries(p: ConvertedPayload, n: nat): seq<Entry>
    requires n <= |p.txs| && n <= |p.receipts|
  {
    if n == 0 then [] else TxEntries(p, n - 1) + PairEntries(p, n - 1)
  }

  function StorageEntries(env: Env, p: ConvertedPayload, n: TrieNode, m: nat): seq<Entry>
    requires m <= |StorageUnder(p, n.path)|
  {
    if m == 0 then [] else StorageEntries(env, p, n, m - 1) + [StorageEntry(env, p, n, StorageUnder(p, n.path)[m - 1])]
  }

  /** Account and storage rows hang only from leaves. */
  function LeafEntries(env: Env, p: ConvertedPayload, n: TrieNode): seq<Entry> {
    if n.kind == Leaf && env.account(n.value).Some? then
      [Entry(AccountKey(StateKeyOf(p, n)), None, AccountCols(env.account(n.value).value))]
      + StorageEntries(env, p, n, |StorageUnder(p, n.path)|)
    else []
  }

  function NodeEntries(env: Env, p: ConvertedPayload, n: TrieNode): seq<Entry> {
    [StateEntry(env, p, n)] + LeafEntries(env, p, n)
  }

  function StateEntries(env: Env, p: ConvertedPayload, n: nat): seq<Entry>
    requires n <= |p.stateNodes|
  {
    if n == 0 then []
    else StateEntries(env, p, n - 1) + NodeEntries(env, p, p.stateNodes[n - 1])
  }

  /** Everything below the header, in the order it is written. */
  function BodyEntries(env: Env, p: ConvertedPayload): seq<Entry>
    requires |p.txs| <= |p.receipts|
  {
    UncleEntries(p, |p.uncles|) + TxEntries(p, |p.txs|) + StateEntries(env, p, |p.stateNodes|)
  }

  function Entries(env: Env, p: ConvertedPayload): seq<Entry>
    requires |p.txs| <= |p.receipts|
  {
    [HeaderEntry(p)] + BodyEntries(env, p)
  }

  /** A state leaf that does not decode into an account fails the transaction. */
  predicate Decodes(env: Env, p: ConvertedPayload) {
    DecodesUpTo(env, p, |p.stateNodes|)
  }

  predicate DecodesUpTo(env: Env, p: ConvertedPayload, n: nat)
    requires n <= |p.stateNodes|
  {
    forall i :: 0 <= i < n && p.stateNodes[i].kind == Leaf ==> env.account(p.stateNodes[i].value).Some?
  }

  /** The effect of Publish: all of it, or nothing. */
  function Published(db: Database, env: Env, p: ConvertedPayload): Database {
    if |p.txs| <= |p.receipts| && Decodes(env, p) then
      ApplyAll(InsertAll(db, env, p.txAndReceiptTries), env, Entries(env, p))
    else db
  }

  // ----- resetting -----

  function ResetRow(k: RowKey, row: Row, lo: nat, hi: nat): Row {
    if k.HeaderKey? && lo <= k.number <= hi && row.cols.HeaderCols?
    then row.(cols := row.cols.(timesValidated := 0))
    else row
  }

  function Reset(db: Database, lo: nat, hi: nat): Database {
    db.(rows := map k | k in db.rows :: ResetRow(k, db.rows[k], lo, hi))
  }

  function ResetAll(db: Database, rngs: seq<(nat, nat)>): Database {
    if rngs == [] then db else Reset(ResetAll(db, rngs[..|rngs| - 1]), rngs[|rngs| - 1].0, rngs[|rngs| - 1].1)
  }

  function CleanAll(db: Database, rngs: seq<(nat, nat)>, ty: DataType): Database
    requires ty != UnknownData
  {
    if rngs == [] then db
    else CleanType(CleanAll(db, rngs[..|rngs| - 1], ty), ty, rngs[|rngs| - 1].0, rngs[|rngs| - 1].1)
  }

  // ----- the operations on the database -----

  lemma ApplyNext(db: Database, env: Env, es: seq<Entry>, e: Entry)
    ensures ApplyAll(db, env, es + [e]) == Apply(ApplyAll(db, env, es), env, e)
  {
    assert (es + [e])[..|es|] == es;
  }

  lemma ApplyOne(db: Database, env: Env, e: Entry)
    ensures ApplyAll(db, env, [e]) == Apply(db, env, e)
  {
    assert [e][..0] == [];
  }

  lemma {:induction false} ApplyAppend(db: Database, env: Env, es: seq<Entry>, fs: seq<Entry>)
    ensures ApplyAll(db, env, es + fs) == ApplyAll(ApplyAll(db, env, es), env, fs)
  {
    if fs == [] {
      assert es + fs == es;
    } else {
      var n := |fs| - 1;
      ApplyAppend(db, env, es, fs[..n]);
      assert es + fs == (es + fs[..n]) + [fs[n]];
      ApplyNext(db, env, es + fs[..n], fs[n]);
    }
  }

  /** Blocks and rows are separate tables, so two blocks then two rows is two entries. */
  lemma NextPair(db: Database, env: Env, p: ConvertedPayload, i: nat)
    requires i < |p.txs| && i < |p.receipts|
    ensures ApplyAll(db, env, TxEntries(p, i + 1))
         == Apply(Apply(ApplyAll(db, env, TxEntries(p, i)), env, TxEntry(p, i)), env, ReceiptEntry(p, i))
  {
    var before := ApplyAll(db, env, TxEntries(p, i));
    ApplyAppend(db, env, TxEntries(p, i), PairEntries(p, i));
    ApplyNext(before, env, [TxEntry(p, i)], ReceiptEntry(p, i));
    ApplyOne(before, env, TxEntry(p, i));
  }

  lemma NextNode(db: Database, env: Env, p: ConvertedPayload, i: nat)
    requires i < |p.stateNodes|
    ensures ApplyAll(db, env, StateEntries(env, p, i + 1))
         == ApplyAll(ApplyAll(db, env, StateEntries(env, p, i)), env, NodeEntries(env, p, p.stateNodes[i]))
  {
    ApplyAppend(db, env, StateEntries(env, p, i), NodeEntries(env, p, p.stateNodes[i]));
  }

  lemma PairOfEntries(db: Database, env: Env, a: Entry, b: Entry)
    requires a.raw.Some? && b.raw.Some?
    ensures var blocks := InsertBlock(InsertBlock(db, env.blockKey, a.raw.value), env.blockKey, b.raw.value);
            Upsert(Upsert(blocks, a.key, Some(env.blockKey(a.raw.value)), a.cols),
                   b.key, Some(env.blockKey(b.raw.value)), b.cols)
            == Apply(Apply(db, env, a), env, b)
  {
  }

  /** The database connection shared by publisher and cleaner; each method is one transaction. */
  class Connection {
    var db: Database
    const env: Env

    constructor (env: Env)
      ensures this.env == env && db == Database(map[], map[], 0)
    {
      this.env := env;
      this.db := Database(map[], map[], 0);
    }

    method PublishUncles(start: Database, p: ConvertedPayload) returns (tx: Database)
      ensures tx == ApplyAll(start, env, UncleEntries(p, |p.uncles|))
    {
      tx := start;
      for i := 0 to |p.uncles|
        invariant tx == ApplyAll(start, env, UncleEntries(p, i))
      {
        var u := p.uncles[i];
        ApplyNext(start, env, UncleEntries(p, i), UncleEntry(p, u));
        tx := InsertBlock(tx, env.blockKey, u.raw);
        tx := Upsert(tx, UncleKey(HeaderOf(p), u.hash), Some(env.blockKey(u.raw)), UncleCols(u.info));
      }
    }

    method PublishPair(start: Database, a: Entry, b: Entry) returns (tx: Database)
      requires a.raw.Some? && b.raw.Some?
      ensures tx == Apply(Apply(start, env, a), env, b)
    {
      tx := InsertBlock(start, env.blockKey, a.raw.value);
      tx := InsertBlock(tx, env.blockKey, b.raw.value);
      tx := Upsert(tx, a.key, Some(env.blockKey(a.raw.value)), a.cols);
      tx := Upsert(tx, b.key, Some(env.blockKey(b.raw.value)), b.cols);
      PairOfEntries(start, env, a, b);
    }

    method PublishTxsAndReceipts(start: Database, p: ConvertedPayload) returns (tx: Database)
      requires |p.txs| <= |p.receipts|
      ensures tx == ApplyAll(start, env, TxEntries(p, |p.txs|))
    {
      tx := start;
      for i := 0 to |p.txs|
        invariant tx == ApplyAll(start, env, TxEntries(p, i))
      {
        tx := PublishTxAndReceipt(start, tx, p, i);
      }
    }

    /** The body of the loop. */
    method PublishTxAndReceipt(ghost start: Database, before: Database, p: ConvertedPayload,
                               i: nat)
      returns (tx: Database)
      requires i < |p.txs| && i < |p.receipts| && before == ApplyAll(start, env, TxEntries(p, i))
      ensures tx == ApplyAll(start, env, TxEntries(p, i + 1))
    {
      tx := PublishPair(before, TxEntry(p, i), ReceiptEntry(p, i));
      NextPair(start, env, p, i);
    }

    method PublishStorage(start: Database, p: ConvertedPayload, n: TrieNode) returns (tx: Database)
      ensures tx == ApplyAll(start, env, StorageEntries(env, p, n, |StorageUnder(p, n.path)|))
    {
      tx := start;
      var nodes := StorageUnder(p, n.path);
      for i := 0 to |nodes|
        invariant tx == ApplyAll(start, env, StorageEntries(env, p, n, i))
      {
        var e := StorageEntry(env, p, n, nodes[i]);
        ApplyNext(start, env, StorageEntries(env, p, n, i), e);
        tx := InsertBlock(tx, env.blockKey, nodes[i].value);
        tx := Upsert(tx, e.key, Some(env.blockKey(nodes[i].value)), e.cols);
      }
    }

    method PublishStateNode(start: Database, p: ConvertedPayload, n: TrieNode) returns (tx: Database, ok: bool)
      ensures ok <==> n.kind == Leaf ==> env.account(n.value).Some?
      ensures ok ==> tx == ApplyAll(start, env, NodeEntries(env, p, n))
    {
      var e := StateEntry(env, p, n);
      tx := InsertBlock(start, env.blockKey, n.value);
      tx := Upsert(tx, e.key, Some(env.blockKey(n.value)), e.cols);
      ok := true;
      ApplyOne(start, env, e);
      ApplyAppend(start, env, [e], LeafEntries(env, p, n));
      if n.kind == Leaf {
        var account := env.account(n.value);
        if account.None? {
          return tx, false;
        }
        ghost var a := Entry(AccountKey(StateKeyOf(p, n)), None, AccountCols(account.value));
        ApplyOne(tx, env, a);
        ApplyAppend(tx, env, [a], StorageEntries(env, p, n, |StorageUnder(p, n.path)|));
        tx := Upsert(tx, AccountKey(StateKeyOf(p, n)), None, AccountCols(account.value));
        tx := PublishStorage(tx, p, n);
      }
    }

    method PublishStateAndStorage(start: Database, p: ConvertedPayload) returns (tx: Database, ok: bool)
      ensures ok <==> Decodes(env, p)
      ensures ok ==> tx == ApplyAll(start, env, StateEntries(env, p, |p.stateNodes|))
    {
      tx, ok := start, true;
      for i := 0 to |p.stateNodes|
        invariant ok
        invariant DecodesUpTo(env, p, i)
        invariant tx == ApplyAll(start, env, StateEntries(env, p, i))
      {
        var n := p.stateNodes[i];
        NextNode(start, env, p, i);
        tx, ok := PublishStateNode(tx, p, n);
        if !ok {
          return;
        }
      }
    }

    /** Publishes and indexes one payload; a failing leaf rolls everything back. */
    method Publish(p: ConvertedPayload) returns (ok: bool)
      requires |p.txs| <= |p.receipts|
      modifies this`db
      ensures ok <==> Decodes(env, p)
      ensures db == Published(old(db), env, p)
    {
      var tx := db;
      ghost var tries := p.txAndReceiptTries;
      for i := 0 to |p.txAndReceiptTries|
        invariant tx == InsertAll(db, env, tries[..i])
      {
        assert tries[..i + 1][..i] == tries[..i];
        tx := InsertBlock(tx, env.blockKey, p.txAndReceiptTries[i]);
      }
      assert tries[..|tries|] == tries;
      ghost var start := tx;

      tx := InsertBlock(tx, env.blockKey, p.headerRaw);
      tx := Upsert(tx, HeaderOf(p), Some(env.blockKey(p.headerRaw)), HeaderCols(p.headerInfo, 1));
      tx := PublishUncles(tx, p);
      tx := PublishTxsAndReceipts(tx, p);
      tx, ok := PublishStateAndStorage(tx, p);
      if ok {
        ApplyBody(start, env, p);
        db := tx;
      }
    }

    method Clean(rngs: seq<(nat, nat)>, ty: DataType) returns (ok: bool)
      modifies this`db
      ensures ok <==> ty != UnknownData || rngs == []
      ensures db == if ty != UnknownData then CleanAll(old(db), rngs, ty) else old(db)
    {
      var tx := db;
      for i := 0 to |rngs|
        invariant i == 0 ==> tx == db
        invariant ty != UnknownData ==> tx == CleanAll(db, rngs[..i], ty)
        invariant ty == UnknownData ==> i == 0
      {
        if ty == UnknownData {
          return false;
        }
        assert rngs[..i + 1][..i] == rngs[..i];
        tx := CleanType(tx, ty, rngs[i].0, rngs[i].1);
      }
      assert rngs[..|rngs|] == rngs;
      db := tx;
      ok := true;
    }

    method ResetValidation(rngs: seq<(nat, nat)>)
      modifies this`db
      ensures db == ResetAll(old(db), rngs)
    {
      var tx := db;
      for i := 0 to |rngs|
        invariant tx == ResetAll(db, rngs[..i])
      {
        assert rngs[..i + 1][..i] == rngs[..i];
        tx := Reset(tx, rngs[i].0, rngs[i].1);
      }
      assert rngs[..|rngs|] == rngs;
      db := tx;
    }
  }

  lemma ApplyThree(db: Database, env: Env, a: seq<Entry>, b: seq<Entry>, c: seq<Entry>)
    ensures ApplyAll(db, env, a + b + c) == ApplyAll(ApplyAll(ApplyAll(db, env, a), env, b), env, c)
  {
    ApplyAppend(db, env, a, b);
    ApplyAppend(db, env, a + b, c);
  }

  lemma ApplyBody(start: Database, env: Env, p: ConvertedPayload)
    requires |p.txs| <= |p.receipts|
    ensures var header := Apply(start, env, HeaderEntry(p));
            var uncles := ApplyAll(header, env, UncleEntries(p, |p.uncles|));
            var txs := ApplyAll(uncles, env, TxEntries(p, |p.txs|));
            ApplyAll(start, env, Entries(env, p)) == ApplyAll(txs, env, StateEntries(env, p, |p.stateNodes|))
  {
    ApplyOne(start, env, HeaderEntry(p));
    ApplyAppend(start, env, [HeaderEntry(p)], BodyEntries(env, p));
    ApplyThree(Apply(start, env, HeaderEntry(p)), env,
               UncleEntries(p, |p.uncles|), TxEntries(p, |p.txs|), StateEntries(env, p, |p.stateNodes|));
  }
}
