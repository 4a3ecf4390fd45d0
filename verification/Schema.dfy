/** The content-addressed block table and the index tables, and what statements do through foreign keys. */
module Schema {
  import opened Common

  type Bytes = seq<Byte>

  datatype Table = Headers | Uncles | Transactions | Receipts | States | Accounts | Storages

  /** A row is named by its unique key, with the parent row in place of the parent's serial id. */
  datatype RowKey =
    | HeaderKey(number: nat, hash: string)
    | UncleKey(header: RowKey, hash: string)
    | TxKey(header: RowKey, hash: string)
    | ReceiptKey(tx: RowKey)
    | StateKey(header: RowKey, path: Bytes)
    | AccountKey(state: RowKey)
    | StorageKey(state: RowKey, path: Bytes)

  function TableOf(k: RowKey): Table {
    match k
    case HeaderKey(_, _) => Headers
    case UncleKey(_, _) => Uncles
    case TxKey(_, _) => Transactions
    case ReceiptKey(_) => Receipts
    case StateKey(_, _) => States
    case AccountKey(_) => Accounts
    case StorageKey(_, _) => Storages
  }

  function Parent(k: RowKey): Option<RowKey> {
    match k
    case HeaderKey(_, _) => None
    case UncleKey(h, _) => Some(h)
    case TxKey(h, _) => Some(h)
    case ReceiptKey(t) => Some(t)
    case StateKey(h, _) => Some(h)
    case AccountKey(s) => Some(s)
    case StorageKey(s, _) => Some(s)
  }

  /** Each foreign key points into the table the schema names. */
  predicate WellFormed(k: RowKey) {
    match k
    case HeaderKey(_, _) => true
    case UncleKey(h, _) => h.HeaderKey?
    case TxKey(h, _) => h.HeaderKey?
    case ReceiptKey(t) => t.TxKey? && WellFormed(t)
    case StateKey(h, _) => h.HeaderKey?
    case AccountKey(s) => s.StateKey? && WellFormed(s)
    case StorageKey(s, _) => s.StateKey? && WellFormed(s)
  }

  /** The height of the header a row hangs from. */
  function Height(k: RowKey): nat {
    match k
    case HeaderKey(n, _) => n
    case UncleKey(h, _) => Height(h)
    case TxKey(h, _) => Height(h)
    case ReceiptKey(t) => Height(t)
    case StateKey(h, _) => Height(h)
    case AccountKey(s) => Height(s)
    case StorageKey(s, _) => Height(s)
  }

  /** The columns outside the unique key. Columns always written together are one field, `info`. */
  datatype Columns =
    | HeaderCols(info: string, timesValidated: int)
    | UncleCols(info: string)
    | TxCols(src: string, dst: string, index: nat)
    | ReceiptCols(topics: seq<Option<seq<string>>>, logContracts: Option<seq<string>>)
    | StateCols(leafKey: string, nodeType: int)
    | AccountCols(info: string)
    | StorageCols(leafKey: string, nodeType: int)

  predicate Fits(t: Table, c: Columns) {
    match t
    case Headers => c.HeaderCols?
    case Uncles => c.UncleCols?
    case Transactions => c.TxCols?
    case Receipts => c.ReceiptCols?
    case States => c.StateCols?
    case Accounts => c.AccountCols?
    case Storages => c.StorageCols?
  }

  /** Every table but state_accounts carries an mh_key. */
  datatype Row = Row(id: nat, mhKey: Option<string>, cols: Columns)

  datatype Database = Database(blocks: map<string, Bytes>, rows: map<RowKey, Row>, nextId: nat)

  // ----- what the schema promises -----

  /** Foreign keys between index tables. */
  ghost predicate RefClosed(rows: map<RowKey, Row>) {
    forall k :: k in rows ==> WellFormed(k) && (Parent(k).Some? ==> Parent(k).value in rows)
  }

  ghost predicate Typed(rows: map<RowKey, Row>) {
    forall k :: k in rows ==> Fits(TableOf(k), rows[k].cols) && (rows[k].mhKey.None? <==> k.AccountKey?)
  }

  /** mh_key foreign keys into the block table. */
  ghost predicate Backed(db: Database) {
    forall k :: k in db.rows && db.rows[k].mhKey.Some? ==> db.rows[k].mhKey.value in db.blocks
  }

  /** Serial ids are never reused. */
  ghost predicate IdsUnique(db: Database) {
    && (forall k :: k in db.rows ==> db.rows[k].id < db.nextId)
    && (forall k, l :: k in db.rows && l in db.rows && db.rows[k].id == db.rows[l].id ==> k == l)
  }

  /** A block is stored under the hash of its bytes. */
  ghost predicate ContentAddressed(db: Database, hash: Bytes -> string) {
    forall key :: key in db.blocks ==> key == hash(db.blocks[key])
  }

  ghost predicate Consistent(db: Database, hash: Bytes -> string) {
    RefClosed(db.rows) && Typed(db.rows) && Backed(db) && IdsUnique(db) && ContentAddressed(db, hash)
  }

  // ----- statements -----

  /** INSERT INTO public.blocks ... ON CONFLICT (key) DO NOTHING. */
  function InsertBlock(db: Database, hash: Bytes -> string, raw: Bytes): Database {
    if hash(raw) in db.blocks then db else db.(blocks := db.blocks[hash(raw) := raw])
  }

  /** INSERT ... ON CONFLICT (unique key) DO UPDATE; a conflicting header is validated once more.
      The serial is drawn before the conflict is noticed. */
  function Upsert(db: Database, k: RowKey, mhKey: Option<string>, cols: Columns): Database {
    var row :=
      if k !in db.rows then Row(db.nextId, mhKey, cols)
      else
        var prior := db.rows[k];
        Row(prior.id, mhKey,
            if cols.HeaderCols? && prior.cols.HeaderCols? then cols.(timesValidated := prior.cols.timesValidated + 1)
            else cols);
    db.(rows := db.rows[k := row], nextId := db.nextId + 1)
  }

  /** A deletion spreads from the rows it hits to everything that refers to them. */
  predicate Falls(hit: set<RowKey>, k: RowKey)
    decreases k
  {
    k in hit || (Parent(k).Some? && Falls(hit, Parent(k).value))
  }

  function DeleteRows(db: Database, hit: set<RowKey>): Database {
    db.(rows := map k | k in db.rows && !Falls(hit, k) :: db.rows[k])
  }

  function Holding(rows: map<RowKey, Row>, keys: set<string>): set<RowKey> {
    set k | k in rows && rows[k].mhKey.Some? && rows[k].mhKey.value in keys
  }

  /** DELETE FROM public.blocks: every referring row goes too, with its descendants. */
  function DeleteBlocks(db: Database, keys: set<string>): Database {
    DeleteRows(db, Holding(db.rows, keys)).(blocks := db.blocks - keys)
  }
}
