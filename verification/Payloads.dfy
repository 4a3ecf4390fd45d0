/** Converted chain data: what the converter hands to the publisher and to the live filter. */
module Payloads {
  import opened Common
  import opened Schema

  datatype NodeType = Branch | Extension | Leaf | Removed | Unknown

  /** ResolveFromNodeType: the integer stored in the node_type columns. */
  function NodeTypeCode(t: NodeType): int {
    match t
    case Branch => 0
    case Extension => 1
    case Leaf => 2
    case Removed => 3
    case Unknown => -1
  }

  datatype Uncle = Uncle(hash: string, raw: Bytes, info: string)

  datatype Tx = Tx(hash: string, src: string, dst: string, raw: Bytes)

  /** A receipt with its metadata; `topics` has one set per log topic position. */
  datatype Receipt = Receipt(txHash: string, raw: Bytes, topics: seq<seq<string>>, logContracts: seq<string>)

  datatype TrieNode = TrieNode(path: Bytes, leafKey: Bytes, value: Bytes, kind: NodeType)

  datatype ConvertedPayload = ConvertedPayload(
    number: nat, hash: string, headerRaw: Bytes, headerInfo: string,
    uncles: seq<Uncle>,
    txs: seq<Tx>,
    receipts: seq<Receipt>,
    txAndReceiptTries: seq<Bytes>,
    stateNodes: seq<TrieNode>,
    storageNodes: map<Bytes, seq<TrieNode>>)

  /** What DeriveFields guarantees: one receipt per transaction, in the same order. */
  predicate Paired(p: ConvertedPayload) {
    |p.receipts| == |p.txs| && forall i :: 0 <= i < |p.txs| ==> p.receipts[i].txHash == p.txs[i].hash
  }

  function StorageUnder(p: ConvertedPayload, path: Bytes): seq<TrieNode> {
    if path in p.storageNodes then p.storageNodes[path] else []
  }

  /** Library functions the watcher relies on. */
  datatype Env = Env(
    blockKey: Bytes -> string,          // multihash of a block, as a blockstore key
    hex: Bytes -> string,               // common.Hash to its 0x string
    unhex: string -> Bytes,             // common.HexToHash
    addressHash: string -> Bytes,       // keccak256 of an address given in hex
    account: Bytes -> Option<string>)   // RLP decoding of a state leaf into its account

  const NULL_HASH: Bytes :=
    [0, 0, 0, 0, 0, 0, 0, 0, 0, 0, 0, 0, 0, 0, 0, 0, 0, 0, 0, 0, 0, 0, 0, 0, 0, 0, 0, 0, 0, 0, 0, 0]

  predicate IsNull(key: Bytes) { key == NULL_HASH }

  /** The indexer stores an empty string for the null hash. */
  function StoredKey(env: Env, leafKey: Bytes): string {
    if env.hex(leafKey) == env.hex(NULL_HASH) then "" else env.hex(leafKey)
  }

  /** A nil topic slice is written as NULL. */
  function TopicColumn(topics: seq<string>): Option<seq<string>> {
    if topics == [] then None else Some(topics)
  }
}
