/** The watcher service: subscriptions grouped by the hash of their settings, and the serving loop.
    Two maps are kept in step, from the hash to the subscribers and from the hash to the settings, and
    every method that changes them runs under the service's lock, so each is one step. Channels are known
    by number; what the service does to them is to send without blocking. */
module WatcherService {
  import opened Common
  import opened Payloads
  import opened LiveFilter

  datatype Chain = Ethereum | Bitcoin | Omni | EthereumClassic

  datatype Params = Params(chain: Chain, historicalData: bool, historicalDataOnly: bool, settings: Settings)

  datatype Subscription = Subscription(id: string, payloadChan: int, quitChan: int)

  datatype Message = Failure(error: string) | Data(response: IPLDs, height: int)

  const WRONG_CHAIN := "subscription is for another chain"
  const NOT_SERIALISED := "settings can not be serialised"
  const NO_HISTORY := "subscriber backfill error"

  // ----- channels: what was sent, and how many more sends would not block -----

  datatype Channel<T> = Channel(sent: seq<T>, room: nat)

  /** A send with a default branch; a channel nobody made is never ready. */
  function TrySend<T>(chans: map<int, Channel<T>>, c: int, m: T): map<int, Channel<T>> {
    if c in chans && chans[c].room > 0 then chans[c := Channel(chans[c].sent + [m], chans[c].room - 1)] else chans
  }

  function Min(a: nat, b: nat): nat { if a < b then a else b }

  /** A channel after k tries to send the same message. */
  function Sends<T>(ch: Channel<T>, m: T, k: nat): Channel<T> {
    Channel(ch.sent + seq(Min(k, ch.room), _ => m), ch.room - Min(k, ch.room))
  }

  lemma SendsCompose<T>(ch: Channel<T>, m: T, a: nat, b: nat)
    ensures Sends(Sends(ch, m, a), m, b) == Sends(ch, m, a + b)
  {
  }

  lemma SendsOneMore<T>(chans: map<int, Channel<T>>, before: map<int, Channel<T>>, c: int, m: T, k: nat)
    requires c in before && c in chans && chans[c] == Sends(before[c], m, k)
    ensures TrySend(chans, c, m)[c] == Sends(before[c], m, k + 1)
  {
  }

  /** `after` is `before` with k tries to send messages that satisfy `good`. */
  ghost predicate Received<T>(before: Channel<T>, after: Channel<T>, k: nat, good: T -> bool) {
    && |after.sent| == |before.sent| + Min(k, before.room)
    && after.sent[..|before.sent|] == before.sent
    && after.room == before.room - Min(k, before.room)
    && forall i :: |before.sent| <= i < |after.sent| ==> good(after.sent[i])
  }

  lemma ReceivedMore<T(!new)>(a: Channel<T>, b: Channel<T>, k: nat, good: T -> bool, m: T, j: nat, better: T -> bool)
    requires Received(a, b, k, good)
    requires forall x :: good(x) ==> better(x)
    requires j > 0 ==> better(m)
    ensures Received(a, Sends(b, m, j), k + j, better)
  {
    var c := Sends(b, m, j);
    assert c.sent[..|a.sent|] == b.sent[..|a.sent|];
    forall i | |a.sent| <= i < |c.sent| ensures better(c.sent[i]) {
      if i < |b.sent| { assert c.sent[i] == b.sent[i] && good(b.sent[i]); } else { assert c.sent[i] == m; }
    }
  }

  // ----- who uses a channel -----

  type Subs = map<string, Subscription>
  type AllSubs = map<string, Subs>
  type Types = map<string, Params>
  type PayloadChans = map<int, Channel<Message>>
  type QuitChans = map<int, Channel<bool>>

  function PayloadUsers(subs: Subs, ids: set<string>, c: int): set<string> {
    set id | id in ids && id in subs && subs[id].payloadChan == c
  }

  function QuitUsers(subs: Subs, ids: set<string>, c: int): set<string> {
    set id | id in ids && id in subs && subs[id].quitChan == c
  }

  /** Subscribers of the given types that receive on channel c. */
  ghost function Receivers(all: AllSubs, types: set<string>, c: int): set<(string, string)> {
    set ty, id | ty in types && ty in all && id in all[ty] && all[ty][id].payloadChan == c :: (ty, id)
  }

  ghost function Quitters(all: AllSubs, types: set<string>, c: int): set<(string, string)> {
    set ty, id | ty in types && ty in all && id in all[ty] && all[ty][id].quitChan == c :: (ty, id)
  }

  lemma {:induction false} PairCount(ty: string, ids: set<string>)
    ensures |set id | id in ids :: (ty, id)| == |ids|
    decreases ids
  {
    var pairs := set id | id in ids :: (ty, id);
    if ids == {} {
      assert pairs == {};
    } else {
      var x :| x in ids;
      PairCount(ty, ids - {x});
      assert pairs == (set id | id in ids - {x} :: (ty, id)) + {(ty, x)};
    }
  }

  lemma ReceiversSplit(all: AllSubs, types: set<string>, ty: string, c: int)
    requires ty in all && ty !in types
    ensures |Receivers(all, types + {ty}, c)| == |Receivers(all, types, c)| + |PayloadUsers(all[ty], all[ty].Keys, c)|
  {
    var users := PayloadUsers(all[ty], all[ty].Keys, c);
    var mine, others := set id | id in users :: (ty, id), Receivers(all, types, c);
    PairCount(ty, users);
    assert forall r :: r in Receivers(all, types + {ty}, c) <==> r in others || r in mine;
    assert forall r :: r in others ==> r.0 in types;
    assert Receivers(all, types + {ty}, c) == others + mine && others !! mine;
  }

  lemma QuittersSplit(all: AllSubs, types: set<string>, ty: string, c: int)
    requires ty in all && ty !in types
    ensures |Quitters(all, types + {ty}, c)| == |Quitters(all, types, c)| + |QuitUsers(all[ty], all[ty].Keys, c)|
  {
    var users := QuitUsers(all[ty], all[ty].Keys, c);
    var mine, others := set id | id in users :: (ty, id), Quitters(all, types, c);
    PairCount(ty, users);
    assert forall r :: r in Quitters(all, types + {ty}, c) <==> r in others || r in mine;
    assert forall r :: r in others ==> r.0 in types;
    assert Quitters(all, types + {ty}, c) == others + mine && others !! mine;
  }

  /** Every channel after the subscribers in `ids` were each sent m. */
  ghost predicate SentTo<T>(before: map<int, Channel<T>>, after: map<int, Channel<T>>,
                            users: int -> set<string>, m: T)
  {
    && after.Keys == before.Keys
    && forall c :: c in before ==> after[c] == Sends(before[c], m, |users(c)|)
  }

  ghost predicate SentQuit(before: QuitChans, now: QuitChans, subs: Subs, done: set<string>) {
    SentTo(before, now, c => QuitUsers(subs, done, c), true)
  }

  ghost predicate SentPayload(before: PayloadChans, now: PayloadChans, subs: Subs, done: set<string>, m: Message) {
    SentTo(before, now, c => PayloadUsers(subs, done, c), m)
  }

  lemma NoQuitsYet(chans: QuitChans, subs: Subs)
    ensures SentQuit(chans, chans, subs, {})
  {
    assert forall c :: QuitUsers(subs, {}, c) == {};
  }

  lemma NoPayloadsYet(chans: PayloadChans, subs: Subs, m: Message)
    ensures SentPayload(chans, chans, subs, {}, m)
  {
    assert forall c :: PayloadUsers(subs, {}, c) == {};
  }

  lemma OneQuitMore(before: QuitChans, now: QuitChans, subs: Subs, done: set<string>, id: string)
    requires SentQuit(before, now, subs, done) && id in subs && id !in done
    ensures SentQuit(before, TrySend(now, subs[id].quitChan, true), subs, done + {id})
  {
    forall c | c in before
      ensures TrySend(now, subs[id].quitChan, true)[c] == Sends(before[c], true, |QuitUsers(subs, done + {id}, c)|)
    {
      if c == subs[id].quitChan {
        assert QuitUsers(subs, done + {id}, c) == QuitUsers(subs, done, c) + {id};
        SendsOneMore(now, before, c, true, |QuitUsers(subs, done, c)|);
      } else {
        assert QuitUsers(subs, done + {id}, c) == QuitUsers(subs, done, c);
      }
    }
  }

  lemma OnePayloadMore(before: PayloadChans, now: PayloadChans, subs: Subs, done: set<string>, id: string, m: Message)
    requires SentPayload(before, now, subs, done, m) && id in subs && id !in done
    ensures SentPayload(before, TrySend(now, subs[id].payloadChan, m), subs, done + {id}, m)
  {
    forall c | c in before
      ensures TrySend(now, subs[id].payloadChan, m)[c] == Sends(before[c], m, |PayloadUsers(subs, done + {id}, c)|)
    {
      if c == subs[id].payloadChan {
        assert PayloadUsers(subs, done + {id}, c) == PayloadUsers(subs, done, c) + {id};
        SendsOneMore(now, before, c, m, |PayloadUsers(subs, done, c)|);
      } else {
        assert PayloadUsers(subs, done + {id}, c) == PayloadUsers(subs, done, c);
      }
    }
  }

  // ----- counting over types -----

  /** Each quit channel got one quit per subscriber of the closed types, as far as it had room. */
  ghost predicate AllQuit(before: QuitChans, after: QuitChans, all: AllSubs, closed: set<string>) {
    && after.Keys == before.Keys
    && forall c :: c in before ==> after[c] == Sends(before[c], true, |Quitters(all, closed, c)|)
  }

  lemma NoQuitters(all: AllSubs, chans: QuitChans)
    ensures AllQuit(chans, chans, all, {})
  {
    assert forall c :: Quitters(all, {}, c) == {};
  }

  lemma MoreQuit(before: QuitChans, now: QuitChans, after: QuitChans,
                 all: AllSubs, closed: set<string>, ty: string)
    requires AllQuit(before, now, all, closed) && ty in all && ty !in closed
    requires SentQuit(now, after, all[ty], all[ty].Keys)
    ensures AllQuit(before, after, all, closed + {ty})
  {
    forall c | c in before ensures after[c] == Sends(before[c], true, |Quitters(all, closed + {ty}, c)|) {
      QuittersSplit(all, closed, ty, c);
      SendsCompose(before[c], true, |Quitters(all, closed, c)|, |QuitUsers(all[ty], all[ty].Keys, c)|);
    }
  }

  /** A payload of the block's height, filtered for a served type with a subscriber on the channel. */
  ghost predicate Proper(all: AllSubs, types: Types, served: set<string>, env: Env, p: ConvertedPayload,
                         c: int, m: Message)
  {
    exists r :: r in Receivers(all, served, c) && r.0 in types
                && m == Data(LiveResponse(env, types[r.0].settings, p), p.number)
  }

  /** Each payload channel got one such payload per subscriber of the served types, as far as it had room. */
  ghost predicate AllServed(before: PayloadChans, after: PayloadChans,
                            all: AllSubs, types: Types, served: set<string>, env: Env, p: ConvertedPayload)
  {
    && after.Keys == before.Keys
    && forall c :: c in before ==>
         Received(before[c], after[c], |Receivers(all, served, c)|, m => Proper(all, types, served, env, p, c, m))
  }

  lemma NoReceivers(all: AllSubs, types: Types, chans: PayloadChans, env: Env, p: ConvertedPayload)
    ensures AllServed(chans, chans, all, types, {}, env, p)
  {
    assert forall c :: Receivers(all, {}, c) == {};
  }

  lemma MoreServed(before: PayloadChans, now: PayloadChans, after: PayloadChans,
                   all: AllSubs, types: Types, served: set<string>, ty: string, env: Env, p: ConvertedPayload)
    requires AllServed(before, now, all, types, served, env, p) && ty in all && ty in types && ty !in served
    requires SentPayload(now, after, all[ty], all[ty].Keys, Data(LiveResponse(env, types[ty].settings, p), p.number))
    ensures AllServed(before, after, all, types, served + {ty}, env, p)
  {
    var m := Data(LiveResponse(env, types[ty].settings, p), p.number);
    forall c | c in before
      ensures Received(before[c], after[c], |Receivers(all, served + {ty}, c)|,
                       m => Proper(all, types, served + {ty}, env, p, c, m))
    {
      ReceiversSplit(all, served, ty, c);
      var users := PayloadUsers(all[ty], all[ty].Keys, c);
      if |users| > 0 {
        var id :| id in users;
        assert (ty, id) in Receivers(all, served + {ty}, c);
        assert Proper(all, types, served + {ty}, env, p, c, m);
      }
      assert Receivers(all, served, c) <= Receivers(all, served + {ty}, c);
      ReceivedMore(before[c], now[c], |Receivers(all, served, c)|, m => Proper(all, types, served, env, p, c, m),
                   m, |users|, m => Proper(all, types, served + {ty}, env, p, c, m));
    }
  }

  /** So a subscriber of a served type that alone uses a channel with room gets exactly one payload. */
  lemma ExactlyOnePayload(before: PayloadChans, after: PayloadChans,
                          all: AllSubs, types: Types, served: set<string>, env: Env, p: ConvertedPayload,
                          ty: string, id: string)
    requires AllServed(before, after, all, types, served, env, p)
    requires ty in all && ty in types && ty in served && id in all[ty]
    requires all[ty][id].payloadChan in before && before[all[ty][id].payloadChan].room > 0
    requires forall x :: x in Receivers(all, served, all[ty][id].payloadChan) ==> x == (ty, id)
    ensures var c := all[ty][id].payloadChan;
            after[c].sent == before[c].sent + [Data(LiveResponse(env, types[ty].settings, p), p.number)]
  {
    var c := all[ty][id].payloadChan;
    assert Receivers(all, served, c) == {(ty, id)};
    var n := |before[c].sent|;
    assert Proper(all, types, served, env, p, c, after[c].sent[n]);
    assert after[c].sent == after[c].sent[..n] + [after[c].sent[n]];
  }

  /** What the chain's filterer and the encoder do that is not seen here: on which settings filtering fails,
      and which responses do not encode. */
  datatype Backend = Backend(filterFails: Settings -> bool, encodes: IPLDs -> bool)

  datatype Outcome = ClosedType | SkippedType | ServedType | Panic

  /** What happens to a subscription type when a payload comes in: it is closed when the block is past its
      end or filtering fails, left alone when the response does not encode, and served otherwise, which
      panics on a block below its start. */
  function Fate(t: Params, io: Backend, env: Env, p: ConvertedPayload): Outcome {
    if 0 < t.settings.end < p.number || io.filterFails(t.settings) then ClosedType
    else if !io.encodes(LiveResponse(env, t.settings, p)) then SkippedType
    else if t.settings.start <= p.number then ServedType
    else Panic
  }

  /** The four outcomes by the subscription's range: the block at its very end is still served. */
  lemma FateIs(t: Params, io: Backend, env: Env, p: ConvertedPayload)
    ensures var s, response := t.settings, LiveResponse(env, t.settings, p);
            && (Fate(t, io, env, p) == ClosedType <==> (s.end > 0 && s.end < p.number) || io.filterFails(s))
            && (Fate(t, io, env, p) == ServedType <==>
                && s.start <= p.number && (s.end <= 0 || p.number <= s.end)
                && !io.filterFails(s) && io.encodes(response))
            && (Fate(t, io, env, p) == Panic <==>
                && p.number < s.start && (s.end <= 0 || p.number <= s.end)
                && !io.filterFails(s) && io.encodes(response))
            && (Fate(t, io, env, p) == SkippedType <==>
                (s.end <= 0 || p.number <= s.end) && !io.filterFails(s) && !io.encodes(response))
  {
  }

  /** The types the block is past the end of, or on which filtering fails. */
  ghost function Ended(types: Types, io: Backend, p: ConvertedPayload): set<string> {
    set ty | && ty in types
             && (|| (types[ty].settings.end > 0 && types[ty].settings.end < p.number)
                 || io.filterFails(types[ty].settings))
  }

  /** The types the block is in the range of, both ends included, and whose response is made and encodes. */
  ghost function Wanting(types: Types, io: Backend, env: Env, p: ConvertedPayload): set<string> {
    set ty | && ty in types
             && types[ty].settings.start <= p.number
             && (types[ty].settings.end <= 0 || p.number <= types[ty].settings.end)
             && !io.filterFails(types[ty].settings) && io.encodes(LiveResponse(env, types[ty].settings, p))
  }

  /** The types the block is below the start of, though they are neither ended nor skipped. */
  ghost function Early(types: Types, io: Backend, env: Env, p: ConvertedPayload): set<string> {
    set ty | && ty in types
             && p.number < types[ty].settings.start
             && (types[ty].settings.end <= 0 || p.number <= types[ty].settings.end)
             && !io.filterFails(types[ty].settings) && io.encodes(LiveResponse(env, types[ty].settings, p))
  }

  lemma FatedIs(types: Types, io: Backend, env: Env, p: ConvertedPayload)
    ensures Fated(types, types.Keys, ClosedType, io, env, p) == Ended(types, io, p)
    ensures Fated(types, types.Keys, ServedType, io, env, p) == Wanting(types, io, env, p)
    ensures Fated(types, types.Keys, Panic, io, env, p) == Early(types, io, env, p)
  {
    forall ty | ty in types { FateIs(types[ty], io, env, p); }
  }

  /** The types among `done` that meet a fate. */
  ghost function Fated(types: Types, done: set<string>, o: Outcome,
                       io: Backend, env: Env, p: ConvertedPayload): set<string>
  {
    set ty | ty in done && ty in types && Fate(types[ty], io, env, p) == o
  }

  lemma FatedMore(types: Types, done: set<string>, o: Outcome,
                  io: Backend, env: Env, p: ConvertedPayload, ty: string)
    requires ty in types
    ensures Fated(types, done + {ty}, o, io, env, p)
         == Fated(types, done, o, io, env, p) + if Fate(types[ty], io, env, p) == o then {ty} else {}
  {
  }

  // ----- the two coupled maps -----

  /** Both maps have the same keys, no type is without subscribers, and each type's settings hash to
      its key. */
  ghost predicate Coupled(all: AllSubs, types: Types, typeOf: Params -> Option<string>) {
    && all.Keys == types.Keys
    && (forall ty :: ty in all ==> |all[ty]| > 0)
    && (forall ty :: ty in types ==> typeOf(types[ty]) == Some(ty))
  }

  function Added(all: AllSubs, ty: string, sub: Subscription): AllSubs {
    all[ty := (if ty in all then all[ty] else map[])[sub.id := sub]]
  }

  /** The subscription with an id under a type. */
  function Sub(all: AllSubs, ty: string, id: string): Option<Subscription> {
    if ty in all && id in all[ty] then Some(all[ty][id]) else None
  }

  lemma AddedIs(all: AllSubs, ty: string, sub: Subscription)
    ensures Added(all, ty, sub).Keys == all.Keys + {ty}
    ensures forall t, i ::
              Sub(Added(all, ty, sub), t, i) == if t == ty && i == sub.id then Some(sub) else Sub(all, t, i)
  {
  }

  lemma AddedKeeps(all: AllSubs, types: Types, typeOf: Params -> Option<string>,
                   ty: string, sub: Subscription, params: Params)
    requires Coupled(all, types, typeOf) && typeOf(params) == Some(ty)
    ensures Coupled(Added(all, ty, sub), types[ty := params], typeOf)
  {
  }

  function Drop(subs: Subs, id: string): Subs { subs - {id} }

  ghost predicate Stays(before: AllSubs, ty: string, done: set<string>, id: string)
    requires ty in before
  {
    ty in done ==> |Drop(before[ty], id)| > 0
  }

  /** The types in `done` were gone through to remove the subscriber. */
  ghost predicate Unlisted(before: AllSubs, after: AllSubs, done: set<string>, id: string) {
    && (forall ty :: ty in after <==> ty in before && Stays(before, ty, done, id))
    && (forall ty :: ty in after ==> after[ty] == if ty in done then Drop(before[ty], id) else before[ty])
  }

  function Without(all: AllSubs, ty: string, id: string): AllSubs
    requires ty in all
  {
    if |Drop(all[ty], id)| == 0 then all - {ty} else all[ty := Drop(all[ty], id)]
  }

  lemma UnlistedMore(before: AllSubs, after: AllSubs, done: set<string>, ty: string, id: string)
    requires Unlisted(before, after, done, id) && ty in after && ty !in done
    ensures Unlisted(before, Without(after, ty, id), done + {ty}, id)
  {
    var less := Without(after, ty, id);
    forall k ensures k in less <==> k in before && Stays(before, k, done + {ty}, id) {
      if k != ty { assert k in less <==> k in after; }
    }
    forall k | k in less ensures less[k] == if k in done + {ty} then Drop(before[k], id) else before[k] {
      if k != ty { assert k in after && less[k] == after[k]; }
    }
  }

  lemma StillListed(before: AllSubs, after: AllSubs, done: set<string>, ty: string, id: string)
    requires Unlisted(before, after, done, id) && ty in before && ty !in done
    ensures ty in after
  {
    assert Stays(before, ty, done, id);
  }

  lemma UnlistedStart(all: AllSubs, id: string)
    ensures Unlisted(all, all, {}, id)
  {
  }

  lemma UnlistedType(before: AllSubs, after: AllSubs, t: string, id: string)
    requires Unlisted(before, after, before.Keys, id)
    ensures t in after <==> exists i :: i != id && Sub(before, t, i).Some?
  {
    if t in before {
      SomeDropped(before, t, id);
      assert t in after <==> Stays(before, t, before.Keys, id);
    }
  }

  lemma SomeDropped(all: AllSubs, t: string, id: string)
    requires t in all
    ensures |Drop(all[t], id)| > 0 <==> exists i :: i != id && Sub(all, t, i).Some?
  {
    var left := Drop(all[t], id);
    if |left| > 0 {
      var i :| i in left.Keys;
      assert i != id && Sub(all, t, i).Some?;
    }
    if i :| i != id && Sub(all, t, i).Some? { assert i in left; }
  }

  lemma UnlistedSub(before: AllSubs, after: AllSubs, t: string, i: string, id: string)
    requires Unlisted(before, after, before.Keys, id)
    ensures Sub(after, t, i) == if i == id then None else Sub(before, t, i)
  {
    UnlistedType(before, after, t, id);
    if t in after { assert after[t] == Drop(before[t], id); }
  }

  lemma UnlistedEverywhere(before: AllSubs, after: AllSubs, id: string)
    requires Unlisted(before, after, before.Keys, id)
    ensures forall ty :: ty in after ==> id !in after[ty]
    ensures forall t, i :: Sub(after, t, i) == if i == id then None else Sub(before, t, i)
    ensures forall t :: t in after <==> exists i :: i != id && Sub(before, t, i).Some?
  {
    forall t, i { UnlistedSub(before, after, t, i, id); }
    forall t { UnlistedType(before, after, t, id); }
  }

  /** The maps without the closed types. */
  ghost predicate Left(all: AllSubs, types: Types, closed: set<string>,
                       subs: AllSubs, tys: Types)
  {
    subs == all - closed && tys == types - closed
  }

  lemma LeftMore(all: AllSubs, types: Types, closed: set<string>,
                 subs: AllSubs, tys: Types, ty: string)
    requires Left(all, types, closed, subs, tys)
    ensures Left(all, types, closed + {ty}, subs - {ty}, tys - {ty})
  {
    assert subs - {ty} == all - (closed + {ty});
    assert tys - {ty} == types - (closed + {ty});
  }

  lemma LeftHolds(all: AllSubs, types: Types, closed: set<string>,
                  subs: AllSubs, tys: Types, ty: string)
    requires Left(all, types, closed, subs, tys) && all.Keys == types.Keys && ty in all && ty !in closed
    ensures ty in subs && ty in tys && subs[ty] == all[ty] && tys[ty] == types[ty]
  {
  }

  lemma NoneLeft(all: AllSubs, types: Types, subs: AllSubs, tys: Types)
    requires Left(all, types, all.Keys, subs, tys) && all.Keys == types.Keys
    ensures subs == map[] && tys == map[]
  {
  }

  lemma WithinTransitive(a: Types, b: Types, c: Types)
    requires Within(a, b) && Within(b, c)
    ensures Within(a, c)
  {
  }

  lemma UpdateTwice<V>(m: map<string, V>, k: string, v: V, w: V)
    ensures m[k := v][k := w] == m[k := w]
  {
  }

  lemma UpdateThenDelete<V>(m: map<string, V>, k: string, v: V)
    ensures m[k := v] - {k} == m - {k}
  {
  }

  lemma RemovedKeeps(all: AllSubs, types: Types, typeOf: Params -> Option<string>, ty: string)
    requires Coupled(all, types, typeOf)
    ensures Coupled(all - {ty}, types - {ty}, typeOf)
  {
    assert forall t :: t in all - {ty} ==> (all - {ty})[t] == all[t];
  }

  lemma ReplacedKeeps(all: AllSubs, types: Types, typeOf: Params -> Option<string>, ty: string, subs: Subs)
    requires Coupled(all, types, typeOf) && ty in all && |subs| > 0
    ensures Coupled(all[ty := subs], types, typeOf)
  {
    assert all[ty := subs].Keys == all.Keys;
  }

  lemma WithoutKeeps(all: AllSubs, types: Types, typeOf: Params -> Option<string>, ty: string, id: string)
    requires Coupled(all, types, typeOf) && ty in all
    ensures Coupled(Without(all, ty, id), if |Drop(all[ty], id)| == 0 then types - {ty} else types, typeOf)
  {
    if |Drop(all[ty], id)| == 0 {
      RemovedKeeps(all, types, typeOf, ty);
    } else {
      ReplacedKeeps(all, types, typeOf, ty, Drop(all[ty], id));
    }
  }

  /** Nothing was added to or changed in the settings. */
  ghost predicate Within(types: Types, before: Types) {
    forall ty :: ty in types ==> ty in before && types[ty] == before[ty]
  }

  /** The types gone through so far are sorted by their fates, and none of them made the call panic. */
  ghost predicate Sorted(types: Types, done: set<string>, closed: set<string>, served: set<string>,
                         io: Backend, env: Env, p: ConvertedPayload)
  {
    && closed == Fated(types, done, ClosedType, io, env, p)
    && served == Fated(types, done, ServedType, io, env, p)
    && Fated(types, done, Panic, io, env, p) == {}
  }

  lemma SortedMore(types: Types, done: set<string>, closed: set<string>, served: set<string>,
                   io: Backend, env: Env, p: ConvertedPayload, ty: string)
    requires Sorted(types, done, closed, served, io, env, p) && ty in types && ty !in done
    ensures var o := Fate(types[ty], io, env, p);
            o != Panic ==>
              Sorted(types, done + {ty}, if o == ClosedType then closed + {ty} else closed,
                     if o == ServedType then served + {ty} else served, io, env, p)
    ensures ty !in closed && ty !in served
  {
    FatedMore(types, done, ClosedType, io, env, p, ty);
    FatedMore(types, done, ServedType, io, env, p, ty);
    FatedMore(types, done, Panic, io, env, p, ty);
  }

  /** The keys are gone through or still to do. */
  ghost predicate Parts(keys: set<string>, done: set<string>, todo: set<string>) {
    done !! todo && done + todo == keys
  }

  lemma PartsMove(keys: set<string>, done: set<string>, todo: set<string>, ty: string)
    requires Parts(keys, done, todo) && ty in todo
    ensures Parts(keys, done + {ty}, todo - {ty})
    ensures ty in keys && ty !in done
  {
  }

  class Watcher {
    const chain: Chain
    const env: Env
    /** Hash of the serialised settings, if they serialise. */
    const typeOf: Params -> Option<string>

    var subscriptions: AllSubs
    var subscriptionTypes: Types
    var payloadChans: PayloadChans
    var quitChans: QuitChans

    ghost predicate Valid()
      reads this
    {
      Coupled(subscriptions, subscriptionTypes, typeOf)
    }

    constructor (chain: Chain, env: Env, typeOf: Params -> Option<string>,
                 payloadChans: PayloadChans, quitChans: QuitChans)
      ensures Valid() && subscriptions == map[] && subscriptionTypes == map[]
      ensures this.chain == chain && this.env == env && this.typeOf == typeOf
      ensures this.payloadChans == payloadChans && this.quitChans == quitChans
    {
      this.chain, this.env, this.typeOf := chain, env, typeOf;
      subscriptions, subscriptionTypes := map[], map[];
      this.payloadChans, this.quitChans := payloadChans, quitChans;
    }

    /** An error followed by a quit, neither of which may block. */
    method Reject(sub: Subscription, error: string)
      modifies this`payloadChans, this`quitChans
      ensures payloadChans == TrySend(old(payloadChans), sub.payloadChan, Failure(error))
      ensures quitChans == TrySend(old(quitChans), sub.quitChan, true)
    {
      payloadChans := TrySend(payloadChans, sub.payloadChan, Failure(error));
      quitChans := TrySend(quitChans, sub.quitChan, true);
    }

    method AddSubscriber(ty: string, sub: Subscription, params: Params)
      requires Valid() && typeOf(params) == Some(ty)
      modifies this`subscriptions, this`subscriptionTypes
      ensures Valid()
      ensures subscriptions == Added(old(subscriptions), ty, sub)
      ensures subscriptionTypes == old(subscriptionTypes)[ty := params]
    {
      AddedKeeps(subscriptions, subscriptionTypes, typeOf, ty, sub, params);
      if ty !in subscriptions {
        UpdateTwice(subscriptions, ty, map[], map[][sub.id := sub]);
        subscriptions := subscriptions[ty := map[]];
      }
      subscriptions := subscriptions[ty := subscriptions[ty][sub.id := sub]];
      subscriptionTypes := subscriptionTypes[ty := params];
    }

    /** The error a subscriber that can not be served is told. */
    function Refusal(params: Params): string {
      if params.chain != chain then WRONG_CHAIN else if typeOf(params).None? then NOT_SERIALISED else NO_HISTORY
    }

    /** `historyFails` says whether the stored first and last heights can not be read. */
    method Subscribe(id: string, payloadChan: int, quitChan: int, params: Params, historyFails: bool)
      requires Valid()
      modifies this
      ensures Valid()
      ensures var refused := params.chain != chain || typeOf(params).None?;
              var late := (params.historicalData || params.historicalDataOnly) && historyFails;
              && (refused || params.historicalDataOnly ==>
                    subscriptions == old(subscriptions) && subscriptionTypes == old(subscriptionTypes))
              && (!refused && !params.historicalDataOnly ==>
                    var ty := typeOf(params).value;
                    && subscriptions == Added(old(subscriptions), ty, Subscription(id, payloadChan, quitChan))
                    && (forall t, i :: Sub(subscriptions, t, i) ==
                          if t == ty && i == id then Some(Subscription(id, payloadChan, quitChan))
                          else Sub(old(subscriptions), t, i))
                    && subscriptionTypes == old(subscriptionTypes)[ty := params])
              && quitChans == (if refused || late then TrySend(old(quitChans), quitChan, true) else old(quitChans))
              && payloadChans == (
                 if refused || late then TrySend(old(payloadChans), payloadChan, Failure(Refusal(params)))
                  else old(payloadChans))
    {
      var sub := Subscription(id, payloadChan, quitChan);
      if params.chain != chain {
        Reject(sub, WRONG_CHAIN);
        return;
      }
      var hashed := typeOf(params);
      if hashed.None? {
        Reject(sub, NOT_SERIALISED);
        return;
      }
      var ty := hashed.value;
      if !params.historicalDataOnly {
        AddedIs(subscriptions, ty, sub);
        AddSubscriber(ty, sub, params);
      }
      if (params.historicalData || params.historicalDataOnly) && historyFails {
        Reject(sub, NO_HISTORY);
      }
    }

    /** The body of the loop in Unsubscribe. */
    method UnsubscribeFrom(ty: string, id: string)
      requires Valid() && ty in subscriptions
      modifies this`subscriptions, this`subscriptionTypes
      ensures Valid()
      ensures subscriptions == Without(old(subscriptions), ty, id)
      ensures Within(subscriptionTypes, old(subscriptionTypes))
    {
      WithoutKeeps(subscriptions, subscriptionTypes, typeOf, ty, id);
      UpdateThenDelete(subscriptions, ty, Drop(subscriptions[ty], id));
      subscriptions := subscriptions[ty := Drop(subscriptions[ty], id)];
      if |subscriptions[ty]| == 0 {
        subscriptions := subscriptions - {ty};
        subscriptionTypes := subscriptionTypes - {ty};
      }
    }

    /** Afterwards no type holds the subscriber, and a type left without subscribers is gone. */
    method Unsubscribe(id: string)
      requires Valid()
      modifies this`subscriptions, this`subscriptionTypes
      ensures Valid()
      ensures Unlisted(old(subscriptions), subscriptions, old(subscriptions.Keys), id)
      ensures forall ty :: ty in subscriptions ==> id !in subscriptions[ty]
      ensures forall t, i :: Sub(subscriptions, t, i) == if i == id then None else Sub(old(subscriptions), t, i)
      ensures forall t :: t in subscriptions <==> exists i :: i != id && Sub(old(subscriptions), t, i).Some?
      ensures Within(subscriptionTypes, old(subscriptionTypes))
    {
      ghost var before, types := subscriptions, subscriptionTypes;
      var todo := subscriptions.Keys;
      ghost var done: set<string> := {};
      UnlistedStart(before, id);
      while todo != {}
        invariant Valid() && Parts(before.Keys, done, todo)
        invariant Unlisted(before, subscriptions, done, id) && Within(subscriptionTypes, types)
        decreases todo
      {
        var ty :| ty in todo;
        PartsMove(before.Keys, done, todo, ty);
        StillListed(before, subscriptions, done, ty, id);
        UnlistedMore(before, subscriptions, done, ty, id);
        ghost var now := subscriptionTypes;
        UnsubscribeFrom(ty, id);
        WithinTransitive(subscriptionTypes, now, types);
        todo, done := todo - {ty}, done + {ty};
      }
      assert done == before.Keys;
      UnlistedEverywhere(before, subscriptions, id);
    }

    /** A quit to every subscriber in `subs`. */
    method SendQuits(subs: Subs)
      modifies this`quitChans
      ensures SentQuit(old(quitChans), quitChans, subs, subs.Keys)
    {
      ghost var before := quitChans;
      var todo := subs.Keys;
      assert subs.Keys - todo == {};
      NoQuitsYet(before, subs);
      while todo != {}
        invariant todo <= subs.Keys && SentQuit(before, quitChans, subs, subs.Keys - todo)
        decreases todo
      {
        var id :| id in todo;
        ghost var done := subs.Keys - todo;
        assert subs.Keys - (todo - {id}) == done + {id};
        OneQuitMore(before, quitChans, subs, done, id);
        quitChans := TrySend(quitChans, subs[id].quitChan, true);
        todo := todo - {id};
      }
      assert subs.Keys - {} == subs.Keys;
    }

    /** The same message to every subscriber in `subs`. */
    method SendPayloads(subs: Subs, m: Message)
      modifies this`payloadChans
      ensures SentPayload(old(payloadChans), payloadChans, subs, subs.Keys, m)
    {
      ghost var before := payloadChans;
      var todo := subs.Keys;
      assert subs.Keys - todo == {};
      NoPayloadsYet(before, subs, m);
      while todo != {}
        invariant todo <= subs.Keys && SentPayload(before, payloadChans, subs, subs.Keys - todo, m)
        decreases todo
      {
        var id :| id in todo;
        ghost var done := subs.Keys - todo;
        assert subs.Keys - (todo - {id}) == done + {id};
        OnePayloadMore(before, payloadChans, subs, done, id, m);
        payloadChans := TrySend(payloadChans, subs[id].payloadChan, m);
        todo := todo - {id};
      }
      assert subs.Keys - {} == subs.Keys;
    }

    method CloseType(ty: string)
      requires Valid() && ty in subscriptions
      modifies this`subscriptions, this`subscriptionTypes, this`quitChans
      ensures Valid()
      ensures subscriptions == old(subscriptions) - {ty} && subscriptionTypes == old(subscriptionTypes) - {ty}
      ensures var subs := old(subscriptions[ty]);
              SentQuit(old(quitChans), quitChans, subs, subs.Keys)
    {
      SendQuits(subscriptions[ty]);
      subscriptions := subscriptions - {ty};
      subscriptionTypes := subscriptionTypes - {ty};
    }

    /** Every subscriber is told to quit and both maps are emptied. */
    method Close()
      requires Valid()
      modifies this`subscriptions, this`subscriptionTypes, this`quitChans
      ensures Valid() && subscriptions == map[] && subscriptionTypes == map[]
      ensures AllQuit(old(quitChans), quitChans, old(subscriptions), old(subscriptions).Keys)
    {
      ghost var all, types, quits := subscriptions, subscriptionTypes, quitChans;
      ghost var closed: set<string> := {};
      NoQuitters(all, quits);
      var todo := subscriptions.Keys;
      assert Left(all, types, {}, all, types);
      while todo != {}
        invariant Valid() && Left(all, types, closed, subscriptions, subscriptionTypes)
        invariant Parts(all.Keys, closed, todo)
        invariant AllQuit(quits, quitChans, all, closed)
        decreases todo
      {
        var ty :| ty in todo;
        ghost var now := quitChans;
        PartsMove(all.Keys, closed, todo, ty);
        LeftHolds(all, types, closed, subscriptions, subscriptionTypes, ty);
        LeftMore(all, types, closed, subscriptions, subscriptionTypes, ty);
        CloseType(ty);
        MoreQuit(quits, now, quitChans, all, closed, ty);
        todo := todo - {ty};
        closed := closed + {ty};
      }
      assert closed == all.Keys;
      NoneLeft(all, types, subscriptions, subscriptionTypes);
    }

    /** The body of the serving loop. */
    method ServeType(ty: string, p: ConvertedPayload, io: Backend) returns (o: Outcome)
      requires Valid() && FourTopics(p) && ty in subscriptions && ty in subscriptionTypes
      modifies this`subscriptions, this`subscriptionTypes, this`quitChans, this`payloadChans
      ensures Valid()
      ensures o == Fate(old(subscriptionTypes[ty]), io, env, p)
      ensures var s := old(subscriptionTypes[ty].settings);
              && (o == ClosedType <==> (s.end > 0 && s.end < p.number) || io.filterFails(s))
              && (o == SkippedType <==> o != ClosedType && !io.encodes(LiveResponse(env, s, p)))
              && (o == Panic <==> o != ClosedType && o != SkippedType && p.number < s.start)
      ensures o == ClosedType ==>
                var subs := old(subscriptions[ty]);
                && subscriptions == old(subscriptions) - {ty} && subscriptionTypes == old(subscriptionTypes) - {ty}
                && SentQuit(old(quitChans), quitChans, subs, subs.Keys)
      ensures o != ClosedType ==>
                && subscriptions == old(subscriptions) && subscriptionTypes == old(subscriptionTypes)
                && quitChans == old(quitChans)
      ensures o == ServedType ==>
                var subs := old(subscriptions[ty]);
                SentPayload(old(payloadChans), payloadChans, subs, subs.Keys,
                            Data(LiveResponse(env, subscriptionTypes[ty].settings, p), p.number))
      ensures o != ServedType ==> payloadChans == old(payloadChans)
    {
      var config := subscriptionTypes[ty];
      if config.settings.end > 0 && config.settings.end < p.number {
        CloseType(ty);
        return ClosedType;
      }
      if io.filterFails(config.settings) {
        CloseType(ty);
        return ClosedType;
      }
      var response := Filter(env, config.settings, p);
      if !io.encodes(response) {
        return SkippedType;
      }
      if response.blockNumber.None? {
        return Panic;
      }
      SendPayloads(subscriptions[ty], Data(response, response.blockNumber.value));
      return ServedType;
    }

    /** One payload is filtered for each type and sent to its subscribers. The result says whether the
        call returned: it panics on a payload below the start of a type that is still served. */
    method FilterAndServe(p: ConvertedPayload, io: Backend) returns (returned: bool)
      requires Valid() && FourTopics(p)
      modifies this`subscriptions, this`subscriptionTypes, this`quitChans, this`payloadChans
      ensures Valid()
      ensures returned <==> Early(old(subscriptionTypes), io, env, p) == {}
      ensures returned ==>
                var all, types := old(subscriptions), old(subscriptionTypes);
                && Left(all, types, Ended(types, io, p), subscriptions, subscriptionTypes)
                && AllQuit(old(quitChans), quitChans, all, Ended(types, io, p))
                && AllServed(old(payloadChans), payloadChans, all, types, Wanting(types, io, env, p), env, p)
    {
      ghost var all, types, quits, payloads := subscriptions, subscriptionTypes, quitChans, payloadChans;
      ghost var closed: set<string>, served: set<string>, done: set<string> := {}, {}, {};
      NoQuitters(all, quits);
      NoReceivers(all, types, payloads, env, p);
      FatedIs(types, io, env, p);
      var todo := subscriptions.Keys;
      assert Left(all, types, {}, all, types);
      while todo != {}
        invariant Valid() && Left(all, types, closed, subscriptions, subscriptionTypes)
        invariant Parts(all.Keys, done, todo)
        invariant Sorted(types, done, closed, served, io, env, p)
        invariant AllQuit(quits, quitChans, all, closed)
        invariant AllServed(payloads, payloadChans, all, types, served, env, p)
        decreases todo
      {
        var ty :| ty in todo;
        PartsMove(all.Keys, done, todo, ty);
        SortedMore(types, done, closed, served, io, env, p, ty);
        LeftHolds(all, types, closed, subscriptions, subscriptionTypes, ty);
        LeftMore(all, types, closed, subscriptions, subscriptionTypes, ty);
        todo, done := todo - {ty}, done + {ty};
        if ty !in subscriptionTypes {
          assert false;
        }
        ghost var nowQuit, nowPaid := quitChans, payloadChans;
        var o := ServeType(ty, p, io);
        match o
        case ClosedType =>
          MoreQuit(quits, nowQuit, quitChans, all, closed, ty);
          closed := closed + {ty};
        case SkippedType =>
        case ServedType =>
          MoreServed(payloads, nowPaid, payloadChans, all, types, served, ty, env, p);
          served := served + {ty};
        case Panic =>
          assert ty in Fated(types, types.Keys, Panic, io, env, p);
          return false;
      }
      assert done == types.Keys;
      return true;
    }
  }
}
