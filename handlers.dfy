/**
 * The example node's handlers as pure steps: each takes the node's five tables
 * (and whatever the routing layer supplies, such as the close group) and gives
 * the new tables together with the calls the node makes, in order.
 */
module Handlers {
  import opened Types

  /** Target number of replica holders per data name (undeclared in the source; 4 is the usual value). */
  const StoreRedundancy: nat := 4

  /** The node's in-memory tables. */
  datatype Tables = Tables(
    db: map<XorName, Data>,
    clientAccounts: map<XorName, U64>,
    dmAccounts: map<XorName, seq<XorName>>,
    clientRequestCache: map<XorName, seq<(Authority, MessageId)>>,
    putRequestCache: map<MessageId, (Authority, Authority)>)

  const EmptyTables := Tables(map[], map[], map[], map[], map[])

  /** What one handler invocation leaves behind: the new tables and the calls it made. */
  datatype Step = Step(tables: Tables, out: seq<OutMsg>)

  /** Every holder list is at most `StoreRedundancy` long. */
  ghost predicate WithinRedundancy(dm: map<XorName, seq<XorName>>)
  {
    forall n :: n in dm ==> |dm[n]| <= StoreRedundancy
  }

  function Min(a: nat, b: nat): nat
  {
    if a <= b then a else b
  }

  /** `Vec::truncate(n)`: keep the first `n` elements; a shorter vector is left as it is. */
  function Truncate<T>(s: seq<T>, n: nat): (r: seq<T>)
    ensures |r| == Min(|s|, n)
    ensures r == s[..|r|]
  {
    if n < |s| then s[..n] else s
  }

  /** The requests queued for `name`, the empty vector when there is no entry yet. */
  function Pending(crc: map<XorName, seq<(Authority, MessageId)>>, name: XorName): seq<(Authority, MessageId)>
  {
    if name in crc then crc[name] else []
  }

  /** The holders listed for `name`, the empty vector when there is no entry yet. */
  function Holders(dm: map<XorName, seq<XorName>>, name: XorName): seq<XorName>
  {
    if name in dm then dm[name] else []
  }

  /** One `Get` from `src` to each holder, in list order. */
  function GetFanOut(src: Authority, holders: seq<XorName>, dataId: DataIdentifier, id: MessageId): seq<OutMsg>
  {
    seq(|holders|, i requires 0 <= i < |holders| => SendGetRequest(src, ManagedNode(holders[i]), dataId, id))
  }

  /** One `Put` from `src` to each holder, in list order. */
  function PutForwards(src: Authority, holders: seq<XorName>, data: Data, id: MessageId): seq<OutMsg>
  {
    seq(|holders|, i requires 0 <= i < |holders| => SendPutRequest(src, ManagedNode(holders[i]), data, id))
  }

  // ----- Get -----

  /**
   * `Get` addressed to the data's NaeManager: a not-found reply for an unknown
   * name; otherwise the requester is queued and only the first queued request
   * fans out to the listed holders.
   */
  function GetAtNaeManager(t: Tables, dataId: DataIdentifier, id: MessageId, src: Authority, dst: Authority): (r: Step)
    ensures r.tables.db == t.db && r.tables.clientAccounts == t.clientAccounts
    ensures r.tables.dmAccounts == t.dmAccounts && r.tables.putRequestCache == t.putRequestCache
    ensures dataId.name !in t.dmAccounts ==>
      r.tables == t && r.out == [SendGetFailure(dst, src, dataId, DataNotFound, id)]
    ensures dataId.name in t.dmAccounts ==>
      var q := r.tables.clientRequestCache;
      var holders := t.dmAccounts[dataId.name];
      && q == t.clientRequestCache[dataId.name := Pending(t.clientRequestCache, dataId.name) + [(src, id)]]
      && (|q[dataId.name]| == 1 <==> Pending(t.clientRequestCache, dataId.name) == [])
      && (|q[dataId.name]| == 1 ==>
            |r.out| == |holders| &&
            forall i :: 0 <= i < |holders| ==> r.out[i] == SendGetRequest(dst, ManagedNode(holders[i]), dataId, id))
      && (|q[dataId.name]| != 1 ==> r.out == [])
  {
    var name := dataId.name;
    if name in t.dmAccounts then
      var requests := Pending(t.clientRequestCache, name) + [(src, id)];
      var t' := t.(clientRequestCache := t.clientRequestCache[name := requests]);
      if |requests| > 1 then Step(t', [])
      else Step(t', GetFanOut(dst, t.dmAccounts[name], dataId, id))
    else
      Step(t, [SendGetFailure(dst, src, dataId, DataNotFound, id)])
  }

  /** `Get` addressed to a ManagedNode: a local lookup in `db`, answered either way. */
  function GetAtManagedNode(t: Tables, dataId: DataIdentifier, id: MessageId, src: Authority, dst: Authority): (r: Step)
    ensures r.tables == t && |r.out| == 1
    ensures r.out[0].SendGetSuccess? <==> dataId.name in t.db
    ensures dataId.name in t.db ==> r.out[0] == SendGetSuccess(dst, src, t.db[dataId.name], id)
    ensures dataId.name !in t.db ==> r.out[0] == SendGetFailure(dst, src, dataId, DataNotFound, id)
  {
    if dataId.name in t.db then Step(t, [SendGetSuccess(dst, src, t.db[dataId.name], id)])
    else Step(t, [SendGetFailure(dst, src, dataId, DataNotFound, id)])
  }

  /**
   * The `Get` handler: no role changes `db`, the accounts, the holder lists or
   * the put cache; a ManagedNode changes nothing and answers exactly once.
   */
  function GetRequest(t: Tables, dataId: DataIdentifier, id: MessageId, src: Authority, dst: Authority): (r: Step)
    requires dst.NaeManager? || dst.ManagedNode?
    ensures r.tables.db == t.db && r.tables.clientAccounts == t.clientAccounts
    ensures r.tables.dmAccounts == t.dmAccounts && r.tables.putRequestCache == t.putRequestCache
    ensures dst.ManagedNode? ==> r.tables == t && |r.out| == 1
  {
    if dst.NaeManager? then GetAtNaeManager(t, dataId, id, src, dst)
    else GetAtManagedNode(t, dataId, id, src, dst)
  }

  // ----- Put -----

  /**
   * `Put` addressed to the data's NaeManager: always acknowledged first; a name
   * already listed, or a missing close group, ends it there. Otherwise the data
   * goes to the first `StoreRedundancy` members of the close group, that prefix
   * becomes the holder list, the success is sent a second time and the data is
   * stored.
   */
  function PutAtNaeManager(t: Tables, data: Data, id: MessageId, src: Authority, dst: Authority,
                           closeGroup: Option<seq<XorName>>): (r: Step)
    ensures |r.out| >= 1 && r.out[0] == SendPutSuccess(dst, src, Plain(data.name), id)
    ensures r.tables.clientAccounts == t.clientAccounts && r.tables.clientRequestCache == t.clientRequestCache
    ensures r.tables.putRequestCache == t.putRequestCache
    ensures data.name in r.tables.dmAccounts <==> data.name in t.dmAccounts || closeGroup.Some?
  {
    var ack := SendPutSuccess(dst, src, Plain(data.name), id);
    if data.name in t.dmAccounts then Step(t, [ack])
    else match closeGroup
      case None => Step(t, [ack])
      case Some(g) =>
        var closeGrp := Truncate(g, StoreRedundancy);
        var t' := t.(dmAccounts := t.dmAccounts[data.name := closeGrp], db := t.db[data.name := data]);
        Step(t', [ack] + PutForwards(dst, closeGrp, data, id) + [ack])
  }

  /** A name already listed, or no close group: the `Put` is only acknowledged. */
  lemma PutAtNaeManagerSkips(t: Tables, data: Data, id: MessageId, src: Authority, dst: Authority,
                             closeGroup: Option<seq<XorName>>)
    requires data.name in t.dmAccounts || closeGroup.None?
    ensures PutAtNaeManager(t, data, id, src, dst, closeGroup) == Step(t, [SendPutSuccess(dst, src, Plain(data.name), id)])
  {
  }

  /**
   * A new name with a close group: acknowledged, forwarded to each of the first
   * `StoreRedundancy` members of the close group in order, acknowledged again;
   * that prefix becomes the holder list and the data is stored. Nothing else
   * changes.
   */
  lemma PutAtNaeManagerStores(t: Tables, data: Data, id: MessageId, src: Authority, dst: Authority, g: seq<XorName>)
    requires data.name !in t.dmAccounts
    ensures var r := PutAtNaeManager(t, data, id, src, dst, Some(g));
      var k := Min(|g|, StoreRedundancy);
      var ack := SendPutSuccess(dst, src, Plain(data.name), id);
      && r.tables == t.(dmAccounts := t.dmAccounts[data.name := g[..k]], db := t.db[data.name := data])
      && |r.out| == k + 2
      && r.out[0] == ack
      && (forall i :: 0 <= i < k ==> r.out[i + 1] == SendPutRequest(dst, ManagedNode(g[i]), data, id))
      && r.out[k + 1] == ack
  {
  }

  /** A `Put` at the NaeManager never records more than `StoreRedundancy` holders. */
  lemma PutAtNaeManagerKeepsRedundancy(t: Tables, data: Data, id: MessageId, src: Authority, dst: Authority,
                                       closeGroup: Option<seq<XorName>>)
    requires WithinRedundancy(t.dmAccounts)
    ensures WithinRedundancy(PutAtNaeManager(t, data, id, src, dst, closeGroup).tables.dmAccounts)
  {
  }

  /**
   * `Put` addressed to a ClientManager: relayed to the data's NaeManager, and
   * the pair needed to answer the client is remembered under the message id.
   */
  function PutAtClientManager(t: Tables, data: Data, id: MessageId, src: Authority, dst: Authority): (r: Step)
    ensures r.out == [SendPutRequest(dst, NaeManager(data.name), data, id)]
    ensures id in r.tables.putRequestCache && r.tables.putRequestCache[id] == (dst, src)
    ensures forall m :: m != id ==>
      (m in r.tables.putRequestCache <==> m in t.putRequestCache) &&
      (m in t.putRequestCache ==> r.tables.putRequestCache[m] == t.putRequestCache[m])
    ensures r.tables.db == t.db && r.tables.clientAccounts == t.clientAccounts
    ensures r.tables.dmAccounts == t.dmAccounts && r.tables.clientRequestCache == t.clientRequestCache
  {
    Step(t.(putRequestCache := t.putRequestCache[id := (dst, src)]),
         [SendPutRequest(dst, NaeManager(data.name), data, id)])
  }

  /**
   * The `Put` handler: neither role touches the client accounts or the `Get`
   * queues; a NaeManager leaves the put cache alone and acknowledges first, a
   * ClientManager leaves `db` and the holder lists alone and sends one message.
   */
  function PutRequest(t: Tables, data: Data, id: MessageId, src: Authority, dst: Authority,
                      closeGroup: Option<seq<XorName>>): (r: Step)
    requires dst.NaeManager? || dst.ClientManager?
    ensures r.tables.clientAccounts == t.clientAccounts && r.tables.clientRequestCache == t.clientRequestCache
    ensures dst.NaeManager? ==>
      r.tables.putRequestCache == t.putRequestCache && |r.out| >= 1 && r.out[0] == SendPutSuccess(dst, src, Plain(data.name), id)
    ensures dst.ClientManager? ==>
      r.tables.db == t.db && r.tables.dmAccounts == t.dmAccounts && |r.out| == 1
  {
    if dst.NaeManager? then PutAtNaeManager(t, data, id, src, dst, closeGroup)
    else PutAtClientManager(t, data, id, src, dst)
  }

  // ----- Responses -----

  /**
   * `PutSuccess` arriving at a ClientManager: the cached pair for the id, if
   * any, is consumed and a `PutSuccess` is relayed with it; an unknown id is
   * dropped silently.
   */
  function PutSuccessAtClientManager(t: Tables, dataId: DataIdentifier, id: MessageId): (r: Step)
    ensures id !in r.tables.putRequestCache
    ensures forall m :: m != id ==>
      (m in r.tables.putRequestCache <==> m in t.putRequestCache) &&
      (m in t.putRequestCache ==> r.tables.putRequestCache[m] == t.putRequestCache[m])
    ensures r.tables.db == t.db && r.tables.clientAccounts == t.clientAccounts
    ensures r.tables.dmAccounts == t.dmAccounts && r.tables.clientRequestCache == t.clientRequestCache
    ensures id in t.putRequestCache ==>
      r.out == [SendPutSuccess(t.putRequestCache[id].0, t.putRequestCache[id].1, dataId, id)]
    ensures id !in t.putRequestCache ==> r.out == []
  {
    var t' := t.(putRequestCache := t.putRequestCache - {id});
    if id in t.putRequestCache then
      var (s, d) := t.putRequestCache[id];
      Step(t', [SendPutSuccess(s, d, dataId, id)])
    else Step(t', [])
  }

  // ----- Refresh -----

  /** Refresh ingestion: a blind overwrite of one key of one table; nothing is sent. */
  function RefreshStep(t: Tables, content: RefreshContent): (r: Step)
    ensures r.out == []
    ensures r.tables.dmAccounts == t.dmAccounts && r.tables.clientRequestCache == t.clientRequestCache
    ensures r.tables.putRequestCache == t.putRequestCache
    ensures content.ClientRefresh? ==>
      && r.tables.db == t.db
      && content.clientName in r.tables.clientAccounts
      && r.tables.clientAccounts[content.clientName] == content.balance
      && (forall c :: c != content.clientName ==>
            (c in r.tables.clientAccounts <==> c in t.clientAccounts) &&
            (c in t.clientAccounts ==> r.tables.clientAccounts[c] == t.clientAccounts[c]))
    ensures content.NaeManagerRefresh? ==>
      && r.tables.clientAccounts == t.clientAccounts
      && content.dataName in r.tables.db
      && r.tables.db[content.dataName] == content.data
      && (forall n :: n != content.dataName ==>
            (n in r.tables.db <==> n in t.db) && (n in t.db ==> r.tables.db[n] == t.db[n]))
  {
    match content
    case ClientRefresh(c, balance) => Step(t.(clientAccounts := t.clientAccounts[c := balance]), [])
    case NaeManagerRefresh(n, data) => Step(t.(db := t.db[n := data]), [])
  }

  // ----- Request dispatch -----

  /** The destinations the handlers accept; any other is a protocol violation (`unreachable!`). */
  predicate Addressable(request: Request, dst: Authority)
  {
    match request
    case Get(_, _) => dst.NaeManager? || dst.ManagedNode?
    case Put(_, _) => dst.NaeManager? || dst.ClientManager?
    case _ => true
  }

  /** Request dispatch: `Get`, `Put` and `Refresh` are handled; `Post`, `Delete` and `GetAccountInfo` do nothing. */
  function RequestStep(t: Tables, request: Request, src: Authority, dst: Authority,
                       closeGroup: Option<seq<XorName>>): (r: Step)
    requires Addressable(request, dst)
    ensures request.Post? || request.Delete? || request.GetAccountInfo? ==> r == Step(t, [])
    ensures request.Refresh? ==> r.out == [] && r.tables.dmAccounts == t.dmAccounts
    ensures request.Get? ==> r.tables.dmAccounts == t.dmAccounts
  {
    match request
    case Get(dataId, id) => GetRequest(t, dataId, id, src, dst)
    case Put(data, id) => PutRequest(t, data, id, src, dst, closeGroup)
    case Post(_, _) => Step(t, [])
    case Delete(_, _) => Step(t, [])
    case GetAccountInfo(_) => Step(t, [])
    case Refresh(content, _) => RefreshStep(t, content)
  }

  /** No request handler takes a holder list beyond `StoreRedundancy`. */
  lemma RequestStepKeepsRedundancy(t: Tables, request: Request, src: Authority, dst: Authority,
                                   closeGroup: Option<seq<XorName>>)
    requires Addressable(request, dst)
    requires WithinRedundancy(t.dmAccounts)
    ensures WithinRedundancy(RequestStep(t, request, src, dst, closeGroup).tables.dmAccounts)
  {
    if request.Put? && dst.NaeManager? {
      PutAtNaeManagerKeepsRedundancy(t, request.data, request.id, src, dst, closeGroup);
    }
  }

  // ----- add_dm -----

  /**
   * `add_dm`: admits `dmName` as a holder of `dataName` when it is not listed
   * yet and is a member of the close group; the admitted name goes to the end.
   */
  function AddDm(t: Tables, dataName: XorName, dmName: XorName, closeGroup: Option<seq<XorName>>): (r: (Tables, bool))
    ensures r.1 <==>
      !(dataName in t.dmAccounts && dmName in t.dmAccounts[dataName]) &&
      closeGroup.Some? && dmName in closeGroup.value
    ensures r.1 ==> r.0 == t.(dmAccounts := t.dmAccounts[dataName := Holders(t.dmAccounts, dataName) + [dmName]])
    ensures !r.1 ==> r.0 == t
  {
    if dataName in t.dmAccounts && dmName in t.dmAccounts[dataName] then (t, false)
    else match closeGroup
      case None => (t, false)
      case Some(g) =>
        if dmName in g then
          (t.(dmAccounts := t.dmAccounts[dataName := Holders(t.dmAccounts, dataName) + [dmName]]), true)
        else (t, false)
  }

  // ----- node added -----

  function AccountRefresh(c: XorName, balance: U64, id: MessageId): OutMsg
  {
    SendRefreshRequest(ClientManager(c), ClientManager(c), ClientRefresh(c, balance), id)
  }

  function DataRefresh(n: XorName, data: Data, id: MessageId): OutMsg
  {
    SendRefreshRequest(NaeManager(n), NaeManager(n), NaeManagerRefresh(n, data), id)
  }

  /** `order` lists each key of `keys` exactly once: one enumeration of a hash map's keys. */
  ghost predicate Enumerates(order: seq<XorName>, keys: set<XorName>)
  {
    |order| == |keys| && forall x :: x in order <==> x in keys
  }

  lemma EnumeratesSnoc(order: seq<XorName>, keys: set<XorName>, x: XorName)
    requires Enumerates(order, keys) && x !in keys
    ensures Enumerates(order + [x], keys + {x})
  {
  }

  /** One account refresh per name in `cs`, in that order. */
  function AccountRefreshes(cs: seq<XorName>, ca: map<XorName, U64>, id: MessageId): seq<OutMsg>
    requires forall c :: c in cs ==> c in ca
  {
    seq(|cs|, i requires 0 <= i < |cs| => AccountRefresh(cs[i], ca[cs[i]], id))
  }

  /** One data refresh per name in `ns`, in that order. */
  function DataRefreshes(ns: seq<XorName>, db: map<XorName, Data>, id: MessageId): seq<OutMsg>
    requires forall n :: n in ns ==> n in db
  {
    seq(|ns|, i requires 0 <= i < |ns| => DataRefresh(ns[i], db[ns[i]], id))
  }

  lemma AccountRefreshesSnoc(cs: seq<XorName>, c: XorName, ca: map<XorName, U64>, id: MessageId)
    requires forall x :: x in cs ==> x in ca
    requires c in ca
    ensures AccountRefreshes(cs + [c], ca, id) == AccountRefreshes(cs, ca, id) + [AccountRefresh(c, ca[c], id)]
  {
  }

  lemma DataRefreshesSnoc(ns: seq<XorName>, n: XorName, db: map<XorName, Data>, id: MessageId)
    requires forall x :: x in ns ==> x in db
    requires n in db
    ensures DataRefreshes(ns + [n], db, id) == DataRefreshes(ns, db, id) + [DataRefresh(n, db[n], id)]
  {
  }

  /**
   * The broadcast sent when a peer joins, for one enumeration order of each
   * table: first every client account, then every stored object.
   */
  function NodeAddedBroadcast(cs: seq<XorName>, ns: seq<XorName>, ca: map<XorName, U64>,
                              db: map<XorName, Data>, id: MessageId): (r: seq<OutMsg>)
    requires forall c :: c in cs ==> c in ca
    requires forall n :: n in ns ==> n in db
    ensures |r| == |cs| + |ns|
    ensures forall k :: 0 <= k < |r| ==> r[k].SendRefreshRequest? && r[k].src == r[k].dst && r[k].id == id
    ensures forall k :: 0 <= k < |cs| ==> r[k].content == ClientRefresh(cs[k], ca[cs[k]])
    ensures forall k :: 0 <= k < |ns| ==> r[|cs| + k].content == NaeManagerRefresh(ns[k], db[ns[k]])
  {
    AccountRefreshes(cs, ca, id) + DataRefreshes(ns, db, id)
  }

  /** `m` is the refresh of one client account or of one stored object, tagged `id`. */
  ghost predicate RefreshOf(m: OutMsg, ca: map<XorName, U64>, db: map<XorName, Data>, id: MessageId)
  {
    m.SendRefreshRequest? &&
    match m.content
    case ClientRefresh(c, _) => c in ca && m == AccountRefresh(c, ca[c], id)
    case NaeManagerRefresh(n, _) => n in db && m == DataRefresh(n, db[n], id)
  }

  /** An account refresh for every name of an enumeration, and nothing else. */
  lemma AccountRefreshesCover(cs: seq<XorName>, ca: map<XorName, U64>, db: map<XorName, Data>, id: MessageId)
    requires Enumerates(cs, ca.Keys)
    ensures var out := AccountRefreshes(cs, ca, id);
      && |out| == |ca|
      && (forall k :: 0 <= k < |out| ==> RefreshOf(out[k], ca, db, id))
      && (forall c :: c in ca ==> AccountRefresh(c, ca[c], id) in out)
  {
    var out := AccountRefreshes(cs, ca, id);
    forall c | c in ca ensures AccountRefresh(c, ca[c], id) in out {
      var i :| 0 <= i < |cs| && cs[i] == c;
      assert out[i] == AccountRefresh(c, ca[c], id);
    }
  }

  /** A data refresh for every name of an enumeration, and nothing else. */
  lemma DataRefreshesCover(ns: seq<XorName>, ca: map<XorName, U64>, db: map<XorName, Data>, id: MessageId)
    requires Enumerates(ns, db.Keys)
    ensures var out := DataRefreshes(ns, db, id);
      && |out| == |db|
      && (forall k :: 0 <= k < |out| ==> RefreshOf(out[k], ca, db, id))
      && (forall n :: n in db ==> DataRefresh(n, db[n], id) in out)
  {
    var out := DataRefreshes(ns, db, id);
    forall n | n in db ensures DataRefresh(n, db[n], id) in out {
      var i :| 0 <= i < |ns| && ns[i] == n;
      assert out[i] == DataRefresh(n, db[n], id);
    }
  }

  /**
   * Whatever order the maps are walked in, the node-added broadcast holds
   * exactly one self-addressed refresh per client account and per stored
   * object: `|ca| + |db|` messages, each a refresh of some entry, and every
   * entry's refresh among them.
   */
  lemma NodeAddedBroadcastIsComplete(cs: seq<XorName>, ns: seq<XorName>, ca: map<XorName, U64>,
                                     db: map<XorName, Data>, id: MessageId)
    requires Enumerates(cs, ca.Keys) && Enumerates(ns, db.Keys)
    ensures var out := NodeAddedBroadcast(cs, ns, ca, db, id);
      && |out| == |ca| + |db|
      && (forall k :: 0 <= k < |out| ==> RefreshOf(out[k], ca, db, id))
      && (forall k :: 0 <= k < |out| ==> out[k].src == out[k].dst && out[k].id == id)
      && (forall c :: c in ca ==> AccountRefresh(c, ca[c], id) in out)
      && (forall n :: n in db ==> DataRefresh(n, db[n], id) in out)
  {
    var accounts, stored := AccountRefreshes(cs, ca, id), DataRefreshes(ns, db, id);
    AccountRefreshesCover(cs, ca, db, id);
    DataRefreshesCover(ns, ca, db, id);
    var out := accounts + stored;
    forall k | 0 <= k < |out| ensures RefreshOf(out[k], ca, db, id) {
      if k < |accounts| { assert out[k] == accounts[k]; }
      else { assert out[k] == stored[k - |accounts|]; }
    }
  }

  // ----- node lost: repair of one data name -----

  /** Covered(g, hs): every member of the close group `g` is already a holder. */
  ghost predicate Covered(g: seq<XorName>, hs: seq<XorName>)
  {
    forall x :: x in g ==> x in hs
  }

  /** `x` is the first member of `g` that is not in `hs`. */
  ghost predicate FirstEligibleIs(g: seq<XorName>, hs: seq<XorName>, x: XorName)
  {
    x in g && x !in hs && forall j :: 0 <= j < |g| && g[j] !in hs ==> x in g[..j + 1]
  }

  /** `Iterator::find`: the index of the first member of `g` not listed in `holders`. */
  function FirstEligible(g: seq<XorName>, holders: seq<XorName>): (r: Option<nat>)
    ensures r.Some? ==> r.value < |g| && g[r.value] !in holders
    ensures r.Some? ==> forall j :: 0 <= j < r.value ==> g[j] in holders
    ensures r.None? ==> forall j :: 0 <= j < |g| ==> g[j] in holders
  {
    if g == [] then None
    else if g[0] !in holders then Some(0)
    else match FirstEligible(g[1..], holders)
      case None => None
      case Some(i) => Some(i + 1)
  }

  /** A scan that stops at index `i` found what `FirstEligible` finds. */
  lemma FirstEligibleAt(g: seq<XorName>, holders: seq<XorName>, i: nat)
    requires i <= |g|
    requires forall j :: 0 <= j < i ==> g[j] in holders
    requires i < |g| ==> g[i] !in holders
    ensures FirstEligible(g, holders) == if i < |g| then Some(i) else None
  {
    match FirstEligible(g, holders)
    case None =>
    case Some(k) =>
  }

  lemma FirstEligibleIsFirst(g: seq<XorName>, holders: seq<XorName>, i: nat)
    requires FirstEligible(g, holders) == Some(i)
    ensures FirstEligibleIs(g, holders, g[i])
  {
    forall j | 0 <= j < |g| && g[j] !in holders
      ensures g[i] in g[..j + 1]
    {
      assert i <= j;
      assert g[..j + 1][i] == g[i];
    }
  }

  lemma FirstEligibleNone(g: seq<XorName>, holders: seq<XorName>)
    requires FirstEligible(g, holders) == None
    ensures Covered(g, holders)
  {
    forall x | x in g ensures x in holders {
      var j :| 0 <= j < |g| && g[j] == x;
    }
  }

  /**
   * The repair step of a lost peer, for one data name: when its holder list is
   * shorter than `StoreRedundancy`, the first close-group member not yet listed
   * is sent a `Put` from `src`, appended to the list, and the new list is
   * refreshed. It touches only the holder list of that one name, which keeps
   * its old holders in front; when and how it acts is stated by the
   * `RepairStep...` lemmas below.
   */
  function RepairStep(t: Tables, data: Data, src: Authority, id: MessageId,
                      closeGroup: Option<seq<XorName>>): (r: Step)
    ensures r.tables.db == t.db && r.tables.clientAccounts == t.clientAccounts
    ensures r.tables.clientRequestCache == t.clientRequestCache
    ensures r.tables.putRequestCache == t.putRequestCache
    ensures r.tables.dmAccounts.Keys == t.dmAccounts.Keys
    ensures forall n :: n in t.dmAccounts && n != data.name ==> r.tables.dmAccounts[n] == t.dmAccounts[n]
    ensures data.name in t.dmAccounts ==>
      var hs := t.dmAccounts[data.name];
      |hs| <= |r.tables.dmAccounts[data.name]| <= |hs| + 1 && r.tables.dmAccounts[data.name][..|hs|] == hs
    ensures |r.out| == 0 || |r.out| == 2
  {
    var name := data.name;
    if name in t.dmAccounts && |t.dmAccounts[name]| < StoreRedundancy && closeGroup.Some? then
      match FirstEligible(closeGroup.value, t.dmAccounts[name])
      case None => Step(t, [])
      case Some(i) =>
        var node := closeGroup.value[i];
        var holders := t.dmAccounts[name] + [node];
        Step(t.(dmAccounts := t.dmAccounts[name := holders]),
             [SendPutRequest(src, ManagedNode(node), data, id), SendDataManagerRefresh(name, holders, id)])
    else Step(t, [])
  }

  /**
   * Without a listed, short holder list, a known close group and a member of
   * it not yet listed, the repair step changes nothing and sends nothing.
   */
  lemma RepairStepIdle(t: Tables, data: Data, src: Authority, id: MessageId, closeGroup: Option<seq<XorName>>)
    requires !(data.name in t.dmAccounts && |t.dmAccounts[data.name]| < StoreRedundancy &&
               closeGroup.Some? && !Covered(closeGroup.value, t.dmAccounts[data.name]))
    ensures RepairStep(t, data, src, id, closeGroup) == Step(t, [])
  {
    if data.name in t.dmAccounts && |t.dmAccounts[data.name]| < StoreRedundancy && closeGroup.Some? {
      var g, hs := closeGroup.value, t.dmAccounts[data.name];
      assert forall j :: 0 <= j < |g| ==> g[j] in hs;
      FirstEligibleAt(g, hs, |g|);
    }
  }

  /**
   * Otherwise it adds the first close-group member not yet listed to the end
   * of the list, sends that member the data from `src`, and sends the
   * refreshed list.
   */
  lemma RepairStepActs(t: Tables, data: Data, src: Authority, id: MessageId, g: seq<XorName>)
    requires data.name in t.dmAccounts && |t.dmAccounts[data.name]| < StoreRedundancy
    requires !Covered(g, t.dmAccounts[data.name])
    ensures var r := RepairStep(t, data, src, id, Some(g));
      && |r.out| == 2 && r.out[0].SendPutRequest?
      && var x := r.out[0].dst.name;
         var holders := t.dmAccounts[data.name] + [x];
         && FirstEligibleIs(g, t.dmAccounts[data.name], x)
         && r.tables.dmAccounts == t.dmAccounts[data.name := holders]
         && r.out == [SendPutRequest(src, ManagedNode(x), data, id), SendDataManagerRefresh(data.name, holders, id)]
  {
    var hs := t.dmAccounts[data.name];
    var x :| x in g && x !in hs;
    assert FirstEligible(g, hs).Some?;
    FirstEligibleIsFirst(g, hs, FirstEligible(g, hs).value);
  }

  /** The repair step never takes a holder list beyond `StoreRedundancy`. */
  lemma RepairStepKeepsRedundancy(t: Tables, data: Data, src: Authority, id: MessageId,
                                  closeGroup: Option<seq<XorName>>)
    requires WithinRedundancy(t.dmAccounts)
    ensures WithinRedundancy(RepairStep(t, data, src, id, closeGroup).tables.dmAccounts)
  {
  }
}
