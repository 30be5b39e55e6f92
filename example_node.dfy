/**
 * The example node itself: an object holding the five tables, plus the log of
 * every call it makes into the routing node. Each handler changes the tables in
 * place and appends its sends one by one; its contract ties the new tables and
 * the appended calls to the matching step in `Handlers`.
 */
module Node {
  import opened Types
  import opened Handlers

  class ExampleNode {
    /** The data chunks this node stores. */
    var db: map<XorName, Data>
    var clientAccounts: map<XorName, U64>
    /** Replica holders per data name, in the order they were chosen. */
    var dmAccounts: map<XorName, seq<XorName>>
    /** Requesters queued per listed data name; nothing ever removes them. */
    var clientRequestCache: map<XorName, seq<(Authority, MessageId)>>
    /** What is needed to relay a `PutSuccess` back to a client, per message id. */
    var putRequestCache: map<MessageId, (Authority, Authority)>
    /** Every call made into the routing node, oldest first. */
    var sent: seq<OutMsg>

    function State(): Tables
      reads this
    {
      Tables(db, clientAccounts, dmAccounts, clientRequestCache, putRequestCache)
    }

    constructor ()
      ensures State() == EmptyTables && sent == []
    {
      db, clientAccounts, dmAccounts := map[], map[], map[];
      clientRequestCache, putRequestCache := map[], map[];
      sent := [];
    }

    method HandleRequest(request: Request, src: Authority, dst: Authority, closeGroup: Option<seq<XorName>>)
      requires Addressable(request, dst)
      modifies this
      ensures State() == RequestStep(old(State()), request, src, dst, closeGroup).tables
      ensures sent == old(sent) + RequestStep(old(State()), request, src, dst, closeGroup).out
    {
      match request
      case Get(dataId, id) => HandleGetRequest(dataId, id, src, dst);
      case Put(data, id) => HandlePutRequest(data, id, src, dst, closeGroup);
      case Post(_, _) =>
      case Delete(_, _) =>
      case GetAccountInfo(_) =>
      case Refresh(content, id) => HandleRefresh(content, id);
    }

    method HandleResponse(response: Response, src: Authority, dst: Authority)
      requires response.PutSuccess? && dst.ClientManager?
      modifies this
      ensures State() == PutSuccessAtClientManager(old(State()), response.dataId, response.id).tables
      ensures sent == old(sent) + PutSuccessAtClientManager(old(State()), response.dataId, response.id).out
    {
      var id := response.id;
      if id in putRequestCache {
        var (s, d) := putRequestCache[id];
        putRequestCache := putRequestCache - {id};
        sent := sent + [SendPutSuccess(s, d, response.dataId, id)];
      } else {
        putRequestCache := putRequestCache - {id};
      }
    }

    method HandleGetRequest(dataId: DataIdentifier, id: MessageId, src: Authority, dst: Authority)
      requires dst.NaeManager? || dst.ManagedNode?
      modifies this
      ensures State() == GetRequest(old(State()), dataId, id, src, dst).tables
      ensures sent == old(sent) + GetRequest(old(State()), dataId, id, src, dst).out
    {
      var name := dataId.name;
      if dst.NaeManager? {
        if name in dmAccounts {
          var managedNodes := dmAccounts[name];
          var requests := (if name in clientRequestCache then clientRequestCache[name] else []) + [(src, id)];
          clientRequestCache := clientRequestCache[name := requests];
          if |requests| > 1 {
            return;
          }
          SendGets(dst, managedNodes, dataId, id);
        } else {
          sent := sent + [SendGetFailure(dst, src, dataId, DataNotFound, id)];
        }
      } else {
        if name in db {
          sent := sent + [SendGetSuccess(dst, src, db[name], id)];
        } else {
          sent := sent + [SendGetFailure(dst, src, dataId, DataNotFound, id)];
        }
      }
    }

    method HandlePutRequest(data: Data, id: MessageId, src: Authority, dst: Authority, closeGroup: Option<seq<XorName>>)
      requires dst.NaeManager? || dst.ClientManager?
      modifies this
      ensures State() == PutRequest(old(State()), data, id, src, dst, closeGroup).tables
      ensures sent == old(sent) + PutRequest(old(State()), data, id, src, dst, closeGroup).out
    {
      if dst.NaeManager? {
        PutAsNaeManager(data, id, src, dst, closeGroup);
      } else {
        sent := sent + [SendPutRequest(dst, NaeManager(data.name), data, id)];
        putRequestCache := putRequestCache[id := (dst, src)];
      }
    }

    /** The `NaeManager` arm of the `Put` handler. */
    method PutAsNaeManager(data: Data, id: MessageId, src: Authority, dst: Authority, closeGroup: Option<seq<XorName>>)
      modifies this
      ensures State() == PutAtNaeManager(old(State()), data, id, src, dst, closeGroup).tables
      ensures sent == old(sent) + PutAtNaeManager(old(State()), data, id, src, dst, closeGroup).out
    {
      if data.name in dmAccounts || closeGroup.None? {
        sent := sent + [SendPutSuccess(dst, src, Plain(data.name), id)];
        return;  // no duplicate put; no close group
      }
      StoreNewPut(data, id, src, dst, closeGroup.value);
    }

    /** A `Put` at the NaeManager for a name not listed yet, with the close group known. */
    method StoreNewPut(data: Data, id: MessageId, src: Authority, dst: Authority, g: seq<XorName>)
      requires data.name !in dmAccounts
      modifies this
      ensures State() == PutAtNaeManager(old(State()), data, id, src, dst, Some(g)).tables
      ensures sent == old(sent) + PutAtNaeManager(old(State()), data, id, src, dst, Some(g)).out
    {
      ghost var before := State();
      var ack := SendPutSuccess(dst, src, Plain(data.name), id);
      sent := sent + [ack];
      var closeGrp := g;
      if StoreRedundancy < |closeGrp| {
        closeGrp := closeGrp[..StoreRedundancy];
      }
      assert closeGrp == Truncate(g, StoreRedundancy);
      SendPuts(dst, closeGrp, data, id);
      dmAccounts := dmAccounts[data.name := closeGrp];
      sent := sent + [ack];
      db := db[data.name := data];
      assert PutAtNaeManager(before, data, id, src, dst, Some(g))
          == Step(State(), [ack] + PutForwards(dst, closeGrp, data, id) + [ack]);
    }

    /** The send loop of the `Get` fan-out: one `Get` to each holder, in list order. */
    method SendGets(src: Authority, holders: seq<XorName>, dataId: DataIdentifier, id: MessageId)
      modifies this`sent
      ensures sent == old(sent) + GetFanOut(src, holders, dataId, id)
    {
      for i := 0 to |holders|
        invariant sent == old(sent) + GetFanOut(src, holders[..i], dataId, id)
      {
        assert GetFanOut(src, holders[..i + 1], dataId, id)
            == GetFanOut(src, holders[..i], dataId, id) + [SendGetRequest(src, ManagedNode(holders[i]), dataId, id)];
        sent := sent + [SendGetRequest(src, ManagedNode(holders[i]), dataId, id)];
      }
      assert holders[..|holders|] == holders;
    }

    /** The send loop of a new `Put`: one `Put` to each chosen holder, in list order. */
    method SendPuts(src: Authority, holders: seq<XorName>, data: Data, id: MessageId)
      modifies this`sent
      ensures sent == old(sent) + PutForwards(src, holders, data, id)
    {
      for i := 0 to |holders|
        invariant sent == old(sent) + PutForwards(src, holders[..i], data, id)
      {
        assert PutForwards(src, holders[..i + 1], data, id)
            == PutForwards(src, holders[..i], data, id) + [SendPutRequest(src, ManagedNode(holders[i]), data, id)];
        sent := sent + [SendPutRequest(src, ManagedNode(holders[i]), data, id)];
      }
      assert holders[..|holders|] == holders;
    }

    method AddDm(dataName: XorName, dmName: XorName, closeGroup: Option<seq<XorName>>) returns (added: bool)
      modifies this
      ensures (State(), added) == Handlers.AddDm(old(State()), dataName, dmName, closeGroup)
      ensures sent == old(sent)
    {
      if dataName in dmAccounts && dmName in dmAccounts[dataName] {
        return false;  // already listed
      }
      if closeGroup.Some? {
        if dmName in closeGroup.value {
          var holders := if dataName in dmAccounts then dmAccounts[dataName] else [];
          dmAccounts := dmAccounts[dataName := holders + [dmName]];
          return true;
        }
      }
      return false;
    }

    /**
     * Peer added: one refresh per client account and one per stored object, all
     * tagged with the id derived from the new peer. Hash-map iteration order is
     * unspecified; the ghost results report the order this run took.
     */
    method HandleNodeAdded(name: XorName) returns (ghost accountOrder: seq<XorName>, ghost dataOrder: seq<XorName>)
      modifies this`sent
      ensures State() == old(State())
      ensures Enumerates(accountOrder, clientAccounts.Keys) && Enumerates(dataOrder, db.Keys)
      ensures sent == old(sent) + NodeAddedBroadcast(accountOrder, dataOrder, clientAccounts, db, FromAddedNode(name))
    {
      var id := FromAddedNode(name);
      accountOrder := SendAccountRefreshes(id);
      dataOrder := SendDataRefreshes(id);
    }

    /** The first loop of the node-added broadcast: a refresh for every client account. */
    method SendAccountRefreshes(id: MessageId) returns (ghost order: seq<XorName>)
      modifies this`sent
      ensures Enumerates(order, clientAccounts.Keys)
      ensures sent == old(sent) + AccountRefreshes(order, clientAccounts, id)
    {
      var todo := clientAccounts.Keys;
      ghost var done: set<XorName> := {};
      order := [];
      while todo != {}
        invariant todo <= clientAccounts.Keys && done == clientAccounts.Keys - todo
        invariant Enumerates(order, done)
        invariant sent == old(sent) + AccountRefreshes(order, clientAccounts, id)
        decreases todo
      {
        var c :| c in todo;
        EnumeratesSnoc(order, done, c);
        AccountRefreshesSnoc(order, c, clientAccounts, id);
        sent := sent + [AccountRefresh(c, clientAccounts[c], id)];
        order := order + [c];
        done := done + {c};
        todo := todo - {c};
      }
    }

    /** The second loop of the node-added broadcast: a refresh for every stored object. */
    method SendDataRefreshes(id: MessageId) returns (ghost order: seq<XorName>)
      modifies this`sent
      ensures Enumerates(order, db.Keys)
      ensures sent == old(sent) + DataRefreshes(order, db, id)
    {
      var todo := db.Keys;
      ghost var done: set<XorName> := {};
      order := [];
      while todo != {}
        invariant todo <= db.Keys && done == db.Keys - todo
        invariant Enumerates(order, done)
        invariant sent == old(sent) + DataRefreshes(order, db, id)
        decreases todo
      {
        var n :| n in todo;
        EnumeratesSnoc(order, done, n);
        DataRefreshesSnoc(order, n, db, id);
        sent := sent + [DataRefresh(n, db[n], id)];
        order := order + [n];
        done := done + {n};
        todo := todo - {n};
      }
    }

    /** Refresh ingestion: a blind overwrite of the entry the content names. */
    method HandleRefresh(content: RefreshContent, id: MessageId)
      modifies this
      ensures State() == RefreshStep(old(State()), content).tables
      ensures sent == old(sent)
    {
      match content
      case ClientRefresh(c, balance) => clientAccounts := clientAccounts[c := balance];
      case NaeManagerRefresh(n, data) => db := db[n := data];
    }

    /**
     * The repair step a lost peer triggers for one stored object: if its holder
     * list is short, the first close-group member not listed yet receives a
     * `Put`, joins the list, and the new list is refreshed.
     */
    method RepairLostCopy(data: Data, src: Authority, id: MessageId, closeGroup: Option<seq<XorName>>)
      modifies this
      ensures State() == RepairStep(old(State()), data, src, id, closeGroup).tables
      ensures sent == old(sent) + RepairStep(old(State()), data, src, id, closeGroup).out
    {
      ghost var before := State();
      ghost var r := RepairStep(before, data, src, id, closeGroup);
      var name := data.name;
      if !(name in dmAccounts && |dmAccounts[name]| < StoreRedundancy) || closeGroup.None? {
        assert r == Step(before, []);
        return;
      }
      var closeGrp := closeGroup.value;
      var holders := dmAccounts[name];
      var i := FindEligible(closeGrp, holders);
      if i < |closeGrp| {
        var node := closeGrp[i];
        sent := sent + [SendPutRequest(src, ManagedNode(node), data, id)];
        dmAccounts := dmAccounts[name := dmAccounts[name] + [node]];
        sent := sent + [SendDataManagerRefresh(name, dmAccounts[name], id)];
        assert r == Step(State(), [SendPutRequest(src, ManagedNode(node), data, id), SendDataManagerRefresh(name, holders + [node], id)]);
      } else {
        assert r == Step(before, []);
      }
    }
  }

  /**
   * The scan `close_grp.into_iter().find(..)` performs: the index of the first
   * close-group member not among `holders`, or `|closeGrp|` when there is none.
   */
  method FindEligible(closeGrp: seq<XorName>, holders: seq<XorName>) returns (i: nat)
    ensures i <= |closeGrp|
    ensures FirstEligible(closeGrp, holders) == if i < |closeGrp| then Some(i) else None
  {
    i := 0;
    while i < |closeGrp| && closeGrp[i] in holders
      invariant 0 <= i <= |closeGrp|
      invariant forall j :: 0 <= j < i ==> closeGrp[j] in holders
    {
      i := i + 1;
    }
    FirstEligibleAt(closeGrp, holders, i);
  }
}
