/**
 * Properties of the example node that relate several handler invocations:
 * idempotent puts, the client-manager relay round trip, coalescing of
 * concurrent gets, restoration of the replica count by repeated repair, and a
 * few concrete scenarios.
 */
module Properties {
  import opened Types
  import opened Handlers

  // ----- Put -----

  /**
   * A second `Put` for a name that a first `Put` has placed is only
   * acknowledged: no table changes and no `Put` is forwarded again.
   */
  lemma IdempotentPut(t: Tables, data: Data, again: Data, id1: MessageId, id2: MessageId,
                      src1: Authority, src2: Authority, dst1: Authority, dst2: Authority,
                      g: seq<XorName>, closeGroup2: Option<seq<XorName>>)
    requires again.name == data.name
    ensures var first := PutAtNaeManager(t, data, id1, src1, dst1, Some(g));
      var second := PutAtNaeManager(first.tables, again, id2, src2, dst2, closeGroup2);
      && data.name in first.tables.dmAccounts
      && second.tables == first.tables
      && second.out == [SendPutSuccess(dst2, src2, Plain(data.name), id2)]
  {
    var first := PutAtNaeManager(t, data, id1, src1, dst1, Some(g));
    if data.name in t.dmAccounts {
      PutAtNaeManagerSkips(t, data, id1, src1, dst1, Some(g));
    } else {
      PutAtNaeManagerStores(t, data, id1, src1, dst1, g);
    }
    PutAtNaeManagerSkips(first.tables, again, id2, src2, dst2, closeGroup2);
  }

  /**
   * The ClientManager relay: a client's `Put` relayed by its ClientManager,
   * followed by the `PutSuccess` for the same id, sends one `PutSuccess` from
   * that ClientManager back to the client and leaves no cache entry for the id.
   */
  lemma PutRelayRoundTrip(t: Tables, data: Data, id: MessageId, client: Authority, manager: Authority,
                          dataId: DataIdentifier)
    ensures var relayed := PutAtClientManager(t, data, id, client, manager);
      var answered := PutSuccessAtClientManager(relayed.tables, dataId, id);
      && relayed.out == [SendPutRequest(manager, NaeManager(data.name), data, id)]
      && answered.out == [SendPutSuccess(manager, client, dataId, id)]
      && answered.tables == t.(putRequestCache := t.putRequestCache - {id})
  {
    var relayed := PutAtClientManager(t, data, id, client, manager);
    var answered := PutSuccessAtClientManager(relayed.tables, dataId, id);
    assert answered.tables.putRequestCache == t.putRequestCache - {id};
  }

  // ----- Get coalescing -----

  /** A run of `Get`s for one name arriving at its NaeManager, one per requester, in order. */
  function GetBurst(t: Tables, dataId: DataIdentifier, requests: seq<(Authority, MessageId)>, dst: Authority): Step
    decreases |requests|
  {
    if requests == [] then Step(t, [])
    else
      var first := GetAtNaeManager(t, dataId, requests[0].1, requests[0].0, dst);
      var rest := GetBurst(first.tables, dataId, requests[1..], dst);
      Step(rest.tables, first.out + rest.out)
  }

  /** While requests are already queued for a name, further `Get`s are only queued. */
  lemma {:induction false} QueuedGetsSendNothing(t: Tables, dataId: DataIdentifier,
                                                 requests: seq<(Authority, MessageId)>, dst: Authority)
    requires dataId.name in t.dmAccounts
    requires Pending(t.clientRequestCache, dataId.name) != []
    ensures var r := GetBurst(t, dataId, requests, dst);
      && r.out == []
      && r.tables == t.(clientRequestCache := t.clientRequestCache[dataId.name :=
                          Pending(t.clientRequestCache, dataId.name) + requests])
    decreases |requests|
  {
    var name := dataId.name;
    var queued := Pending(t.clientRequestCache, name);
    if requests == [] {
      assert queued + requests == queued;
      assert t.clientRequestCache[name := queued] == t.clientRequestCache;
    } else {
      var first := GetAtNaeManager(t, dataId, requests[0].1, requests[0].0, dst);
      QueuedGetsSendNothing(first.tables, dataId, requests[1..], dst);
      assert (queued + [(requests[0].0, requests[0].1)]) + requests[1..] == queued + requests;
    }
  }

  /**
   * Nothing ever empties a queue: once a `Get` for a name has been queued,
   * every request, the `PutSuccess` relay, a repair step and `add_dm` all
   * leave that name's queue non-empty. The replies to the fan-out are
   * responses addressed to a NaeManager, which the response handler does not
   * accept, so every later `Get` for the name is only queued.
   */
  lemma QueueNeverDrains(t: Tables, name: XorName,
                         request: Request, src: Authority, dst: Authority, closeGroup: Option<seq<XorName>>,
                         dataId: DataIdentifier, id: MessageId, data: Data, dataName: XorName, dmName: XorName)
    requires Pending(t.clientRequestCache, name) != []
    requires Addressable(request, dst)
    ensures Pending(RequestStep(t, request, src, dst, closeGroup).tables.clientRequestCache, name) != []
    ensures Pending(PutSuccessAtClientManager(t, dataId, id).tables.clientRequestCache, name) != []
    ensures Pending(RepairStep(t, data, src, id, closeGroup).tables.clientRequestCache, name) != []
    ensures Pending(AddDm(t, dataName, dmName, closeGroup).0.clientRequestCache, name) != []
  {
  }

  /**
   * Coalescing: of a run of `Get`s for a listed name with nothing queued, only
   * the first fans out, to every holder and with the first request's id; all
   * requesters end up queued in arrival order.
   */
  lemma {:induction false} GetBurstFansOutOnce(t: Tables, dataId: DataIdentifier,
                                               requests: seq<(Authority, MessageId)>, dst: Authority)
    requires dataId.name in t.dmAccounts
    requires Pending(t.clientRequestCache, dataId.name) == []
    requires requests != []
    ensures var r := GetBurst(t, dataId, requests, dst);
      && r.out == GetFanOut(dst, t.dmAccounts[dataId.name], dataId, requests[0].1)
      && r.tables == t.(clientRequestCache := t.clientRequestCache[dataId.name := requests])
  {
    var name := dataId.name;
    var first := GetAtNaeManager(t, dataId, requests[0].1, requests[0].0, dst);
    assert first.out == GetFanOut(dst, t.dmAccounts[name], dataId, requests[0].1);
    assert Pending(first.tables.clientRequestCache, name) == [requests[0]];
    QueuedGetsSendNothing(first.tables, dataId, requests[1..], dst);
    assert [requests[0]] + requests[1..] == requests;
  }

  // ----- Replica count repair -----

  /** The close-group members that are not holders yet. */
  function Eligible(g: seq<XorName>, holders: seq<XorName>): set<XorName>
  {
    set x | x in g && x !in holders
  }

  /** `k` rounds of the repair step for one stored object, with the same close group. */
  function RepairRounds(t: Tables, data: Data, src: Authority, id: MessageId,
                        closeGroup: Option<seq<XorName>>, k: nat): Tables
    decreases k
  {
    if k == 0 then t
    else RepairRounds(RepairStep(t, data, src, id, closeGroup).tables, data, src, id, closeGroup, k - 1)
  }

  /** One round on a short list whose close group has a candidate adds exactly one candidate. */
  lemma RepairRoundAddsOne(t: Tables, data: Data, src: Authority, id: MessageId, g: seq<XorName>)
    requires data.name in t.dmAccounts
    requires |t.dmAccounts[data.name]| < StoreRedundancy
    requires Eligible(g, t.dmAccounts[data.name]) != {}
    ensures var next := RepairStep(t, data, src, id, Some(g)).tables;
      var hs := t.dmAccounts[data.name];
      && data.name in next.dmAccounts
      && |next.dmAccounts[data.name]| == |hs| + 1
      && next.dmAccounts[data.name][..|hs|] == hs
      && |Eligible(g, next.dmAccounts[data.name])| + 1 == |Eligible(g, hs)|
  {
    var hs := t.dmAccounts[data.name];
    var e :| e in Eligible(g, hs);
    assert !Covered(g, hs);
    RepairStepActs(t, data, src, id, g);
    var r := RepairStep(t, data, src, id, Some(g));
    var x := r.out[0].dst.name;
    var hs' := hs + [x];
    assert hs'[..|hs|] == hs;
    EligibleShrinks(g, hs, x);
  }

  /** Listing one eligible member removes exactly that member from the eligible set. */
  lemma EligibleShrinks(g: seq<XorName>, hs: seq<XorName>, x: XorName)
    requires x in g && x !in hs
    ensures |Eligible(g, hs + [x])| + 1 == |Eligible(g, hs)|
  {
    assert Eligible(g, hs + [x]) == Eligible(g, hs) - {x};
  }

  /**
   * Churn repair restores the replica count: a list that is `k` short of
   * `StoreRedundancy`, with at least `k` close-group members not yet holding
   * the data, is back at exactly `StoreRedundancy` after `k` rounds, keeping
   * its old holders in front.
   */
  lemma {:induction false} RepairRestoresRedundancy(t: Tables, data: Data, src: Authority, id: MessageId,
                                                    g: seq<XorName>, k: nat)
    requires data.name in t.dmAccounts
    requires |t.dmAccounts[data.name]| + k == StoreRedundancy
    requires k <= |Eligible(g, t.dmAccounts[data.name])|
    ensures var final := RepairRounds(t, data, src, id, Some(g), k).dmAccounts;
      && data.name in final
      && |final[data.name]| == StoreRedundancy
      && final[data.name][..|t.dmAccounts[data.name]|] == t.dmAccounts[data.name]
    decreases k, 0
  {
    if k > 0 {
      var hs := t.dmAccounts[data.name];
      var next := RepairStep(t, data, src, id, Some(g)).tables;
      RepairRoundAddsOne(t, data, src, id, g);
      RestoreRest(next, data, src, id, g, k - 1, hs);
      RepairRoundsUnfold(t, data, src, id, Some(g), k);
    }
  }

  /**
   * The remaining rounds after the first: they restore the list, and so keep
   * any prefix the first round kept.
   */
  lemma {:induction false} RestoreRest(t: Tables, data: Data, src: Authority, id: MessageId,
                                       g: seq<XorName>, k: nat, prefix: seq<XorName>)
    requires data.name in t.dmAccounts
    requires |t.dmAccounts[data.name]| + k == StoreRedundancy
    requires k <= |Eligible(g, t.dmAccounts[data.name])|
    requires |prefix| <= |t.dmAccounts[data.name]| && t.dmAccounts[data.name][..|prefix|] == prefix
    ensures var final := RepairRounds(t, data, src, id, Some(g), k).dmAccounts;
      && data.name in final
      && |final[data.name]| == StoreRedundancy
      && final[data.name][..|prefix|] == prefix
    decreases k, 1
  {
    RepairRestoresRedundancy(t, data, src, id, g, k);
    var final := RepairRounds(t, data, src, id, Some(g), k).dmAccounts;
    PrefixOfPrefix(final[data.name], t.dmAccounts[data.name], prefix);
  }

  lemma RepairRoundsUnfold(t: Tables, data: Data, src: Authority, id: MessageId,
                           closeGroup: Option<seq<XorName>>, k: nat)
    requires k > 0
    ensures RepairRounds(t, data, src, id, closeGroup, k)
         == RepairRounds(RepairStep(t, data, src, id, closeGroup).tables, data, src, id, closeGroup, k - 1)
  {
  }

  /** A prefix of a prefix is a prefix. */
  lemma PrefixOfPrefix(a: seq<XorName>, b: seq<XorName>, c: seq<XorName>)
    requires |b| <= |a| && a[..|b|] == b
    requires |c| <= |b| && b[..|c|] == c
    ensures a[..|c|] == c
  {
    assert a[..|c|] == a[..|b|][..|c|];
  }

  // ----- add_dm -----

  /**
   * `add_dm` does not check the list's length: a close group larger than
   * `StoreRedundancy` lets it admit a holder beyond the target count.
   */
  lemma AddDmCanExceedRedundancy()
    ensures var t := EmptyTables.(dmAccounts := map[7 := [1, 2, 3, 4]]);
      var r := AddDm(t, 7, 5, Some([1, 2, 3, 4, 5]));
      && WithinRedundancy(t.dmAccounts)
      && r.1
      && r.0.dmAccounts[7] == [1, 2, 3, 4, 5]
      && !WithinRedundancy(r.0.dmAccounts)
  {
    var r := AddDm(EmptyTables.(dmAccounts := map[7 := [1, 2, 3, 4]]), 7, 5, Some([1, 2, 3, 4, 5]));
    assert |r.0.dmAccounts[7]| > StoreRedundancy;
  }

  // ----- Scenarios -----

  /**
   * A fresh NaeManager for name 9 receiving `Put` with close group
   * [1, 2, 3, 4, 5] forwards to [1, 2, 3, 4] only, records that list, stores
   * the data and acknowledges the requester.
   */
  lemma PutScenario(payload: seq<bv8>, client: Authority)
    ensures var data := Data(9, payload);
      var id := Random(1);
      var manager := NaeManager(9);
      var r := PutAtNaeManager(EmptyTables, data, id, client, manager, Some([1, 2, 3, 4, 5]));
      var ack := SendPutSuccess(manager, client, Plain(9), id);
      && r.tables.dmAccounts == map[9 := [1, 2, 3, 4]]
      && r.tables.db == map[9 := data]
      && r.out == [ack,
                   SendPutRequest(manager, ManagedNode(1), data, id),
                   SendPutRequest(manager, ManagedNode(2), data, id),
                   SendPutRequest(manager, ManagedNode(3), data, id),
                   SendPutRequest(manager, ManagedNode(4), data, id),
                   ack]
  {
    var data := Data(9, payload);
    var r := PutAtNaeManager(EmptyTables, data, Random(1), client, NaeManager(9), Some([1, 2, 3, 4, 5]));
    PutAtNaeManagerStores(EmptyTables, data, Random(1), client, NaeManager(9), [1, 2, 3, 4, 5]);
    assert [1, 2, 3, 4, 5][..4] == [1, 2, 3, 4];
    assert |r.out| == 6;
  }

  /**
   * Repair of name 9 listed at [1, 3, 4] with close group [1, 3, 4, 5, 6]:
   * the data goes to 5, the list becomes [1, 3, 4, 5] and is refreshed.
   */
  lemma RepairScenario(payload: seq<bv8>, manager: Authority)
    ensures var data := Data(9, payload);
      var id := FromLostNode(2);
      var t := EmptyTables.(dmAccounts := map[9 := [1, 3, 4]]);
      var r := RepairStep(t, data, manager, id, Some([1, 3, 4, 5, 6]));
      && r.tables.dmAccounts == map[9 := [1, 3, 4, 5]]
      && r.out == [SendPutRequest(manager, ManagedNode(5), data, id),
                   SendDataManagerRefresh(9, [1, 3, 4, 5], id)]
  {
    FirstEligibleAt([1, 3, 4, 5, 6], [1, 3, 4], 3);
    assert [1, 3, 4] + [5] == [1, 3, 4, 5];
    assert map[9 := [1, 3, 4]][9 := [1, 3, 4, 5]] == map[9 := [1, 3, 4, 5]];
  }

  /**
   * A holder list that is already `StoreRedundancy` long (or longer) is never
   * repaired: whatever the close group, source and id, the repair step changes
   * nothing and sends nothing.
   */
  lemma FullListIsNotRepaired(t: Tables, data: Data, src: Authority, id: MessageId,
                              closeGroup: Option<seq<XorName>>)
    requires data.name in t.dmAccounts && |t.dmAccounts[data.name]| >= StoreRedundancy
    ensures RepairStep(t, data, src, id, closeGroup) == Step(t, [])
  {
  }

  /**
   * Nothing removes a lost peer from a holder list: with name 9 held by
   * [1, 2, 3, 4], losing peer 2 leaves the list full, so the repair step does
   * not send the data to 5 even though 2 has left the close group.
   */
  lemma LostPeerStaysListed(payload: seq<bv8>, manager: Authority)
    ensures var t := EmptyTables.(dmAccounts := map[9 := [1, 2, 3, 4]]);
      RepairStep(t, Data(9, payload), manager, FromLostNode(2), Some([1, 3, 4, 5, 6])) == Step(t, [])
  {
    FullListIsNotRepaired(EmptyTables.(dmAccounts := map[9 := [1, 2, 3, 4]]), Data(9, payload), manager,
                          FromLostNode(2), Some([1, 3, 4, 5, 6]));
  }
}
