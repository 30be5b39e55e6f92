# ExampleNode: request handling and churn repair

This project models `ExampleNode`, the example vault of the SAFE Routing library. It is a
node that acts in several roles, one per authority: NaeManager, ClientManager and
ManagedNode. It keeps five tables:

- `db`: the data chunks it stores;
- `client_accounts`: one counter per client;
- `dm_accounts`: per data name, the replica holders it chose;
- `client_request_cache`: per data name listed in `dm_accounts`, every requester whose `Get` for
  that name reached this node as its NaeManager; nothing in the code ever removes an entry (see
  below);
- `put_request_cache`: per message id, the (ClientManager, client) pair needed to relay a
  `PutSuccess` back to the client.

The model covers these handlers:

- request dispatch;
- `Get` and `Put` in each of their roles;
- the `PutSuccess` relay at a ClientManager;
- refresh ingestion;
- `add_dm`;
- the peer-added refresh broadcast;
- the per-object repair step that a lost peer triggers.

The model has three layers:

- `types.dfy` (module `Types`) holds the values that cross the routing boundary:
  - names are 256-bit, and `u64` counters are bounded the same way;
  - message ids, data, data identifiers, authorities, requests, responses and refresh content;
  - `OutMsg`, one constructor per outbound call: six for the `send_*` methods of the routing
    node, and `SendDataManagerRefresh` for the call at line 282 to
    `send_data_manager_refresh_message`, a method of `ExampleNode` itself that is defined nowhere.
- `handlers.dfy` (module `Handlers`) holds each handler as a pure step. A step maps the
  five tables, plus what the routing layer supplies (the close group), to the new tables and
  the calls made, in order. The lemmas beside each step state what the step guarantees.
- `example_node.dfy` (module `Node`) holds the class `ExampleNode`:
  - the five tables are map fields, plus a `sent` log of the calls made;
  - each handler is a method that updates the fields in place and appends its calls one by
    one, in the loops the source has;
  - each method's postcondition ties the new tables and the appended calls to the matching
    step in `Handlers`.

`properties.dfy` (module `Properties`) proves properties that span several handler calls:

- idempotent puts;
- the ClientManager relay round trip;
- coalescing of a burst of `Get`s, and queues that never drain;
- restoring the replica count by repeated repair;
- concrete scenarios.

The source reads `dm_accounts`, `client_request_cache` and `STORE_REDUNDANCY` but never
declares them. The model adds them:

- the two maps have the types their uses imply;
- `StoreRedundancy` is 4.

A message addressed to an authority a handler does not accept hits `unreachable!()` in the
source. In the model that case is a precondition (`Addressable`, and the `requires` of
`HandleResponse`, `HandleGetRequest` and `HandlePutRequest`).

## Model

| member | source | states |
|---|---|---|
| Handlers.Truncate | examples/utils/example_node.rs:203 | `Vec::truncate`: the result is the prefix of length min(\|s\|, n) |
| Handlers.GetAtNaeManager | examples/utils/example_node.rs:136-167 | Unknown name: tables unchanged and one `GetFailure` with "Data not found" to the requester. Known name: the requester is appended to the name's queue; `Get`s go to every listed holder in order exactly when the queue was empty before; otherwise nothing is sent. `db`, `dm_accounts` and `put_request_cache` are untouched. |
| Handlers.GetRequest | examples/utils/example_node.rs:135-186 | The `Get` handler by addressed role: no role changes `db`, `client_accounts`, `dm_accounts` or `put_request_cache`; at a ManagedNode no table changes and exactly one reply is sent. The per-role behaviour is in the rows for `GetAtNaeManager` and `GetAtManagedNode`. |
| Handlers.GetAtManagedNode | examples/utils/example_node.rs:169-183 | Tables unchanged and exactly one reply: `GetSuccess` with the stored data iff the name is in `db`, otherwise `GetFailure` "Data not found" |
| Handlers.PutAtNaeManager | examples/utils/example_node.rs:190-220 | The NaeManager arm of `Put`: the first message is always the `PutSuccess` ack to the requester; `client_accounts`, `client_request_cache` and `put_request_cache` are untouched; afterwards the name is listed iff it was listed before or a close group was known. The two cases are stated in full by `PutAtNaeManagerSkips` and `PutAtNaeManagerStores`. |
| Handlers.PutAtNaeManagerSkips | examples/utils/example_node.rs:190-201 | A name already listed, or no close group: only the `PutSuccess` ack to the requester; no table changes |
| Handlers.PutAtNaeManagerStores | examples/utils/example_node.rs:190-220 | A new name with close group G: ack; `Put` to each of the first min(\|G\|, 4) members of G, in order; ack again. `dm_accounts[name]` becomes that prefix and `db[name]` the data; nothing else changes. |
| Handlers.PutAtNaeManagerKeepsRedundancy | examples/utils/example_node.rs:203-213 | A NaeManager `Put` keeps every holder list within `StoreRedundancy` |
| Handlers.PutAtClientManager | examples/utils/example_node.rs:222-235 | Exactly one `Put` from the ClientManager to the data's NaeManager. `put_request_cache[id]` becomes (ClientManager, client), overwriting any earlier entry; other ids and other tables are unchanged. |
| Handlers.PutRequest | examples/utils/example_node.rs:189-237 | The `Put` handler by addressed role: neither role touches `client_accounts` or `client_request_cache`. A NaeManager leaves `put_request_cache` alone and acks first; a ClientManager leaves `db` and `dm_accounts` alone and sends exactly one message. The per-role behaviour is in the rows for `PutAtNaeManager` and `PutAtClientManager`. |
| Handlers.PutSuccessAtClientManager | examples/utils/example_node.rs:119-128 | A cached id: one `PutSuccess` with the cached pair. An unknown id: nothing sent. In both cases the id is gone afterwards, and other ids and other tables are unchanged. |
| Handlers.RefreshStep | examples/utils/example_node.rs:343-358 | Changes exactly one key of one table (`client_accounts[c]` or `db[n]`); every other key and table is unchanged; nothing is sent |
| Handlers.RequestStep | examples/utils/example_node.rs:93-117 | `Post`, `Delete` and `GetAccountInfo` change nothing and send nothing; `Refresh` sends nothing; neither `Refresh` nor `Get` touches `dm_accounts` |
| Handlers.RequestStepKeepsRedundancy | examples/utils/example_node.rs:93-117 | Every request handler keeps every holder list within `StoreRedundancy` |
| Handlers.AddDm | examples/utils/example_node.rs:288-305 | Returns true iff the holder is not listed yet and is in a known close group. True appends it at the end of the list, creating the list if absent. False changes nothing. |
| Handlers.AccountRefreshesCover | examples/utils/example_node.rs:312-325 | For an enumeration of `client_accounts`: one refresh per account, each a refresh of some account, every account covered |
| Handlers.DataRefreshesCover | examples/utils/example_node.rs:327-338 | For an enumeration of `db`: one refresh per stored object, each a refresh of some object, every object covered |
| Handlers.NodeAddedBroadcast | examples/utils/example_node.rs:309-339 | For given walk orders of the two maps: one message per walked key, every one a refresh sent from an authority to itself with the given id; the account refreshes come first, each carrying that client's counter, then one per stored object, carrying that object |
| Handlers.NodeAddedBroadcastIsComplete | examples/utils/example_node.rs:309-339 | Whatever the order the maps are walked in, the peer-added broadcast has \|client_accounts\| + \|db\| messages. Each is a refresh of one entry, sent from an authority to itself with the given id, and every entry's refresh is among them. |
| Handlers.FirstEligible | examples/utils/example_node.rs:264-266 | `find`: a found index is in range and its member is not a holder, with every earlier member a holder; `None` means every member is a holder |
| Handlers.FirstEligibleAt | examples/utils/example_node.rs:264-266 | A left-to-right scan that stops at index i found what `FirstEligible` finds |
| Handlers.FirstEligibleIsFirst | examples/utils/example_node.rs:264-266 | The member found is the first close-group member that is not a holder |
| Handlers.FirstEligibleNone | examples/utils/example_node.rs:264-266 | No index found means every close-group member is already a holder |
| Handlers.RepairStep | examples/utils/example_node.rs:252-283 | The repair step for one stored object changes only that object's holder list, keeps the old list as its prefix and grows it by at most one; no key is added to `dm_accounts`; it sends nothing or exactly two messages. When it acts is stated by `RepairStepIdle` and `RepairStepActs`. |
| Handlers.RepairStepIdle | examples/utils/example_node.rs:252-266 | Unless the list exists, is shorter than `StoreRedundancy`, the close group is known and has a member not yet listed, the repair step changes nothing and sends nothing |
| Handlers.RepairStepActs | examples/utils/example_node.rs:264-282 | Otherwise it appends the first eligible member x to the list. It sends a `Put` of the data to `ManagedNode(x)` and then the refresh of the new list, two messages in that order. |
| Handlers.RepairStepKeepsRedundancy | examples/utils/example_node.rs:252 | The repair step keeps every holder list within `StoreRedundancy` |
| Node.ExampleNode.constructor | examples/utils/example_node.rs:43-55 | A new node has all tables empty and has sent nothing |
| Node.ExampleNode.HandleRequest | examples/utils/example_node.rs:93-117 | New tables and appended calls are those of `RequestStep` |
| Node.ExampleNode.HandleResponse | examples/utils/example_node.rs:119-128 | New tables and appended calls are those of `PutSuccessAtClientManager` |
| Node.ExampleNode.HandleGetRequest | examples/utils/example_node.rs:130-186 | New tables and appended calls are those of the `Get` step for the addressed role |
| Node.ExampleNode.SendGets | examples/utils/example_node.rs:149-159 | The loop appends one `Get` per holder, in list order |
| Node.ExampleNode.HandlePutRequest | examples/utils/example_node.rs:188-238 | New tables and appended calls are those of the `Put` step for the addressed role |
| Node.ExampleNode.PutAsNaeManager | examples/utils/example_node.rs:190-220 | New tables and appended calls are those of `PutAtNaeManager` |
| Node.ExampleNode.StoreNewPut | examples/utils/example_node.rs:196-220 | For a new name with a known close group, the in-place truncation, loop and inserts give the tables and calls of `PutAtNaeManager` |
| Node.ExampleNode.SendPuts | examples/utils/example_node.rs:205-211 | The loop appends one `Put` per chosen holder, in list order |
| Node.ExampleNode.AddDm | examples/utils/example_node.rs:288-305 | Result and new tables are those of `Handlers.AddDm`; nothing is sent |
| Node.ExampleNode.HandleNodeAdded | examples/utils/example_node.rs:309-339 | Tables unchanged. The ghost results enumerate the account and data keys, and the appended calls are the broadcast for those orders. |
| Node.ExampleNode.SendAccountRefreshes | examples/utils/example_node.rs:312-325 | The loop over `client_accounts` appends one refresh per account, in the order it visits them, and visits each account once |
| Node.ExampleNode.SendDataRefreshes | examples/utils/example_node.rs:327-338 | The loop over `db` appends one refresh per stored object, in the order it visits them, and visits each object once |
| Node.ExampleNode.HandleRefresh | examples/utils/example_node.rs:343-358 | New tables are those of `RefreshStep`; nothing is sent |
| Node.ExampleNode.RepairLostCopy | examples/utils/example_node.rs:252-283 | New tables and appended calls are those of `RepairStep` |
| Node.FindEligible | examples/utils/example_node.rs:264-266 | The scan loop returns the index `FirstEligible` finds, or the length when it finds none |
| Properties.IdempotentPut | examples/utils/example_node.rs:193-194 | After a NaeManager `Put` for a name that had a close group (or found the name listed), a second `Put` for that name changes no table and only sends the ack |
| Properties.PutRelayRoundTrip | examples/utils/example_node.rs:222-235 | A `Put` relayed by a ClientManager, then the `PutSuccess` for its id, sends one relay to the NaeManager and one `PutSuccess` back to the client. The cache ends without the id, and the other tables are as before. |
| Properties.QueuedGetsSendNothing | examples/utils/example_node.rs:139-147 | While requests are queued for a name, any run of further `Get`s sends nothing and only extends the queue, in arrival order |
| Properties.QueueNeverDrains | examples/utils/example_node.rs:119-128 | Once a name's `Get` queue is non-empty, every request handler, the `PutSuccess` relay, the repair step and `add_dm` leave it non-empty: no handler ever removes a queued requester |
| Properties.GetBurstFansOutOnce | examples/utils/example_node.rs:136-159 | A run of `Get`s for a listed name with an empty queue fans out once, to every holder with the first request's id, and queues every requester in order |
| Properties.RepairRoundAddsOne | examples/utils/example_node.rs:252-283 | One repair round on a short list with an eligible member grows the list by exactly one eligible member, keeping the old list as prefix |
| Properties.EligibleShrinks | examples/utils/example_node.rs:264-266 | Listing one eligible member removes exactly that member from the eligible set |
| Properties.RepairRestoresRedundancy | examples/utils/example_node.rs:252-283 | A list k short of `StoreRedundancy`, with at least k eligible close-group members, is back at exactly `StoreRedundancy` after k repair rounds, with its old holders in front |
| Properties.AddDmCanExceedRedundancy | examples/utils/example_node.rs:292-295 | `add_dm` does not check length: with a close group of five it admits a fifth holder and breaks `WithinRedundancy` |
| Properties.PutScenario | examples/utils/example_node.rs:190-220 | A fresh NaeManager with close group [1,2,3,4,5] forwards the `Put` to [1,2,3,4] only, lists them, stores the data and sends the ack twice |
| Properties.RepairScenario | examples/utils/example_node.rs:252-283 | List [1,3,4] with close group [1,3,4,5,6]: the data goes to 5, the list becomes [1,3,4,5], and that list is refreshed |
| Properties.FullListIsNotRepaired | examples/utils/example_node.rs:252 | For every table, data, source, id and close group: a holder list of `StoreRedundancy` or more entries makes the repair step change nothing and send nothing |
| Properties.LostPeerStaysListed | examples/utils/example_node.rs:252-283 | Name 9 held by [1,2,3,4] after losing peer 2, close group [1,3,4,5,6]: peer 2 is still listed, the list is full, and no repair `Put` is sent |

## Left out

- The `run` event loop, the channel it reads, `Connected`, `Terminate` and the `RestartRequired` rebuild of the routing node: process plumbing. Each handler is a method called directly.
- The `send_*` calls into `routing::Node`: each becomes an `OutMsg` appended to `sent`. Send errors (the `unwrap!`s and ignored results) are not modelled.
- `close_group` is a parameter supplied by the caller, `Option<seq<XorName>>`; how the routing table computes it is not modelled.
- An `Err` from `close_group` (lines 196, 257, 292) panics the node through `unwrap_result!` (at 196 after the ack of line 191 has been sent); only `None` and `Some` are modelled.
- `send_data_manager_refresh_message` (line 282) is called but defined nowhere. It becomes the `SendDataManagerRefresh` message, carrying the data name, the new holder list and the id.
- `handle_node_lost` refers to `data`, `dst` and `id`, none of which are in scope in that function (lines 252-282). The repair step is modelled for one stored object, with those three as parameters (`RepairLostCopy`). How the lost peer's name selects objects and ids is not modelled.
- The first, shadowed `handle_node_added` (lines 242-245) and the `send_refresh` calls (lines 244, 249): `send_refresh` is defined nowhere.
- `serialise` / `deserialise` of `RefreshContent`: refresh content is passed as the datatype, so a decode failure cannot occur.
- The ten-minute expiry of the `LruCache` behind `put_request_cache`: the cache is a plain map, and entries leave it only when their `PutSuccess` is handled.
- Logging and `get_debug_name`.
- How a `MessageId` is derived from a peer name (`from_added_node`, `from_lost_node`): the model keeps the peer name as the id's payload.
- The routing library's derivation of a data name from its content: `Data.name` is a field.
- `src/states/common/base.rs` and `master/implementors/core/ops/trait.Shr.js` are not part of this model.
- Node.ExampleNode.HandleNodeAdded: Rust's `HashMap` iteration order is unspecified, so the contract fixes the sent calls only up to the enumeration order. The ghost results name that order.

Where the code and its own comments, or what a reader would expect of it, differ, the model follows the code:

- The comment at line 251 says a `Put` is sent when the data "is missing a copy". One would expect losing holder 2 of name X, listed at `[1,2,3,4]` with close group now `[1,3,4,5,6]`, to send the data to 5 and list X at `[1,3,4,5]`. Nothing in the code removes a lost peer from `dm_accounts`, so the list stays `[1,2,3,4]`, full, and the repair step does nothing (`FullListIsNotRepaired`, `LostPeerStaysListed`). A list that is already short, `[1,3,4]`, does grow to `[1,3,4,5]` (`RepairScenario`).
- A NaeManager `Put` for a new name acknowledges the requester twice (lines 191 and 218), and the model does the same.
- The doc comment at lines 341-342 says a refresh means "a quorum has been reached". The handler counts nothing: each refresh is a blind overwrite of one key (`RefreshStep`).
- `add_dm` does not bound the list length, so it can break the bound `StoreRedundancy` that `Put` and repair keep (`AddDmCanExceedRedundancy`).
- `client_request_cache` is only ever appended to (lines 139-142). The NaeManager's fan-out (lines 154-158) goes to ManagedNodes, which answer with a `GetSuccess` or `GetFailure` addressed back to the NaeManager (lines 174, 180). `handle_response` treats every response other than a `PutSuccess` at a ClientManager as `unreachable!()` (line 126), so those answers are never handled. So a name's queue never empties (`QueueNeverDrains`), and after the first `Get` for a name every later `Get` for it is queued and never forwarded or answered (`QueuedGetsSendNothing`). The `requires` of `HandleResponse` excludes exactly the responses that line 126 rejects, among them these answers.
- The `Put`s a NaeManager forwards (lines 205-211) are addressed to ManagedNodes, but `handle_put_request` accepts only a NaeManager or ClientManager destination and treats a ManagedNode as `unreachable!()` (line 236). The model's `Addressable` and the `requires` of `HandlePutRequest` exclude that destination in the same way; the data is stored in `db` by the NaeManager itself (line 220).
