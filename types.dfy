/**
 * The values that flow between the example node and the routing layer:
 * names, message identifiers, data, authorities, requests, responses,
 * refresh payloads, and the outbound calls the node makes.
 */
module Types {

  datatype Option<+T> = None | Some(value: T)

  /** A 256-bit name in the overlay's XOR space, used for peers, clients and data alike. */
  newtype XorName = n: int | 0 <= n < 0x1_0000_0000_0000_0000_0000_0000_0000_0000_0000_0000_0000_0000_0000_0000_0000_0000

  /** Rust's `u64`: the client account counter the node passes through untouched. */
  newtype U64 = x: int | 0 <= x < 0x1_0000_0000_0000_0000

  /**
   * A correlation token. A request carries a fresh one; a churn event yields one
   * deterministically from the churned peer's name.
   */
  datatype MessageId =
    | Random(nonce: XorName)
    | FromAddedNode(added: XorName)
    | FromLostNode(lost: XorName)

  /** A stored object, keyed by the name the routing library derives from its content. */
  datatype Data = Data(name: XorName, content: seq<bv8>)

  /** The key a `Get` asks for; only its name is consulted by the node. */
  datatype DataIdentifier =
    | Plain(name: XorName)
    | Immutable(name: XorName)
    | Structured(name: XorName, typeTag: U64)

  /** The role a message is sent from or addressed to. */
  datatype Authority =
    | Client(name: XorName)
    | ClientManager(name: XorName)
    | NaeManager(name: XorName)
    | NodeManager(name: XorName)
    | ManagedNode(name: XorName)

  /** Refresh gossip payload; `ClientRefresh` is the source's `Client`, `NaeManagerRefresh` its `NaeManager`. */
  datatype RefreshContent =
    | ClientRefresh(clientName: XorName, balance: U64)
    | NaeManagerRefresh(dataName: XorName, data: Data)

  datatype Request =
    | Get(dataId: DataIdentifier, id: MessageId)
    | Put(data: Data, id: MessageId)
    | Post(data: Data, id: MessageId)
    | Delete(data: Data, id: MessageId)
    | GetAccountInfo(id: MessageId)
    | Refresh(content: RefreshContent, id: MessageId)

  datatype Response =
    | GetSuccess(data: Data, id: MessageId)
    | GetFailure(dataId: DataIdentifier, externalError: seq<bv8>, id: MessageId)
    | PutSuccess(dataId: DataIdentifier, id: MessageId)
    | PutFailure(dataId: DataIdentifier, externalError: seq<bv8>, id: MessageId)

  /** One outbound call into the routing node, as recorded in the node's send log. */
  datatype OutMsg =
    | SendGetRequest(src: Authority, dst: Authority, dataId: DataIdentifier, id: MessageId)
    | SendGetSuccess(src: Authority, dst: Authority, data: Data, id: MessageId)
    | SendGetFailure(src: Authority, dst: Authority, dataId: DataIdentifier, text: seq<bv8>, id: MessageId)
    | SendPutRequest(src: Authority, dst: Authority, data: Data, id: MessageId)
    | SendPutSuccess(src: Authority, dst: Authority, dataId: DataIdentifier, id: MessageId)
    | SendRefreshRequest(src: Authority, dst: Authority, content: RefreshContent, id: MessageId)
    | SendDataManagerRefresh(dataName: XorName, holders: seq<XorName>, id: MessageId)

  /** The UTF-8 bytes of "Data not found", the payload of every `GetFailure` the node sends. */
  const DataNotFound: seq<bv8> :=
    [0x44, 0x61, 0x74, 0x61, 0x20, 0x6e, 0x6f, 0x74, 0x20, 0x66, 0x6f, 0x75, 0x6e, 0x64]
}
