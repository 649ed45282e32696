/**
 The values the bot exchanges with the two chains and with its configuration:
 bridge events, the origin transaction fetched for an event, the bot's
 settings and the drip transaction it builds. Amounts are integers in wei.
 */
module Chain {

  /** A hex account address, compared as the exact string the chain returns. */
  type Address = string

  /** The two bridge contract events the bot subscribes to. */
  datatype BridgeEvent =
    | TokensBridgingInitiated(token: Address, value: nat, sender: Address, txHash: string)
    | TokensBridged(token: Address, value: nat, recipient: Address, txHash: string)

  /** The fields of the origin transaction the bot reads: its input data and its sender. */
  datatype RawTx = RawTx(data: string, from: Address)

  /** Settings read once from the environment. */
  datatype Config = Config(
    operator: Address,   // the funding account
    minBalance: nat,     // a target holding more than this is not funded
    sendAmount: nat      // the fixed drip, in wei
  )

  /** A native-currency transfer on the funding chain. */
  datatype Tx = Tx(from: Address, to: Address, value: nat, gasPrice: nat, gasLimit: nat)

  /**
   The address each event handler passes on as the candidate recipient:
   the sender of an initiated bridging, the recipient of a completed one.
   */
  function Counterpart(e: BridgeEvent): (a: Address)
    ensures e.TokensBridgingInitiated? ==> a == e.sender
    ensures e.TokensBridged? ==> a == e.recipient
  {
    match e
    case TokensBridgingInitiated(_, _, sender, _) => sender
    case TokensBridged(_, _, recipient, _) => recipient
  }
}
