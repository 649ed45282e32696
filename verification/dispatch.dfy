/**
 The drip transaction the bot signs and submits for a positive decision.
 Its sender, amount and gas settings come from the configuration alone.
 */
module Dispatch {

  import opened Wrappers
  import opened Chain
  import opened Eligibility

  /** Gas price of every drip: 2 * 10^15 wei. */
  const GasPrice: nat := 2_000_000_000_000_000

  const GasLimit: nat := 3_000_000

  /** The transfer of the configured drip from the operator to `receiver`. */
  function DripTx(cfg: Config, receiver: Address): (tx: Tx)
    ensures tx.from == cfg.operator && tx.to == receiver && tx.value == cfg.sendAmount
    ensures tx.gasPrice == GasPrice && tx.gasLimit == GasLimit
  {
    Tx(cfg.operator, receiver, cfg.sendAmount, GasPrice, GasLimit)
  }

  /**
   The whole handling of one bridge event up to submission: the transaction
   built for it, if any.
   */
  function HandleEvent(cfg: Config, blacklist: seq<Address>, e: BridgeEvent, origin: Option<RawTx>,
                       balanceOf: Address -> Option<nat>): (r: Option<Tx>)
    // nothing is sent for a failed lookup or a to-origin call
    ensures r.Some? ==> origin.Some? && !IsToOriginCall(origin.value)
    // a drip goes from the operator, for the configured amount, to the resolved target,
    // whose balance was read and is at most the threshold
    ensures r.Some? ==>
              var target := ResolveTarget(Counterpart(e), origin.value, blacklist);
              r.value == Tx(cfg.operator, target, cfg.sendAmount, GasPrice, GasLimit) &&
              balanceOf(target).Some? && balanceOf(target).value <= cfg.minBalance
    // and such a target is always funded
    ensures origin.Some? && !IsToOriginCall(origin.value) ==>
              var target := ResolveTarget(Counterpart(e), origin.value, blacklist);
              balanceOf(target).Some? && balanceOf(target).value <= cfg.minBalance ==> r.Some?
  {
    match Decide(cfg, Counterpart(e), origin, blacklist, balanceOf)
    case Send(target) => Some(DripTx(cfg, target))
    case _ => None
  }

  /**
   The event's token and amount play no part: two events naming the same
   counterpart are handled alike, whichever kind they are.
   */
  lemma TokenAndAmountIgnored(cfg: Config, blacklist: seq<Address>, e1: BridgeEvent, e2: BridgeEvent,
                              origin: Option<RawTx>, balanceOf: Address -> Option<nat>)
    requires Counterpart(e1) == Counterpart(e2)
    ensures HandleEvent(cfg, blacklist, e1, origin, balanceOf) == HandleEvent(cfg, blacklist, e2, origin, balanceOf)
  {
  }
}
