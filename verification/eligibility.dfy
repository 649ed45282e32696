/**
 The eligibility rule run for every bridge event: a direction filter on the
 origin transaction's selector, a blacklist redirect to the origin sender,
 and a balance-sufficiency filter, checked in that order and stopping at
 the first that decides.
 */
module Eligibility {

  import opened Wrappers
  import opened Chain

  /** Selector prefix of the bridge call that moves tokens back to the origin chain. */
  const ToOriginSelector: string := "0x23caab49"

  datatype Decision =
    | LookupFault                                       // the origin transaction could not be read
    | SkipWrongDirection                                // the recipient is leaving, not arriving
    | BalanceFault(target: Address)                     // the target's balance could not be read
    | SkipSufficientBalance(target: Address, balance: nat)
    | Send(target: Address)

  /** Case-sensitive string prefix test, as on a JavaScript string. */
  predicate StartsWith(s: string, prefix: string) {
    |prefix| <= |s| && s[..|prefix|] == prefix
  }

  /** The direction test: the input data begins with the selector, character for character. */
  function IsToOriginCall(origin: RawTx): (r: bool)
    ensures r <==> |origin.data| >= |ToOriginSelector| &&
                   forall i :: 0 <= i < |ToOriginSelector| ==> origin.data[i] == ToOriginSelector[i]
  {
    StartsWith(origin.data, ToOriginSelector)
  }

  /** The account that is checked and funded: the origin sender when the recipient is blacklisted. */
  function ResolveTarget(recipient: Address, origin: RawTx, blacklist: seq<Address>): (t: Address)
    ensures recipient in blacklist ==> t == origin.from
    ensures recipient !in blacklist ==> t == recipient
  {
    if recipient in blacklist then origin.from else recipient
  }

  /**
   The decision for one event. `origin` is the result of the transaction
   lookup and `balanceOf` the funding chain's balance query, both supplied
   by the caller.
   */
  function Decide(cfg: Config, recipient: Address, origin: Option<RawTx>, blacklist: seq<Address>,
                  balanceOf: Address -> Option<nat>): (d: Decision)
    // a failed lookup is the only way to a lookup fault
    ensures d == LookupFault <==> origin.None?
    // a to-origin call is skipped whatever the blacklist and balances say
    ensures origin.Some? && IsToOriginCall(origin.value) <==> d == SkipWrongDirection
    // every later outcome concerns the resolved target, and only its balance is consulted
    ensures d.BalanceFault? || d.SkipSufficientBalance? || d.Send? ==>
              origin.Some? && !IsToOriginCall(origin.value) &&
              d.target == ResolveTarget(recipient, origin.value, blacklist)
    ensures d.BalanceFault? ==> balanceOf(d.target).None?
    ensures d.SkipSufficientBalance? ==>
              balanceOf(d.target) == Some(d.balance) && d.balance > cfg.minBalance
    // send exactly when the resolved target holds no more than the threshold
    ensures d.Send? <==>
              origin.Some? && !IsToOriginCall(origin.value) &&
              var t := ResolveTarget(recipient, origin.value, blacklist);
              balanceOf(t).Some? && balanceOf(t).value <= cfg.minBalance
  {
    match origin
    case None => LookupFault
    case Some(tx) =>
      if IsToOriginCall(tx) then SkipWrongDirection
      else
        var target := ResolveTarget(recipient, tx, blacklist);
        match balanceOf(target)
        case None => BalanceFault(target)
        case Some(balance) =>
          if balance > cfg.minBalance then SkipSufficientBalance(target, balance)
          else Send(target)
  }

  /**
   The direction filter runs before the blacklist and balance checks: on a
   to-origin call neither the blacklist nor any balance has a say.
   */
  lemma DirectionDecidesFirst(cfg: Config, recipient: Address, origin: RawTx,
                              blacklist1: seq<Address>, blacklist2: seq<Address>,
                              balanceOf1: Address -> Option<nat>, balanceOf2: Address -> Option<nat>)
    requires IsToOriginCall(origin)
    ensures Decide(cfg, recipient, Some(origin), blacklist1, balanceOf1)
         == Decide(cfg, recipient, Some(origin), blacklist2, balanceOf2)
         == SkipWrongDirection
  {
  }

  /**
   Only the resolved target's balance matters: two balance queries that agree
   on that one account give the same decision.
   */
  lemma OnlyTargetBalanceMatters(cfg: Config, recipient: Address, origin: RawTx, blacklist: seq<Address>,
                                 balanceOf1: Address -> Option<nat>, balanceOf2: Address -> Option<nat>)
    requires balanceOf1(ResolveTarget(recipient, origin, blacklist))
          == balanceOf2(ResolveTarget(recipient, origin, blacklist))
    ensures Decide(cfg, recipient, Some(origin), blacklist, balanceOf1)
         == Decide(cfg, recipient, Some(origin), blacklist, balanceOf2)
  {
  }

  /**
   The redirect is applied once and not re-checked: when the origin sender is
   itself blacklisted, that blacklisted account is funded whenever its balance
   is at most the threshold.
   */
  lemma BlacklistedSenderIsFunded(cfg: Config, recipient: Address, origin: RawTx, blacklist: seq<Address>,
                                  balanceOf: Address -> Option<nat>)
    requires recipient in blacklist && origin.from in blacklist && !IsToOriginCall(origin)
    requires balanceOf(origin.from).Some? && balanceOf(origin.from).value <= cfg.minBalance
    ensures Decide(cfg, recipient, Some(origin), blacklist, balanceOf) == Send(origin.from)
  {
  }

  /** A concrete instance of `BlacklistedSenderIsFunded`. */
  lemma RedirectIsNotRechecked()
    ensures var origin := RawTx("0xa9059cbb", "0xDDD");
            var blacklist := ["0xCCC", "0xDDD"];
            "0xCCC" in blacklist && "0xDDD" in blacklist &&
            Decide(Config("0xOP", 100, 5), "0xCCC", Some(origin), blacklist, _ => Some(0))
              == Send("0xDDD")
  {
    var origin := RawTx("0xa9059cbb", "0xDDD");
    assert origin.data[..|ToOriginSelector|] != ToOriginSelector by {
      assert origin.data[2] != ToOriginSelector[2];
    }
  }
}
