/**
 The event pipeline run in sequence: each bridge event is decided, a drip is
 built and submitted for a positive decision, and the status record is
 updated when the drip's receipt arrives. Everything the chains report is
 given with the event as an observation.
 */
module Pipeline {

  import opened Wrappers
  import opened Chain
  import opened Eligibility
  import opened Dispatch
  import opened StatusStore

  /** One event together with what the chains answered while it was handled. */
  datatype Observation = Observation(
    event: BridgeEvent,
    origin: Option<RawTx>,                  // the origin transaction lookup
    balanceOf: Address -> Option<nat>,      // balance queries on the funding chain
    operatorBalanceOnReceipt: Option<nat>   // Some(operator balance) once the drip's receipt arrived
  )

  /** A drip handed to the signer, and whether its receipt arrived. */
  datatype Attempt = Attempt(tx: Tx, confirmed: bool)

  datatype RunState = RunState(attempts: seq<Attempt>, status: StatusFile)

  /** The number of drips whose receipt arrived. */
  function Confirmed(attempts: seq<Attempt>): nat
    decreases |attempts|
  {
    if |attempts| == 0 then 0
    else Confirmed(attempts[..|attempts| - 1]) + (if attempts[|attempts| - 1].confirmed then 1 else 0)
  }

  /** Handling of one event. */
  function Step(cfg: Config, blacklist: seq<Address>, st: RunState, ob: Observation): (st': RunState)
    // at most one drip per event; earlier drips are kept as they were
    ensures |st.attempts| <= |st'.attempts| <= |st.attempts| + 1 && st'.attempts[..|st.attempts|] == st.attempts
    // the status file changes only for a confirmed drip
    ensures st'.status != st.status ==> |st'.attempts| == |st.attempts| + 1 && st'.attempts[|st.attempts|].confirmed
    // an eligible event appends exactly the drip built for it, marked with whether its receipt arrived
    ensures var drip := HandleEvent(cfg, blacklist, ob.event, ob.origin, ob.balanceOf);
            && (|st'.attempts| == |st.attempts| + 1 <==> drip.Some?)
            && (drip.Some? ==> st'.attempts[|st.attempts|] == Attempt(drip.value, ob.operatorBalanceOnReceipt.Some?))
    // a confirmed drip updates the status with the configured amount and the reported operator balance
    ensures HandleEvent(cfg, blacklist, ob.event, ob.origin, ob.balanceOf).Some? && ob.operatorBalanceOnReceipt.Some? ==>
              st'.status == SaveStatus(st.status, StatusUpdate(cfg.sendAmount, ob.operatorBalanceOnReceipt.value))
  {
    match HandleEvent(cfg, blacklist, ob.event, ob.origin, ob.balanceOf)
    case None => st
    case Some(tx) =>
      match ob.operatorBalanceOnReceipt
      case None => RunState(st.attempts + [Attempt(tx, false)], st.status)
      case Some(operatorBalance) =>
        RunState(st.attempts + [Attempt(tx, true)], SaveStatus(st.status, StatusUpdate(cfg.sendAmount, operatorBalance)))
  }

  /** Handling of a sequence of events, in order. */
  function Run(cfg: Config, blacklist: seq<Address>, st: RunState, obs: seq<Observation>): (end: RunState)
    // earlier drips are kept, and each event adds at most one
    ensures |st.attempts| <= |end.attempts| <= |st.attempts| + |obs|
    ensures end.attempts[..|st.attempts|] == st.attempts
    decreases |obs|
  {
    if |obs| == 0 then st else Run(cfg, blacklist, Step(cfg, blacklist, st, obs[0]), obs[1..])
  }

  /** An event whose origin transaction is a to-origin call changes nothing at all. */
  lemma WrongDirectionChangesNothing(cfg: Config, blacklist: seq<Address>, st: RunState, ob: Observation)
    requires ob.origin.Some? && IsToOriginCall(ob.origin.value)
    ensures Step(cfg, blacklist, st, ob) == st
  {
  }

  /** Neither does an event whose resolved target already holds more than the threshold. */
  lemma FundedTargetChangesNothing(cfg: Config, blacklist: seq<Address>, st: RunState, ob: Observation)
    requires ob.origin.Some? && !IsToOriginCall(ob.origin.value)
    requires var target := ResolveTarget(Counterpart(ob.event), ob.origin.value, blacklist);
             ob.balanceOf(target).Some? && ob.balanceOf(target).value > cfg.minBalance
    ensures Step(cfg, blacklist, st, ob) == st
  {
  }

  /** A blacklisted recipient's event can only fund the origin transaction's sender. */
  lemma BlacklistedRecipientRedirected(cfg: Config, blacklist: seq<Address>, st: RunState, ob: Observation)
    requires Counterpart(ob.event) in blacklist
    ensures var st' := Step(cfg, blacklist, st, ob);
            |st'.attempts| > |st.attempts| ==>
              ob.origin.Some? && st'.attempts[|st.attempts|].tx.to == ob.origin.value.from
  {
  }

  /** A run in which every event leaves for the origin chain sends nothing and records nothing. */
  lemma {:induction false} WrongDirectionRunIsIdle(cfg: Config, blacklist: seq<Address>, st: RunState,
                                                   obs: seq<Observation>)
    requires forall k :: 0 <= k < |obs| ==> obs[k].origin.Some? && IsToOriginCall(obs[k].origin.value)
    ensures Run(cfg, blacklist, st, obs) == st
    decreases |obs|
  {
    if |obs| > 0 {
      WrongDirectionChangesNothing(cfg, blacklist, st, obs[0]);
      WrongDirectionRunIsIdle(cfg, blacklist, st, obs[1..]);
    }
  }

  /** Every drip of a run goes from the operator, for the configured amount and gas. */
  predicate DripsWellFormed(cfg: Config, attempts: seq<Attempt>) {
    forall j :: 0 <= j < |attempts| ==>
      attempts[j].tx.from == cfg.operator && attempts[j].tx.value == cfg.sendAmount &&
      attempts[j].tx.gasPrice == GasPrice && attempts[j].tx.gasLimit == GasLimit
  }

  lemma {:induction false} RunDripsWellFormed(cfg: Config, blacklist: seq<Address>, st: RunState,
                                              obs: seq<Observation>)
    requires DripsWellFormed(cfg, st.attempts)
    ensures DripsWellFormed(cfg, Run(cfg, blacklist, st, obs).attempts)
    decreases |obs|
  {
    if |obs| > 0 {
      var st' := Step(cfg, blacklist, st, obs[0]);
      assert DripsWellFormed(cfg, st'.attempts) by {
        if |st'.attempts| > |st.attempts| {
          assert st'.attempts == st.attempts + [st'.attempts[|st.attempts|]];
        }
      }
      RunDripsWellFormed(cfg, blacklist, st', obs[1..]);
    }
  }

  /**
   The counters track the confirmed drips exactly: relative to a base record,
   one wallet per confirmed drip and the configured amount per confirmed drip.
   */
  predicate CountersMatch(cfg: Config, base: Status, st: RunState) {
    && Readable(st.status)
    && Current(st.status).walletFunded == base.walletFunded + Confirmed(st.attempts)
    && Current(st.status).givenAway == base.givenAway + Confirmed(st.attempts) * cfg.sendAmount
  }

  lemma StepKeepsCounters(cfg: Config, blacklist: seq<Address>, base: Status, st: RunState, ob: Observation)
    requires CountersMatch(cfg, base, st)
    ensures CountersMatch(cfg, base, Step(cfg, blacklist, st, ob))
  {
  }

  lemma {:induction false} RunKeepsCounters(cfg: Config, blacklist: seq<Address>, base: Status, st: RunState,
                                            obs: seq<Observation>)
    requires CountersMatch(cfg, base, st)
    ensures CountersMatch(cfg, base, Run(cfg, blacklist, st, obs))
    decreases |obs|
  {
    if |obs| > 0 {
      StepKeepsCounters(cfg, blacklist, base, st, obs[0]);
      RunKeepsCounters(cfg, blacklist, base, Step(cfg, blacklist, st, obs[0]), obs[1..]);
    }
  }

  /**
   A fresh process whose status file is readable ends any run with a record
   counting exactly its confirmed drips, and the configured amount given away
   for each of them, on top of what the file held.
   */
  lemma RunFromStart(cfg: Config, blacklist: seq<Address>, f: StatusFile, obs: seq<Observation>)
    requires Readable(f)
    ensures var end := Run(cfg, blacklist, RunState([], f), obs);
            Readable(end.status) &&
            Current(end.status).walletFunded == Current(f).walletFunded + Confirmed(end.attempts) &&
            Current(end.status).givenAway == Current(f).givenAway + Confirmed(end.attempts) * cfg.sendAmount
  {
    RunKeepsCounters(cfg, blacklist, Current(f), RunState([], f), obs);
  }

  /** A status file the update cannot read is never written, whatever the run. */
  lemma {:induction false} RunLeavesUnreadableFile(cfg: Config, blacklist: seq<Address>, st: RunState,
                                                   obs: seq<Observation>)
    requires !Readable(st.status)
    ensures Run(cfg, blacklist, st, obs).status == st.status
    decreases |obs|
  {
    if |obs| > 0 {
      RunLeavesUnreadableFile(cfg, blacklist, Step(cfg, blacklist, st, obs[0]), obs[1..]);
    }
  }
}
