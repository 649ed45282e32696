/**
 The persisted operator status: how many wallets were funded, how much was
 given away in total, and the operator's last known balance. One update runs
 per confirmed drip as a read-modify-write of the status file.
 */
module StatusStore {

  import opened Wrappers

  datatype Status = Status(walletFunded: nat, givenAway: nat, balance: nat)

  /** The record used when the status file is empty. */
  const DefaultStatus: Status := Status(0, 0, 0)

  /**
   What a read of the status file yields: a read error (for instance a
   missing file), content the JSON parser rejects, the empty string, or a
   stored record.
   */
  datatype StatusFile = Unreadable | Malformed | EmptyFile | Stored(status: Status)

  /** The input of one status update: the amount sent and the operator balance queried after it. */
  datatype StatusUpdate = StatusUpdate(amount: nat, operatorBalance: nat)

  /** The record an update starts from, or None when the update is abandoned. */
  function Load(f: StatusFile): (r: Option<Status>)
    ensures r.None? <==> f.Unreadable? || f.Malformed?
    ensures f.EmptyFile? ==> r == Some(DefaultStatus)
    ensures f.Stored? ==> r == Some(f.status)
  {
    match f
    case Unreadable => None
    case Malformed => None
    case EmptyFile => Some(DefaultStatus)
    case Stored(s) => Some(s)
  }

  /** True when an update of `f` goes through. */
  predicate Readable(f: StatusFile) {
    f.EmptyFile? || f.Stored?
  }

  /** The record an update starts from; an empty file gives the default record. */
  function Current(f: StatusFile): Status
    requires Readable(f)
  {
    if f.Stored? then f.status else DefaultStatus
  }

  /** `Readable` and `Current` say in two parts what `Load` says in one. */
  lemma LoadIsCurrent(f: StatusFile)
    ensures Load(f) == if Readable(f) then Some(Current(f)) else None
  {
  }

  /** The three-field change one confirmed drip makes. */
  function Bump(s: Status, r: StatusUpdate): Status {
    Status(s.walletFunded + 1, s.givenAway + r.amount, r.operatorBalance)
  }

  /** The read-modify-write of one status update. */
  function SaveStatus(f: StatusFile, r: StatusUpdate): (g: StatusFile)
    // an update that cannot read the record writes nothing, and resets nothing
    ensures !Readable(f) ==> g == f
    // otherwise a record is written: one more wallet, exactly the amount more given away,
    // and the balance replaced by the operator's
    ensures Readable(f) ==> (g.Stored? &&
                              g.status.walletFunded == Current(f).walletFunded + 1 &&
                              g.status.givenAway == Current(f).givenAway + r.amount &&
                              g.status.balance == r.operatorBalance)
  {
    match Load(f)
    case None => f
    case Some(s) => Stored(Bump(s, r))
  }

  /** The status file after a sequence of confirmed drips, applied in order. */
  function SaveAll(f: StatusFile, rs: seq<StatusUpdate>): StatusFile
    decreases |rs|
  {
    if |rs| == 0 then f else SaveAll(SaveStatus(f, rs[0]), rs[1..])
  }

  function TotalAmount(rs: seq<StatusUpdate>): nat
    decreases |rs|
  {
    if |rs| == 0 then 0 else rs[0].amount + TotalAmount(rs[1..])
  }

  /**
   Counter invariant of repeated updates on a readable file: the count grows by
   the number of drips, the total by their summed amounts, and the balance is
   the one reported with the last drip.
   */
  lemma {:induction false} SaveAllCounts(f: StatusFile, rs: seq<StatusUpdate>)
    requires Readable(f)
    ensures Readable(SaveAll(f, rs))
    ensures Current(SaveAll(f, rs)).walletFunded == Current(f).walletFunded + |rs|
    ensures Current(SaveAll(f, rs)).givenAway == Current(f).givenAway + TotalAmount(rs)
    ensures Current(SaveAll(f, rs)).balance
         == if |rs| == 0 then Current(f).balance else rs[|rs| - 1].operatorBalance
    decreases |rs|
  {
    if |rs| > 0 {
      var g := SaveStatus(f, rs[0]);
      SaveAllCounts(g, rs[1..]);
      if |rs| > 1 {
        assert rs[1..][|rs[1..]| - 1] == rs[|rs| - 1];
      }
    }
  }

  /** An update that cannot read the file never writes, so no number of drips resets it. */
  lemma {:induction false} SaveAllUnreadable(f: StatusFile, rs: seq<StatusUpdate>)
    requires !Readable(f)
    ensures SaveAll(f, rs) == f
    decreases |rs|
  {
    if |rs| > 0 {
      SaveAllUnreadable(SaveStatus(f, rs[0]), rs[1..]);
    }
  }

  lemma {:induction false} TotalOfFixedAmount(rs: seq<StatusUpdate>, amount: nat)
    requires forall i :: 0 <= i < |rs| ==> rs[i].amount == amount
    ensures TotalAmount(rs) == |rs| * amount
    decreases |rs|
  {
    if |rs| > 0 {
      TotalOfFixedAmount(rs[1..], amount);
    }
  }

  /**
   Starting from the empty status file, N confirmed drips of the same amount A
   leave a record counting N wallets and N * A given away.
   */
  lemma FixedDripsFromEmpty(rs: seq<StatusUpdate>, amount: nat)
    requires |rs| > 0
    requires forall i :: 0 <= i < |rs| ==> rs[i].amount == amount
    ensures SaveAll(EmptyFile, rs)
         == Stored(Status(|rs|, |rs| * amount, rs[|rs| - 1].operatorBalance))
  {
    SaveAllCounts(EmptyFile, rs);
    TotalOfFixedAmount(rs, amount);
    SaveAllStored(EmptyFile, rs);
  }

  /** Once at least one drip has been recorded, the file holds a record. */
  lemma {:induction false} SaveAllStored(f: StatusFile, rs: seq<StatusUpdate>)
    requires Readable(f) && |rs| > 0
    ensures SaveAll(f, rs).Stored?
    decreases |rs|
  {
    var g := SaveStatus(f, rs[0]);
    if |rs| > 1 {
      SaveAllStored(g, rs[1..]);
    }
  }
}
