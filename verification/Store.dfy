/** The durable store: one atomically replaced document per account (adaptive-risk/src/store.rs). */
module Store {
  import opened Account
  import opened Outcomes

  /** How one `save` ends: before the rename, after it but before the directory is synced, or completely. */
  datatype Write = NotRenamed | NotSynced | Written

  /** The outcome of the n-th save, unknown to everyone. */
  type Writes = nat -> Write

  /** `document` is what a load sees now; after a power loss it may be any of `durable`. */
  datatype Disk = Disk(document: RiskDocument, durable: set<RiskDocument>, writes: nat)
  {
    ghost predicate Valid() { document in durable }
  }

  function Saved(w: Writes, disk: Disk, d: RiskDocument): (Disk, bool)
  {
    match w(disk.writes)
    case NotRenamed => (disk.(writes := disk.writes + 1), false)
    case NotSynced => (Disk(d, disk.durable + {d}, disk.writes + 1), false)
    case Written => (Disk(d, {d}, disk.writes + 1), true)
  }

  /** Loading never trusts an earlier reconciliation. */
  function Loaded(d: RiskDocument): Result<RiskDocument>
  {
    if d.policy.Valid() then Ok(d.(needsReconciliation := true)) else Err(InvalidRiskPolicy)
  }

  class LockedStore {
    const outcome: Writes
    var document: RiskDocument
    ghost var durable: set<RiskDocument>
    var writes: nat

    ghost function Contents(): Disk
      reads this
    {
      Disk(document, durable, writes)
    }

    /** First enrolment: the store holds exactly this document. */
    constructor (d: RiskDocument, outcome: Writes)
      ensures Contents() == Disk(d, {d}, 0) && this.outcome == outcome
    {
      this.outcome, document, durable, writes := outcome, d, {d}, 0;
    }

    method Load() returns (r: Result<RiskDocument>)
      ensures r == Loaded(document)
      ensures r.Ok? <==> document.policy.Valid()
      ensures r.Ok? ==> r.value == document.(needsReconciliation := true)
    {
      r := Loaded(document);
    }

    method Save(d: RiskDocument) returns (ok: bool)
      modifies this
      ensures (Contents(), ok) == Saved(outcome, old(Contents()), d)
    {
      var end := outcome(writes);
      writes := writes + 1;
      if end.NotRenamed? { return false; }
      document := d;
      durable := durable + {d};
      if end.NotSynced? { return false; }
      durable := {d};
      ok := true;
    }
  }

  /** A save that reports success has left nothing else to survive a power loss, one that reports
      failure may have left either document, and no save forgets everything. */
  lemma SaveIsAtomic(w: Writes, disk: Disk, d: RiskDocument)
    requires disk.Valid()
    ensures var (after, ok) := Saved(w, disk, d);
      && after.Valid() && after.durable <= disk.durable + {d}
      && (ok <==> w(disk.writes) == Written)
      && (ok ==> after.durable == {d})
      && (!ok ==> disk.durable <= after.durable)
  {
  }
}
