/** Every write stays within the locks of its transaction and keeps the rows in order. */
module TenancyWrites {
  import opened Options
  import opened TenancyModel
  import opened TenancyInvariant

  /** The checks whose rows other transactions hold. */
  function KeptChecks(s: State, t: nat): set<nat> {
    set u | u in s.txs && u != t && s.txs[u].check.Some? :: s.txs[u].check.value
  }

  /** A transaction ready to write. */
  ghost predicate Ready(s: State, t: nat) { Inv(s) && t in s.txs && s.txs[t].stage == VALIDATED && CanWrite(s, t) }

  /** ... seen from the rows alone, `kept` being the checks that others hold. */
  predicate MayWrite(d: Data, tx: Tx, kept: set<nat>) {
    && DataOk(d) && TxOk(d, tx) && tx.stage == VALIDATED && (tx.check.Some? ==> tx.check.value !in kept)
    && match tx.op
       case UpdateRole(org, target, _) => (org, target) in d.members
       case RemoveMember(org, target) => (org, target) in d.members
       case RemoveOrganization(org) => forall c :: c in d.checks && d.checks[c] == org ==> c !in kept
       case MoveCheck(check, _) => check in d.checks && tx.project == Some(d.checks[check])
       case CreatePage(org, _) => org in d.creators
       case UpdatePage(page, _) => page in d.pages
       case _ => true
  }

  lemma ReadyMayWrite(s: State, t: nat)
    requires Ready(s, t)
    ensures MayWrite(s.data, s.txs[t], KeptChecks(s, t))
  {
    var tx := s.txs[t];
    if tx.op.RemoveOrganization? {
      forall c | c in s.data.checks && s.data.checks[c] == tx.op.org ensures c !in KeptChecks(s, t) {
        assert !CheckHeld(s, t, c);
      }
    }
  }

  predicate Framed(d: Data, tx: Tx, kept: set<nat>) {
    Frame(d, Write(d, tx), tx.accounts, RowLockedBy(tx), tx.project, kept)
  }

  /** Changing or removing one membership of a row-locked organization. */
  lemma MemberWritesFramed(
      d: Data, e: Data, m: (nat, nat), role: Option<Role>, accounts: set<nat>, project: Option<nat>, kept: set<nat>)
    requires DataOk(d)
    requires e == d.(members := if role.Some? then d.members[m := role.value] else d.members - {m})
    ensures Frame(d, e, accounts, {m.0}, project, kept)
  {
  }

  lemma UserDeletionFramed(d: Data, tx: Tx, kept: set<nat>)
    requires MayWrite(d, tx, kept) && tx.op.DeleteUser?
    ensures Framed(d, tx, kept)
  {
  }

  lemma OrganizationCreationFramed(d: Data, tx: Tx, kept: set<nat>)
    requires MayWrite(d, tx, kept) && tx.op.CreateOrganization?
    ensures Framed(d, tx, kept)
  {
  }

  lemma TransferFramed(d: Data, tx: Tx, kept: set<nat>)
    requires MayWrite(d, tx, kept) && tx.op.Transfer?
    ensures Framed(d, tx, kept)
  {
  }

  lemma RemovalFramed(d: Data, tx: Tx, kept: set<nat>)
    requires MayWrite(d, tx, kept) && tx.op.RemoveOrganization?
    ensures Framed(d, tx, kept)
  {
  }

  lemma CheckCreationFramed(d: Data, tx: Tx, kept: set<nat>)
    requires MayWrite(d, tx, kept) && tx.op.CreateCheck?
    ensures Framed(d, tx, kept)
  {
  }

  lemma CheckDeletionFramed(d: Data, tx: Tx, kept: set<nat>)
    requires MayWrite(d, tx, kept) && tx.op.DeleteCheck?
    ensures Framed(d, tx, kept)
  {
  }

  lemma MoveFramed(d: Data, tx: Tx, kept: set<nat>)
    requires MayWrite(d, tx, kept) && tx.op.MoveCheck?
    ensures Framed(d, tx, kept)
  {
  }

  lemma PageCreationFramed(d: Data, tx: Tx, kept: set<nat>)
    requires MayWrite(d, tx, kept) && tx.op.CreatePage?
    ensures Framed(d, tx, kept)
  {
  }

  lemma PageUpdateFramed(d: Data, tx: Tx, kept: set<nat>)
    requires MayWrite(d, tx, kept) && tx.op.UpdatePage?
    ensures Framed(d, tx, kept)
  {
  }

  lemma LimitsFramed(d: Data, tx: Tx, kept: set<nat>)
    requires MayWrite(d, tx, kept) && tx.op.SetLimits?
    ensures Framed(d, tx, kept)
  {
  }

  lemma WriteFramed(d: Data, tx: Tx, kept: set<nat>)
    requires MayWrite(d, tx, kept)
    ensures Framed(d, tx, kept)
  {
    match tx.op
    case CreateOrganization(_) => OrganizationCreationFramed(d, tx, kept);
    case Transfer(_, _) => TransferFramed(d, tx, kept);
    case RemoveOrganization(_) => RemovalFramed(d, tx, kept);
    case DeleteUser(_) => UserDeletionFramed(d, tx, kept);
    case CreateCheck(_) => CheckCreationFramed(d, tx, kept);
    case DeleteCheck(_) => CheckDeletionFramed(d, tx, kept);
    case MoveCheck(_, _) => MoveFramed(d, tx, kept);
    case CreatePage(_, _) => PageCreationFramed(d, tx, kept);
    case UpdatePage(_, _) => PageUpdateFramed(d, tx, kept);
    case SetLimits(_, _) => LimitsFramed(d, tx, kept);
    case UpdateRole(org, target, role) =>
      MemberWritesFramed(d, Write(d, tx), (org, target), Some(role), tx.accounts, tx.project, kept);
    case RemoveMember(org, target) =>
      MemberWritesFramed(d, Write(d, tx), (org, target), None, tx.accounts, tx.project, kept);
  }

  // ----- The rows stay in order -----

  lemma MemberWriteKeepsData(d: Data, tx: Tx, kept: set<nat>)
    requires MayWrite(d, tx, kept) && (tx.op.UpdateRole? || tx.op.RemoveMember?)
    ensures DataOk(Write(d, tx))
  {
  }

  lemma CreatorWriteKeepsData(d: Data, tx: Tx, kept: set<nat>)
    requires MayWrite(d, tx, kept) && tx.op.CreateOrganization?
    ensures DataOk(Write(d, tx))
  {
  }

  lemma TransferKeepsData(d: Data, tx: Tx)
    requires DataOk(d) && StillValid(d, tx) && tx.op.Transfer?
    ensures DataOk(Write(d, tx))
  {
  }

  lemma RemovalKeepsData(d: Data, tx: Tx, kept: set<nat>)
    requires MayWrite(d, tx, kept) && (tx.op.RemoveOrganization? || tx.op.DeleteUser?)
    ensures DataOk(Write(d, tx))
  {
    if tx.op.DeleteUser? {
      forall org | org in d.creators ensures d.creators[org] != tx.op.user {
        assert org in OrganizationsOf(d, d.creators[org]);
      }
    }
  }

  lemma CheckWriteKeepsData(d: Data, tx: Tx, kept: set<nat>)
    requires MayWrite(d, tx, kept) && (tx.op.CreateCheck? || tx.op.DeleteCheck?)
    ensures DataOk(Write(d, tx))
  {
  }

  /** A moved check has left every page that listed it. */
  lemma MoveKeepsData(d: Data, tx: Tx, kept: set<nat>)
    requires MayWrite(d, tx, kept) && tx.op.MoveCheck?
    ensures DataOk(Write(d, tx))
  {
    var e, check := Write(d, tx), tx.op.check;
    forall p | p in e.pages ensures ListsOnly(e, e.pages[p].org, e.pages[p].listed) {
      assert ListsOnly(d, d.pages[p].org, d.pages[p].listed);
      assert check !in e.pages[p].listed;
    }
  }

  lemma PageWriteKeepsData(d: Data, tx: Tx, kept: set<nat>)
    requires MayWrite(d, tx, kept) && WritesPage(tx.op)
    ensures DataOk(Write(d, tx))
  {
  }

  lemma LimitsKeepData(d: Data, tx: Tx)
    requires DataOk(d) && StillValid(d, tx) && tx.op.SetLimits?
    ensures DataOk(Write(d, tx))
  {
  }

  lemma WriteKeepsData(d: Data, tx: Tx, kept: set<nat>)
    requires MayWrite(d, tx, kept)
    ensures DataOk(Write(d, tx))
  {
    match tx.op
    case CreateOrganization(_) => CreatorWriteKeepsData(d, tx, kept);
    case Transfer(_, _) => TransferKeepsData(d, tx);
    case RemoveOrganization(_) => RemovalKeepsData(d, tx, kept);
    case DeleteUser(_) => RemovalKeepsData(d, tx, kept);
    case CreateCheck(_) => CheckWriteKeepsData(d, tx, kept);
    case DeleteCheck(_) => CheckWriteKeepsData(d, tx, kept);
    case MoveCheck(_, _) => MoveKeepsData(d, tx, kept);
    case CreatePage(_, _) => PageWriteKeepsData(d, tx, kept);
    case UpdatePage(_, _) => PageWriteKeepsData(d, tx, kept);
    case SetLimits(_, _) => LimitsKeepData(d, tx);
    case _ => MemberWriteKeepsData(d, tx, kept);
  }
}
