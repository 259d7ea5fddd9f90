/** What every reachable state of the tenancy transactions keeps. */
module TenancyInvariant {
  import opened Options
  import opened Sets
  import opened TenancyModel

  /** Rows refer to rows that exist, under identifiers already given out. */
  predicate RowsOk(d: Data) {
    && (forall m :: m in d.members ==> m.0 in d.creators && m.1 in d.accounts)
    && (forall c :: c in d.checks ==> d.checks[c] in d.creators && c < d.unused)
    && (forall p :: p in d.pages ==> p < d.unused)
    && (forall org :: org in d.creators ==> org < d.unused)
    && (forall user :: user in d.accounts ==> user < d.unused)
  }

  /** The creator of every organization is one of its owners. */
  predicate CreatorsAreOwners(d: Data) {
    forall org :: org in d.creators ==>
      && d.creators[org] in d.accounts
      && (org, d.creators[org]) in d.members && d.members[(org, d.creators[org])] == OWNER
  }

  /** A list of checks names no live check of another project. */
  predicate ListsOnly(d: Data, org: nat, listed: seq<nat>) {
    forall c :: c in listed ==> c < d.unused && (c in d.checks ==> d.checks[c] == org)
  }

  predicate PagesListOwnChecks(d: Data) {
    forall p :: p in d.pages ==> ListsOnly(d, d.pages[p].org, d.pages[p].listed)
  }

  predicate DataOk(d: Data) { RowsOk(d) && CreatorsAreOwners(d) && PagesListOwnChecks(d) }

  /** What a transaction validated and still holds when it writes. */
  predicate StillValid(d: Data, tx: Tx) {
    match tx.op
    case CreateOrganization(user) => user in d.accounts && MayAddOrganization(d, user)
    case UpdateRole(org, target, role) => org in d.creators && target == d.creators[org] ==> role == OWNER
    case RemoveMember(org, target) => org in d.creators ==> target != d.creators[org]
    case Transfer(org, recipient) =>
      && org in d.creators && d.creators[org] == tx.source && recipient != tx.source
      && recipient in tx.rows && (org, recipient) in d.members && d.members[(org, recipient)] == OWNER
      && recipient in d.accounts && MayAddOrganization(d, recipient)
      && MayAddChecks(d, recipient, |ChecksIn(d, org)|)
    case RemoveOrganization(org) => org in d.creators && d.creators[org] == tx.source
    case DeleteUser(user) => user in d.accounts && OrganizationsOf(d, user) == {}
    case CreateCheck(org) =>
      org in d.creators && d.creators[org] == tx.source && tx.source in d.accounts && MayAddChecks(d, tx.source, 1)
    case DeleteCheck(_) => true
    case MoveCheck(check, org) =>
      && check in d.checks && d.checks[check] in d.creators && org in d.creators && d.checks[check] != org
      && d.creators[d.checks[check]] == tx.source && d.creators[org] == tx.destination
      && tx.destination in d.accounts
      && (tx.source != tx.destination ==> MayAddChecks(d, tx.destination, 1))
      && (tx.project.Some? ==> tx.project == Some(d.checks[check]))
    case CreatePage(org, listed) => ListsOnly(d, org, listed)
    case UpdatePage(page, listed) =>
      ListsOnly(d, tx.source, listed) && (page in d.pages ==> d.pages[page].org == tx.source)
    case SetLimits(user, _) => user in d.accounts
  }

  /** A locked transaction holds all it needs, the creator's row among the owner rows. */
  predicate HoldsItsLocks(d: Data, tx: Tx) {
    && tx.accounts == AccountsNeeded(tx)
    && (LocksOwnerRows(tx.op) && tx.op.org in d.creators ==>
          d.creators[tx.op.org] in tx.rows && OwnersOf(d, tx.op.org) <= tx.rows)
    && (LocksCheckRow(tx.op) ==> tx.check == Some(tx.op.check))
    && (WritesPage(tx.op) ==> tx.project == Some(tx.source))
  }

  predicate TxOk(d: Data, tx: Tx) {
    && (LocksOwnerRows(tx.op) ==> tx.op.org < d.unused)
    && (tx.op.Transfer? ==> tx.op.recipient != tx.source)
    && (tx.op.CreatePage? ==> tx.op.org == tx.source)
    && (tx.op.UpdatePage? ==> tx.op.page < d.unused && (tx.op.page in d.pages ==> d.pages[tx.op.page].org == tx.source))
    && (tx.check.Some? ==> LocksCheckRow(tx.op))
    && (tx.stage == LOCKING ==> tx.rows == {} && tx.check.None? && tx.project.None?)
    && (tx.stage != LOCKING ==> HoldsItsLocks(d, tx))
    && (tx.stage == VALIDATED ==> StillValid(d, tx))
    && (tx.stage != VALIDATED && !WritesPage(tx.op) ==> tx.project.None?)
  }

  ghost predicate Inv(s: State) {
    && DataOk(s.data)
    && (forall t :: t in s.txs ==> TxOk(s.data, s.txs[t]))
    && (forall t, u :: t in s.txs && u in s.txs && t != u ==> !Excluded(s.txs[t], s.txs[u]))
  }

  // ----- What a write may change, given the locks of its transaction -----

  /** The organizations whose owner rows `tx` has locked. */
  function RowLockedBy(tx: Tx): set<nat> { if LocksOwnerRows(tx.op) then {tx.op.org} else {} }

  /**
   Accounts outside `accounts` keep their plan and organizations and gain no check; only
   the organizations `orgs` change creator or owners in place; a check in `kept` stays, and
   one leaves a project only if that project is `project`.
   */
  predicate Frame(d: Data, e: Data, accounts: set<nat>, orgs: set<nat>, project: Option<nat>, kept: set<nat>) {
    && d.unused <= e.unused
    && (forall u :: u in d.accounts && u !in accounts ==> u in e.accounts && e.accounts[u] == d.accounts[u])
    && (forall org :: org in d.creators && d.creators[org] !in accounts ==>
          org in e.creators && e.creators[org] == d.creators[org])
    && (forall org :: org in e.creators && org < d.unused ==>
          org in d.creators && (e.creators[org] == d.creators[org] || (org in orgs && e.creators[org] in accounts)))
    && (forall org :: org in e.creators && d.unused <= org ==>
        e.creators[org] in accounts || d.unused <= e.creators[org])
    && (forall m: (nat, nat) :: m in e.members && e.members[m] == OWNER && m.0 < d.unused ==>
          m.0 in orgs || (m in d.members && d.members[m] == OWNER))
    && (forall m: (nat, nat) ::
          (m in d.members && m.0 in d.creators && m.0 !in orgs && d.creators[m.0] !in accounts && m.1 !in accounts) ==>
          m in e.members && e.members[m] == d.members[m])
    && (forall c :: c in e.checks ==>
          || (c in d.checks && e.checks[c] == d.checks[c])
          || (e.checks[c] in e.creators && e.creators[e.checks[c]] in accounts))
    && (forall c :: c in e.checks && c < d.unused ==>
          c in d.checks && (e.checks[c] == d.checks[c] || project == Some(d.checks[c])))
    && (forall c :: c in d.checks && c in kept ==> c in e.checks && e.checks[c] == d.checks[c])
    && (forall p :: p in e.pages && p < d.unused ==> p in d.pages && e.pages[p].org == d.pages[p].org)
  }

  lemma FrameKeepsOrganizations(
      d: Data, e: Data, accounts: set<nat>, orgs: set<nat>, project: Option<nat>, kept: set<nat>, u: nat)
    requires RowsOk(d) && Frame(d, e, accounts, orgs, project, kept) && u !in accounts && u < d.unused
    ensures OrganizationsOf(e, u) == OrganizationsOf(d, u)
  {
  }

  lemma FrameKeepsCounts(
      d: Data, e: Data, accounts: set<nat>, orgs: set<nat>, project: Option<nat>, kept: set<nat>, u: nat)
    requires RowsOk(d) && Frame(d, e, accounts, orgs, project, kept) && u !in accounts && u < d.unused
    ensures ChecksOf(e, u) <= ChecksOf(d, u)
    ensures |ChecksOf(e, u)| <= |ChecksOf(d, u)|
  {
    SubsetSize(ChecksOf(e, u), ChecksOf(d, u));
  }

  lemma FrameKeepsProject(
      d: Data, e: Data, accounts: set<nat>, orgs: set<nat>, project: Option<nat>, kept: set<nat>, org: nat)
    requires RowsOk(d) && Frame(d, e, accounts, orgs, project, kept)
    requires org in d.creators && d.creators[org] !in accounts
    ensures |ChecksIn(e, org)| <= |ChecksIn(d, org)|
  {
    assert ChecksIn(e, org) <= ChecksIn(d, org);
    SubsetSize(ChecksIn(e, org), ChecksIn(d, org));
  }

  /** A transaction whose locks exclude the writer's keeps what it validated. */
  lemma FrameKeepsTx(d: Data, e: Data, accounts: set<nat>, orgs: set<nat>, project: Option<nat>, kept: set<nat>, tx: Tx)
    requires DataOk(d) && TxOk(d, tx) && Frame(d, e, accounts, orgs, project, kept)
    requires tx.accounts !! accounts
    requires tx.stage != LOCKING && LocksOwnerRows(tx.op) && tx.op.org in d.creators ==> tx.op.org !in orgs
    requires tx.project.None? || tx.project != project
    requires tx.check.Some? ==> tx.check.value in kept
    ensures TxOk(e, tx)
  {
    if tx.stage != LOCKING {
      FrameKeepsLocks(d, e, accounts, orgs, project, kept, tx);
      if tx.stage == VALIDATED {
        FrameKeepsValid(d, e, accounts, orgs, project, kept, tx);
      }
    }
  }

  lemma FrameKeepsLocks(
        d: Data, e: Data, accounts: set<nat>, orgs: set<nat>, project: Option<nat>, kept: set<nat>, tx: Tx)
    requires DataOk(d) && TxOk(d, tx) && tx.stage != LOCKING && Frame(d, e, accounts, orgs, project, kept)
    requires LocksOwnerRows(tx.op) && tx.op.org in d.creators ==> tx.op.org !in orgs
    ensures HoldsItsLocks(e, tx)
  {
  }

  lemma FrameKeepsAccounts(
      d: Data, e: Data, accounts: set<nat>, orgs: set<nat>, project: Option<nat>, kept: set<nat>, locked: set<nat>)
    requires RowsOk(d) && Frame(d, e, accounts, orgs, project, kept) && locked !! accounts
    ensures forall u :: u in locked && u in d.accounts ==>
              && u in e.accounts && e.accounts[u] == d.accounts[u]
              && OrganizationsOf(e, u) == OrganizationsOf(d, u) && |ChecksOf(e, u)| <= |ChecksOf(d, u)|
  {
    forall u | u in locked && u in d.accounts
      ensures OrganizationsOf(e, u) == OrganizationsOf(d, u) && |ChecksOf(e, u)| <= |ChecksOf(d, u)|
    {
      FrameKeepsOrganizations(d, e, accounts, orgs, project, kept, u);
      FrameKeepsCounts(d, e, accounts, orgs, project, kept, u);
    }
  }

  lemma FrameKeepsTransfer(
      d: Data, e: Data, accounts: set<nat>, orgs: set<nat>, project: Option<nat>, kept: set<nat>, tx: Tx)
    requires DataOk(d) && TxOk(d, tx) && tx.stage == VALIDATED && tx.op.Transfer?
    requires Frame(d, e, accounts, orgs, project, kept) && tx.accounts !! accounts && tx.op.org !in orgs
    ensures StillValid(e, tx)
  {
    FrameKeepsAccounts(d, e, accounts, orgs, project, kept, tx.accounts);
    assert tx.source in tx.accounts && tx.op.recipient in tx.accounts;
    FrameKeepsProject(d, e, accounts, orgs, project, kept, tx.op.org);
  }

  lemma FrameKeepsMove(
      d: Data, e: Data, accounts: set<nat>, orgs: set<nat>, project: Option<nat>, kept: set<nat>, tx: Tx)
    requires DataOk(d) && TxOk(d, tx) && tx.stage == VALIDATED && tx.op.MoveCheck?
    requires Frame(d, e, accounts, orgs, project, kept) && tx.accounts !! accounts && tx.op.check in kept
    ensures StillValid(e, tx)
  {
    FrameKeepsAccounts(d, e, accounts, orgs, project, kept, tx.accounts);
    assert tx.source in tx.accounts && tx.destination in tx.accounts;
  }

  lemma FrameKeepsPageWrite(
      d: Data, e: Data, accounts: set<nat>, orgs: set<nat>, project: Option<nat>, kept: set<nat>, tx: Tx)
    requires DataOk(d) && TxOk(d, tx) && tx.stage == VALIDATED && WritesPage(tx.op)
    requires Frame(d, e, accounts, orgs, project, kept) && tx.project != project
    ensures StillValid(e, tx)
  {
  }

  lemma FrameKeepsAccountWrite(
      d: Data, e: Data, accounts: set<nat>, orgs: set<nat>, project: Option<nat>, kept: set<nat>, tx: Tx)
    requires DataOk(d) && TxOk(d, tx) && tx.stage == VALIDATED
    requires !tx.op.Transfer? && !tx.op.MoveCheck? && !WritesPage(tx.op)
    requires Frame(d, e, accounts, orgs, project, kept) && tx.accounts !! accounts
    requires LocksOwnerRows(tx.op) && tx.op.org in d.creators ==> tx.op.org !in orgs
    ensures StillValid(e, tx)
  {
    FrameKeepsAccounts(d, e, accounts, orgs, project, kept, tx.accounts);
  }

  lemma FrameKeepsValid(
        d: Data, e: Data, accounts: set<nat>, orgs: set<nat>, project: Option<nat>, kept: set<nat>, tx: Tx)
    requires DataOk(d) && TxOk(d, tx) && tx.stage == VALIDATED && Frame(d, e, accounts, orgs, project, kept)
    requires tx.accounts !! accounts
    requires LocksOwnerRows(tx.op) && tx.op.org in d.creators ==> tx.op.org !in orgs
    requires tx.project.None? || tx.project != project
    requires tx.check.Some? ==> tx.check.value in kept
    ensures StillValid(e, tx)
  {
    if tx.op.Transfer? {
      FrameKeepsTransfer(d, e, accounts, orgs, project, kept, tx);
    } else if tx.op.MoveCheck? {
      FrameKeepsMove(d, e, accounts, orgs, project, kept, tx);
    } else if WritesPage(tx.op) {
      FrameKeepsPageWrite(d, e, accounts, orgs, project, kept, tx);
    } else {
      FrameKeepsAccountWrite(d, e, accounts, orgs, project, kept, tx);
    }
  }
}
