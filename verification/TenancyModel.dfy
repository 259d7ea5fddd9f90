/**
 Accounts, organizations, memberships, checks and status pages, changed by transactions
 that take their locks one after another and interleave between any two steps
 (api/src/members, api/src/organizations, api/src/checks, api/src/status-pages,
 api/src/billing/account-entitlements.service.ts, api/src/admin). An organization and its
 one project are the same identifier.
 */
module TenancyModel {
  import opened Options

  const SOLO_ORGANIZATION_LIMIT := 10

  datatype Tier = SOLO | SIGNAL | FLEET

  datatype Role = OWNER | ADMIN | MEMBER

  /** An account's plan, with the check limit an administrator may have set instead. */
  datatype Account = Account(tier: Tier, maxChecksOverride: Option<int>)

  function MaxChecks(a: Account): int {
    match a.maxChecksOverride
    case Some(n) => n
    case None => match a.tier case SOLO => 5 case SIGNAL => 100 case FLEET => 1000
  }

  datatype Page = Page(org: nat, listed: seq<nat>)

  /** The committed rows; `unused` is the next unused identifier. */
  datatype Data = Data(
    accounts: map<nat, Account>, creators: map<nat, nat>, members: map<(nat, nat), Role>,
    checks: map<nat, nat>, pages: map<nat, Page>, unused: nat)

  datatype Operation =
    | CreateOrganization(user: nat)
    | UpdateRole(org: nat, target: nat, role: Role)
    | RemoveMember(org: nat, target: nat)
    | Transfer(org: nat, recipient: nat)
    | RemoveOrganization(org: nat)
    | DeleteUser(user: nat)
    | CreateCheck(org: nat)
    | DeleteCheck(check: nat)
    | MoveCheck(check: nat, org: nat)
    | CreatePage(org: nat, listed: seq<nat>)
    | UpdatePage(page: nat, listed: seq<nat>)
    | SetLimits(user: nat, account: Account)

  datatype Stage = LOCKING | LOCKED | VALIDATED

  /**
   A transaction: what it read first (`source` and `destination`), its account locks, the
   OWNER membership rows of its organization, its check row and its project lock.
   */
  datatype Tx = Tx(
    op: Operation, stage: Stage, source: nat, destination: nat,
    accounts: set<nat>, rows: set<nat>, check: Option<nat>, project: Option<nat>)

  datatype State = State(data: Data, txs: map<nat, Tx>)

  // ----- What accounts hold -----

  function OrganizationsOf(d: Data, user: nat): set<nat> {
    set org | org in d.creators && d.creators[org] == user
  }

  function ChecksOf(d: Data, user: nat): set<nat> {
    set c | c in d.checks && d.checks[c] in d.creators && d.creators[d.checks[c]] == user
  }

  function ChecksIn(d: Data, org: nat): set<nat> { set c | c in d.checks && d.checks[c] == org }

  function OwnersOf(d: Data, org: nat): set<nat> {
    set m | m in d.members && m.0 == org && d.members[m] == OWNER :: m.1
  }

  function MayAddOrganization(d: Data, user: nat): bool
    requires user in d.accounts
  {
    d.accounts[user].tier != SOLO || |OrganizationsOf(d, user)| < SOLO_ORGANIZATION_LIMIT
  }

  function MayAddChecks(d: Data, user: nat, added: nat): bool
    requires user in d.accounts
  {
    |ChecksOf(d, user)| + added <= MaxChecks(d.accounts[user])
  }

  function FoundInProject(d: Data, org: nat, listed: seq<nat>): set<nat> {
    set c | c in listed && c in d.checks && d.checks[c] == org
  }

  predicate AllInProject(d: Data, org: nat, listed: seq<nat>) { |FoundInProject(d, org, listed)| == |listed| }

  // ----- The first reads, outside any lock -----

  predicate CanBegin(d: Data, op: Operation) {
    match op
    case CreateOrganization(user) => true
    case UpdateRole(org, target, _) => (org, target) in d.members
    case RemoveMember(org, target) => (org, target) in d.members
    case Transfer(org, recipient) => org in d.creators && recipient != d.creators[org]
    case RemoveOrganization(org) => org in d.creators
    case DeleteUser(user) => true
    case CreateCheck(org) => org in d.creators
    case DeleteCheck(check) => check in d.checks && d.checks[check] in d.creators
    case MoveCheck(check, org) =>
      check in d.checks && d.checks[check] in d.creators && org in d.creators && d.checks[check] != org
    case CreatePage(org, _) => true
    case UpdatePage(page, _) => page in d.pages
    case SetLimits(user, _) => true
  }

  /** The creator, or for a page its project, that the transaction saw first. */
  function SourceSeen(d: Data, op: Operation): nat
    requires CanBegin(d, op)
  {
    match op
    case Transfer(org, _) => d.creators[org]
    case RemoveOrganization(org) => d.creators[org]
    case CreateCheck(org) => d.creators[org]
    case DeleteCheck(check) => d.creators[d.checks[check]]
    case MoveCheck(check, _) => d.creators[d.checks[check]]
    case CreatePage(org, _) => org
    case UpdatePage(page, _) => d.pages[page].org
    case _ => 0
  }

  function DestinationSeen(d: Data, op: Operation): nat
    requires CanBegin(d, op)
  {
    if op.MoveCheck? then d.creators[op.org] else 0
  }

  // ----- Locks -----

  /** The accounts a transaction locks, in increasing order. */
  function AccountsNeeded(tx: Tx): set<nat> {
    match tx.op
    case CreateOrganization(user) => {user}
    case UpdateRole(_, _, _) => {}
    case RemoveMember(_, _) => {}
    case Transfer(_, recipient) => {tx.source, recipient}
    case RemoveOrganization(_) => {tx.source}
    case DeleteUser(user) => {user}
    case CreateCheck(_) => {tx.source}
    case DeleteCheck(_) => {tx.source}
    case MoveCheck(_, _) => {tx.source, tx.destination}
    case CreatePage(_, _) => {}
    case UpdatePage(_, _) => {}
    case SetLimits(user, _) => {user}
  }

  predicate LocksOwnerRows(op: Operation) { op.UpdateRole? || op.RemoveMember? || op.Transfer? }

  predicate LocksCheckRow(op: Operation) { op.DeleteCheck? || op.MoveCheck? }

  predicate WritesPage(op: Operation) { op.CreatePage? || op.UpdatePage? }

  /** The locks of `tx` once it holds all it takes before its fresh reads. */
  function WithLocks(d: Data, tx: Tx): Tx {
    tx.(stage := LOCKED,
        rows := if LocksOwnerRows(tx.op) then OwnersOf(d, tx.op.org) else {},
        check := if LocksCheckRow(tx.op) then Some(tx.op.check) else None,
        project := if WritesPage(tx.op) then Some(tx.source) else None)
  }

  /** Two transactions that could not hold these locks at once. */
  predicate Excluded(t: Tx, u: Tx) {
    || !(t.accounts !! u.accounts)
    || (LocksOwnerRows(t.op) && LocksOwnerRows(u.op) && t.op.org == u.op.org && !(t.rows !! u.rows))
    || (t.check.Some? && t.check == u.check)
    || (t.project.Some? && t.project == u.project)
  }

  /** The membership row is locked by a transaction other than `t`. */
  predicate RowHeld(s: State, t: nat, org: nat, user: nat) {
    exists u :: u in s.txs && u != t && LocksOwnerRows(s.txs[u].op) && s.txs[u].op.org == org && user in s.txs[u].rows
  }

  predicate CheckHeld(s: State, t: nat, check: nat) {
    exists u :: u in s.txs && u != t && s.txs[u].check == Some(check)
  }

  // ----- Fresh reads under the locks -----

  predicate Validates(d: Data, tx: Tx) {
    match tx.op
    case CreateOrganization(user) => user in d.accounts && MayAddOrganization(d, user)
    case UpdateRole(org, target, role) =>
      && (org, target) in d.members && org in d.creators
      && (d.members[(org, target)] != role ==>
            target != d.creators[org] && (d.members[(org, target)] == OWNER ==> |OwnersOf(d, org)| > 1))
    case RemoveMember(org, target) =>
      && (org, target) in d.members && org in d.creators && target != d.creators[org]
      && (d.members[(org, target)] == OWNER ==> |OwnersOf(d, org)| > 1)
    case Transfer(org, recipient) =>
      && org in d.creators && d.creators[org] == tx.source
      && (org, tx.source) in d.members && d.members[(org, tx.source)] == OWNER
      && (org, recipient) in d.members && d.members[(org, recipient)] == OWNER
      && recipient in d.accounts && MayAddOrganization(d, recipient)
      && MayAddChecks(d, recipient, |ChecksIn(d, org)|)
    case RemoveOrganization(org) => org in d.creators && d.creators[org] == tx.source
    case DeleteUser(user) => user in d.accounts && OrganizationsOf(d, user) == {}
    case CreateCheck(org) =>
      && org in d.creators && d.creators[org] == tx.source
      && tx.source in d.accounts && MayAddChecks(d, tx.source, 1)
    case DeleteCheck(check) =>
      check in d.checks && d.checks[check] in d.creators && d.creators[d.checks[check]] == tx.source
    case MoveCheck(check, org) =>
      && check in d.checks && d.checks[check] in d.creators && org in d.creators && d.checks[check] != org
      && d.creators[d.checks[check]] == tx.source && d.creators[org] == tx.destination
      && tx.destination in d.accounts
      && (tx.source != tx.destination ==> MayAddChecks(d, tx.destination, 1))
    case CreatePage(org, listed) => org in d.creators && AllInProject(d, org, listed)
    case UpdatePage(page, listed) =>
      page in d.pages && d.pages[page].org == tx.source && AllInProject(d, tx.source, listed)
    case SetLimits(user, _) => user in d.accounts
  }

  // ----- Writes -----

  function WithoutCheck(listed: seq<nat>, check: nat): (r: seq<nat>)
    ensures forall c :: c in r <==> c in listed && c != check
  {
    if listed == [] then []
    else if listed[0] == check then WithoutCheck(listed[1..], check)
    else [listed[0]] + WithoutCheck(listed[1..], check)
  }

  function Write(d: Data, tx: Tx): Data {
    match tx.op
    case CreateOrganization(user) =>
      d.(creators := d.creators[d.unused := user], members := d.members[(d.unused, user) := OWNER],
          unused := d.unused + 1)
    case UpdateRole(org, target, role) => d.(members := d.members[(org, target) := role])
    case RemoveMember(org, target) => d.(members := d.members - {(org, target)})
    case Transfer(org, recipient) => d.(creators := d.creators[org := recipient])
    case RemoveOrganization(org) =>
      d.(creators := d.creators - {org},
         members := map m | m in d.members && m.0 != org :: d.members[m],
         checks := map c | c in d.checks && d.checks[c] != org :: d.checks[c],
         pages := map p | p in d.pages && d.pages[p].org != org :: d.pages[p])
    case DeleteUser(user) =>
      d.(accounts := d.accounts - {user}, members := map m | m in d.members && m.1 != user :: d.members[m])
    case CreateCheck(org) => d.(checks := d.checks[d.unused := org], unused := d.unused + 1)
    case DeleteCheck(check) => d.(checks := d.checks - {check})
    case MoveCheck(check, org) =>
      d.(checks := d.checks[check := org],
         pages := map p | p in d.pages ::
           if check in d.checks && d.pages[p].org == d.checks[check]
           then d.pages[p].(listed := WithoutCheck(d.pages[p].listed, check)) else d.pages[p])
    case CreatePage(org, listed) => d.(pages := d.pages[d.unused := Page(org, listed)], unused := d.unused + 1)
    case UpdatePage(page, listed) =>
      if page in d.pages then d.(pages := d.pages[page := d.pages[page].(listed := listed)]) else d
    case SetLimits(user, account) => d.(accounts := d.accounts[user := account])
  }

  /** The rows a write must find, and those it waits for other transactions to release. */
  predicate CanWrite(s: State, t: nat)
    requires t in s.txs
  {
    var d, tx := s.data, s.txs[t];
    match tx.op
    case UpdateRole(org, target, _) => (org, target) in d.members && !RowHeld(s, t, org, target)
    case RemoveMember(org, target) => (org, target) in d.members && !RowHeld(s, t, org, target)
    case RemoveOrganization(org) =>
      && (forall m :: m in d.members && m.0 == org ==> !RowHeld(s, t, org, m.1))
      && (forall c :: c in d.checks && d.checks[c] == org ==> !CheckHeld(s, t, c))
    case DeleteUser(user) => forall m :: m in d.members && m.1 == user ==> !RowHeld(s, t, m.0, user)
    case MoveCheck(check, _) => check in d.checks && tx.project == Some(d.checks[check])
    case CreatePage(org, _) => org in d.creators
    case UpdatePage(page, _) => page in d.pages
    case _ => true
  }

  datatype Step =
    | Begin(t: nat, op: Operation)
    | LockAccount(t: nat, user: nat)
    | LockRows(t: nat)
    | Validate(t: nat)
    | LockProject(t: nat)
    | Commit(t: nat)
    | Abort(t: nat)
    | SignUp
    | Accept(org: nat, user: nat, role: Role)
    | AdminDeleteCheck(check: nat)
    | DeletePage(page: nat)

  predicate CompatibleWithOthers(s: State, t: nat, tx: Tx) {
    forall u :: u in s.txs && u != t ==> !Excluded(tx, s.txs[u])
  }

  predicate Enabled(s: State, step: Step) {
    var d := s.data;
    match step
    case Begin(t, op) => t !in s.txs && CanBegin(d, op)
    case LockAccount(t, user) =>
      && t in s.txs && s.txs[t].stage == LOCKING
      && user in AccountsNeeded(s.txs[t]) && user !in s.txs[t].accounts
      && (forall a :: a in AccountsNeeded(s.txs[t]) && a < user ==> a in s.txs[t].accounts)
      && CompatibleWithOthers(s, t, s.txs[t].(accounts := s.txs[t].accounts + {user}))
    case LockRows(t) =>
      && t in s.txs && s.txs[t].stage == LOCKING && AccountsNeeded(s.txs[t]) == s.txs[t].accounts
      && CompatibleWithOthers(s, t, WithLocks(d, s.txs[t]))
    case Validate(t) => t in s.txs && s.txs[t].stage == LOCKED && Validates(d, s.txs[t])
    case LockProject(t) =>
      && t in s.txs && s.txs[t].stage == VALIDATED && s.txs[t].op.MoveCheck? && s.txs[t].project.None?
      && s.txs[t].op.check in d.checks
      && CompatibleWithOthers(s, t, s.txs[t].(project := Some(d.checks[s.txs[t].op.check])))
    case Commit(t) => t in s.txs && s.txs[t].stage == VALIDATED && CanWrite(s, t)
    case Abort(t) => t in s.txs
    case SignUp => true
    case Accept(org, user, role) =>
      role != OWNER && org in d.creators && user in d.accounts && (org, user) !in d.members
    case AdminDeleteCheck(check) => check in d.checks && (forall u :: u in s.txs ==> s.txs[u].check != Some(check))
    case DeletePage(page) => page in d.pages
  }

  /** A new account comes with an organization of its own. */
  function SignedUp(d: Data): Data {
    var user, org := d.unused, d.unused + 1;
    d.(accounts := d.accounts[user := Account(SOLO, None)], creators := d.creators[org := user],
       members := d.members[(org, user) := OWNER], unused := d.unused + 2)
  }

  function Apply(s: State, step: Step): State
    requires Enabled(s, step)
  {
    var d := s.data;
    match step
    case Begin(t, op) =>
      s.(txs := s.txs[t := Tx(op, LOCKING, SourceSeen(d, op), DestinationSeen(d, op), {}, {}, None, None)])
    case LockAccount(t, user) => s.(txs := s.txs[t := s.txs[t].(accounts := s.txs[t].accounts + {user})])
    case LockRows(t) => s.(txs := s.txs[t := WithLocks(d, s.txs[t])])
    case Validate(t) => s.(txs := s.txs[t := s.txs[t].(stage := VALIDATED)])
    case LockProject(t) => s.(txs := s.txs[t := s.txs[t].(project := Some(d.checks[s.txs[t].op.check]))])
    case Commit(t) => State(Write(d, s.txs[t]), s.txs - {t})
    case Abort(t) => s.(txs := s.txs - {t})
    case SignUp => s.(data := SignedUp(d))
    case Accept(org, user, role) => s.(data := d.(members := d.members[(org, user) := role]))
    case AdminDeleteCheck(check) => s.(data := d.(checks := d.checks - {check}))
    case DeletePage(page) => s.(data := d.(pages := d.pages - {page}))
  }

  const EMPTY := State(Data(map[], map[], map[], map[], map[], 0), map[])

  ghost predicate Legal(s: State, steps: seq<Step>)
    decreases |steps|
  {
    steps == [] || (Enabled(s, steps[0]) && Legal(Apply(s, steps[0]), steps[1..]))
  }

  ghost function After(s: State, steps: seq<Step>): State
    requires Legal(s, steps)
    decreases |steps|
  {
    if steps == [] then s else After(Apply(s, steps[0]), steps[1..])
  }
}
