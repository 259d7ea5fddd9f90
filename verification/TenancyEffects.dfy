/**
 What each committed transaction changes, and that everything else stays, whatever other
 transactions are under way.
 */
module TenancyEffects {
  import opened Options
  import opened Sets
  import opened TenancyModel
  import opened TenancyInvariant
  import opened TenancySafety

  /** Nothing but the named kind of row differs. */
  predicate SameAccounts(d: Data, e: Data) { e.accounts == d.accounts }

  predicate SameOrganizations(d: Data, e: Data) { e.creators == d.creators && e.members == d.members }

  predicate SameContents(d: Data, e: Data) { e.checks == d.checks && e.pages == d.pages }

  /** `after` has the entry, and otherwise what `before` has. */
  ghost predicate Puts<K(!new), V>(before: map<K, V>, after: map<K, V>, key: K, value: V) {
    && key in after && after[key] == value
    && (forall k :: k in after <==> k in before || k == key)
    && (forall k :: k in before && k != key ==> after[k] == before[k])
  }

  /** `after` has the entries of `before` but one. */
  ghost predicate Drops<K(!new), V>(before: map<K, V>, after: map<K, V>, key: K) {
    && (forall k :: k in after <==> k in before && k != key)
    && (forall k :: k in after ==> after[k] == before[k])
  }

  /** The rows that are left are as they were. */
  predicate Subset<K, V(==)>(before: map<K, V>, after: map<K, V>) {
    forall k :: k in after ==> k in before && after[k] == before[k]
  }

  lemma CreatedOrganization(s: State, t: nat, user: nat)
    requires RowsOk(s.data) && Enabled(s, Commit(t)) && s.txs[t].op == CreateOrganization(user)
    ensures var d, e := s.data, Apply(s, Commit(t)).data;
            var org := d.unused;
            && org !in d.creators && Puts(d.creators, e.creators, org, user)
            && Puts(d.members, e.members, (org, user), OWNER)
            && OrganizationsOf(e, user) == OrganizationsOf(d, user) + {org} && OwnersOf(e, org) == {user}
            && SameAccounts(d, e) && SameContents(d, e)
  {
  }

  lemma UpdatedRole(s: State, t: nat, org: nat, target: nat, role: Role)
    requires Enabled(s, Commit(t)) && s.txs[t].op == UpdateRole(org, target, role)
    ensures var d, e := s.data, Apply(s, Commit(t)).data;
            && (org, target) in d.members && Puts(d.members, e.members, (org, target), role)
            && e.creators == d.creators && SameAccounts(d, e) && SameContents(d, e)
  {
  }

  lemma RemovedMember(s: State, t: nat, org: nat, target: nat)
    requires Enabled(s, Commit(t)) && s.txs[t].op == RemoveMember(org, target)
    ensures var d, e := s.data, Apply(s, Commit(t)).data;
            && (org, target) in d.members && Drops(d.members, e.members, (org, target))
            && e.creators == d.creators && SameAccounts(d, e) && SameContents(d, e)
  {
  }

  /** The recipient becomes the creator, and takes over the organization's checks from the old one. */
  lemma TransferredCreatorship(s: State, t: nat, org: nat, recipient: nat)
    requires Inv(s) && Enabled(s, Commit(t)) && s.txs[t].op == Transfer(org, recipient)
    ensures var d, e := s.data, Apply(s, Commit(t)).data;
            && org in d.creators && d.creators[org] == s.txs[t].source != recipient
            && Puts(d.creators, e.creators, org, recipient) && HandsOver(d, e, org, s.txs[t].source, recipient)
            && e.members == d.members && SameAccounts(d, e) && SameContents(d, e)
  {
    assert TxOk(s.data, s.txs[t]);
    NewCreatorTakesOver(s.data, org, recipient);
  }

  /** The organization and its checks count for the recipient and no longer for the source. */
  predicate HandsOver(d: Data, e: Data, org: nat, source: nat, recipient: nat) {
    && OrganizationsOf(e, recipient) == OrganizationsOf(d, recipient) + {org}
    && ChecksOf(e, recipient) == ChecksOf(d, recipient) + ChecksIn(d, org)
    && OrganizationsOf(e, source) == OrganizationsOf(d, source) - {org}
    && ChecksOf(e, source) == ChecksOf(d, source) - ChecksIn(d, org)
  }

  lemma NewCreatorTakesOver(d: Data, org: nat, recipient: nat)
    requires org in d.creators && d.creators[org] != recipient
    ensures HandsOver(d, d.(creators := d.creators[org := recipient]), org, d.creators[org], recipient)
  {
  }

  lemma RemovedOrganization(s: State, t: nat, org: nat)
    requires Enabled(s, Commit(t)) && s.txs[t].op == RemoveOrganization(org)
    ensures var d, e := s.data, Apply(s, Commit(t)).data;
            && Drops(d.creators, e.creators, org)
            && Subset(d.members, e.members) && (forall m :: m in d.members ==> (m in e.members <==> m.0 != org))
            && Subset(d.checks, e.checks) && (forall c :: c in d.checks ==> (c in e.checks <==> d.checks[c] != org))
            && Subset(d.pages, e.pages) && (forall p :: p in d.pages ==> (p in e.pages <==> d.pages[p].org != org))
            && SameAccounts(d, e)
  {
  }

  lemma DeletedUser(s: State, t: nat, user: nat)
    requires Enabled(s, Commit(t)) && s.txs[t].op == DeleteUser(user)
    ensures var d, e := s.data, Apply(s, Commit(t)).data;
            && Drops(d.accounts, e.accounts, user)
            && Subset(d.members, e.members) && (forall m :: m in d.members ==> (m in e.members <==> m.1 != user))
            && e.creators == d.creators && SameContents(d, e)
  {
  }

  lemma CreatedCheck(s: State, t: nat, org: nat)
    requires RowsOk(s.data) && Enabled(s, Commit(t)) && s.txs[t].op == CreateCheck(org)
    ensures var d, e := s.data, Apply(s, Commit(t)).data;
            var check := d.unused;
            && check !in d.checks && Puts(d.checks, e.checks, check, org)
            && ChecksIn(e, org) == ChecksIn(d, org) + {check}
            && SameAccounts(d, e) && SameOrganizations(d, e) && e.pages == d.pages
  {
  }

  lemma DeletedCheck(s: State, t: nat, check: nat)
    requires Enabled(s, Commit(t)) && s.txs[t].op == DeleteCheck(check)
    ensures var d, e := s.data, Apply(s, Commit(t)).data;
            && Drops(d.checks, e.checks, check)
            && SameAccounts(d, e) && SameOrganizations(d, e) && e.pages == d.pages
  {
  }

  /** The check is in the destination, and its old project's pages show the rest of their lists, in order. */
  lemma MovedCheck(s: State, t: nat, check: nat, org: nat)
    requires Inv(s) && Enabled(s, Commit(t)) && s.txs[t].op == MoveCheck(check, org)
    ensures var d, e := s.data, Apply(s, Commit(t)).data;
            && check in d.checks && d.checks[check] != org
            && Puts(d.checks, e.checks, check, org) && ChangesProject(d, e, check, d.checks[check], org)
            && PagesDrop(d, e, d.checks[check], check) && SameAccounts(d, e) && SameOrganizations(d, e)
  {
    assert TxOk(s.data, s.txs[t]);
    var d, e := s.data, Apply(s, Commit(t)).data;
    assert e.checks == d.checks[check := org];
    MovedChecks(d, e, check, org);
  }

  predicate ChangesProject(d: Data, e: Data, check: nat, source: nat, org: nat) {
    ChecksIn(e, org) == ChecksIn(d, org) + {check} && ChecksIn(e, source) == ChecksIn(d, source) - {check}
  }

  lemma MovedChecks(d: Data, e: Data, check: nat, org: nat)
    requires check in d.checks && d.checks[check] != org && e.checks == d.checks[check := org]
    ensures ChangesProject(d, e, check, d.checks[check], org)
  {
  }

  /** The pages of the project show their lists without the check; other pages stay. */
  predicate PagesDrop(d: Data, e: Data, org: nat, check: nat) {
    && e.pages.Keys == d.pages.Keys
    && (forall p :: p in d.pages ==>
          && e.pages[p].org == d.pages[p].org
          && e.pages[p].listed
             == if d.pages[p].org == org then WithoutCheck(d.pages[p].listed, check) else d.pages[p].listed)
  }

  /** Taking a check off a list leaves the others, in order. */
  lemma {:induction false} WithoutCheckMeaning(a: seq<nat>, c: nat, b: seq<nat>, check: nat)
    ensures WithoutCheck(a + [c] + b, check)
         == WithoutCheck(a, check) + (if c == check then [] else [c]) + WithoutCheck(b, check)
  {
    if a == [] {
      assert (a + [c] + b)[1..] == b;
    } else {
      assert (a + [c] + b)[1..] == a[1..] + [c] + b;
      WithoutCheckMeaning(a[1..], c, b, check);
    }
  }

  lemma CreatedPage(s: State, t: nat, org: nat, listed: seq<nat>)
    requires RowsOk(s.data) && Enabled(s, Commit(t)) && s.txs[t].op == CreatePage(org, listed)
    ensures var d, e := s.data, Apply(s, Commit(t)).data;
            && d.unused !in d.pages && Puts(d.pages, e.pages, d.unused, Page(org, listed))
            && SameAccounts(d, e) && SameOrganizations(d, e) && e.checks == d.checks
  {
  }

  lemma UpdatedPage(s: State, t: nat, page: nat, listed: seq<nat>)
    requires Enabled(s, Commit(t)) && s.txs[t].op == UpdatePage(page, listed)
    ensures var d, e := s.data, Apply(s, Commit(t)).data;
            && page in d.pages && Puts(d.pages, e.pages, page, Page(d.pages[page].org, listed))
            && SameAccounts(d, e) && SameOrganizations(d, e) && e.checks == d.checks
  {
  }

  lemma ChangedLimits(s: State, t: nat, user: nat, account: Account)
    requires Enabled(s, Commit(t)) && s.txs[t].op == SetLimits(user, account)
    ensures var d, e := s.data, Apply(s, Commit(t)).data;
            Puts(d.accounts, e.accounts, user, account) && SameOrganizations(d, e) && SameContents(d, e)
  {
  }

  /** A sign-up adds an account that owns one new organization. */
  lemma SignedUpAccount(s: State)
    requires RowsOk(s.data)
    ensures var d, e := s.data, Apply(s, SignUp).data;
            && d.unused !in d.accounts && Puts(d.accounts, e.accounts, d.unused, Account(SOLO, None))
            && d.unused + 1 !in d.creators && Puts(d.creators, e.creators, d.unused + 1, d.unused)
            && Puts(d.members, e.members, (d.unused + 1, d.unused), OWNER) && SameContents(d, e)
  {
  }

  /** An accepted invitation adds one membership that is not an owner's. */
  lemma AcceptedInvitation(s: State, org: nat, user: nat, role: Role)
    requires Enabled(s, Accept(org, user, role))
    ensures var d, e := s.data, Apply(s, Accept(org, user, role)).data;
            && (org, user) !in d.members && role != OWNER && Puts(d.members, e.members, (org, user), role)
            && e.creators == d.creators && SameAccounts(d, e) && SameContents(d, e)
  {
  }

  lemma AdminDeletedCheck(s: State, check: nat)
    requires Enabled(s, AdminDeleteCheck(check))
    ensures var d, e := s.data, Apply(s, AdminDeleteCheck(check)).data;
            && Drops(d.checks, e.checks, check) && e.pages == d.pages
            && SameAccounts(d, e) && SameOrganizations(d, e)
  {
  }

  lemma DeletedPage(s: State, page: nat)
    requires Enabled(s, DeletePage(page))
    ensures var d, e := s.data, Apply(s, DeletePage(page)).data;
            && Drops(d.pages, e.pages, page) && e.checks == d.checks
            && SameAccounts(d, e) && SameOrganizations(d, e)
  {
  }

  // ----- When a transaction is accepted -----

  /** The account would be within its plan. */
  predicate FitsOrganizations(e: Data, user: nat)
    requires user in e.accounts
  {
    e.accounts[user].tier == SOLO ==> |OrganizationsOf(e, user)| <= SOLO_ORGANIZATION_LIMIT
  }

  predicate FitsChecks(e: Data, user: nat)
    requires user in e.accounts
  {
    |ChecksOf(e, user)| <= MaxChecks(e.accounts[user])
  }

  lemma DisjointSizes(a: set<nat>, b: set<nat>)
    requires a !! b
    ensures |a + b| == |a| + |b|
  {
  }

  /**
   A transfer is accepted exactly if the recipient is an owner, the creator is still the one
   seen, and the recipient's plan fits the result.
   */
  lemma TransferAcceptedIff(d: Data, tx: Tx, org: nat, recipient: nat)
    requires DataOk(d) && tx.op == Transfer(org, recipient) && tx.source != recipient
    ensures Validates(d, tx) <==>
            && org in d.creators && d.creators[org] == tx.source && recipient in OwnersOf(d, org)
            && var e := d.(creators := d.creators[org := recipient]);
               FitsOrganizations(e, recipient) && FitsChecks(e, recipient)
  {
    if org in d.creators && d.creators[org] == tx.source && recipient in OwnersOf(d, org) {
      assert (org, recipient) in d.members && recipient in d.accounts;
      TransferAdds(d, org, recipient);
    }
  }

  lemma TransferAdds(d: Data, org: nat, recipient: nat)
    requires org in d.creators && d.creators[org] != recipient
    ensures var e := d.(creators := d.creators[org := recipient]);
            && |OrganizationsOf(e, recipient)| == |OrganizationsOf(d, recipient)| + 1
            && |ChecksOf(e, recipient)| == |ChecksOf(d, recipient)| + |ChecksIn(d, org)|
  {
    var e := d.(creators := d.creators[org := recipient]);
    assert OrganizationsOf(e, recipient) == OrganizationsOf(d, recipient) + {org};
    assert ChecksOf(e, recipient) == ChecksOf(d, recipient) + ChecksIn(d, org);
    DisjointSizes(OrganizationsOf(d, recipient), {org});
    DisjointSizes(ChecksOf(d, recipient), ChecksIn(d, org));
  }

  /** Creating an organization is accepted exactly if the plan fits the result. */
  lemma OrganizationAcceptedIff(d: Data, tx: Tx, user: nat)
    requires RowsOk(d) && tx.op == CreateOrganization(user)
    ensures Validates(d, tx) <==>
            user in d.accounts && FitsOrganizations(d.(creators := d.creators[d.unused := user]), user)
  {
    var e := d.(creators := d.creators[d.unused := user]);
    assert d.unused !in d.creators && OrganizationsOf(e, user) == OrganizationsOf(d, user) + {d.unused};
    DisjointSizes(OrganizationsOf(d, user), {d.unused});
  }

  /** So is creating a check, if the creator is still the one seen. */
  lemma CheckAcceptedIff(d: Data, tx: Tx, org: nat)
    requires DataOk(d) && tx.op == CreateCheck(org)
    ensures Validates(d, tx) <==>
            && org in d.creators && d.creators[org] == tx.source
            && FitsChecks(d.(checks := d.checks[d.unused := org]), tx.source)
  {
    if org in d.creators && d.creators[org] == tx.source {
      OneMoreCheck(d, org);
    }
  }

  lemma OneMoreCheck(d: Data, org: nat)
    requires RowsOk(d) && org in d.creators
    ensures var user := d.creators[org];
            |ChecksOf(d.(checks := d.checks[d.unused := org]), user)| == |ChecksOf(d, user)| + 1
  {
    var user, e := d.creators[org], d.(checks := d.checks[d.unused := org]);
    assert d.unused !in d.checks && ChecksOf(e, user) == ChecksOf(d, user) + {d.unused};
    DisjointSizes(ChecksOf(d, user), {d.unused});
  }

  /** A move to another account is accepted exactly if that account's plan fits the result; within one, always. */
  lemma MoveAcceptedIff(d: Data, tx: Tx, check: nat, org: nat)
    requires DataOk(d) && tx.op == MoveCheck(check, org)
    ensures Validates(d, tx) <==>
            && check in d.checks && org in d.creators && d.checks[check] != org
            && d.creators[d.checks[check]] == tx.source && d.creators[org] == tx.destination
            && (tx.source == tx.destination || FitsChecks(d.(checks := d.checks[check := org]), tx.destination))
  {
    if check in d.checks && org in d.creators && d.creators[org] == tx.destination && d.checks[check] != org
       && d.creators[d.checks[check]] == tx.source && tx.source != tx.destination {
      var e := d.(checks := d.checks[check := org]);
      assert ChecksOf(e, tx.destination) == ChecksOf(d, tx.destination) + {check};
      DisjointSizes(ChecksOf(d, tx.destination), {check});
    }
  }

  /** A member other than the creator can be removed or given any role; the creator only keeps being an owner. */
  lemma MembershipAcceptedIff(d: Data, tx: Tx)
    requires DataOk(d)
    ensures tx.op.UpdateRole? ==>
              var m := (tx.op.org, tx.op.target);
              Validates(d, tx) <==> m in d.members && (tx.op.target == d.creators[tx.op.org] ==> tx.op.role == OWNER)
    ensures tx.op.RemoveMember? ==>
              var m := (tx.op.org, tx.op.target);
              Validates(d, tx) <==> m in d.members && tx.op.target != d.creators[tx.op.org]
  {
    if (tx.op.UpdateRole? || tx.op.RemoveMember?) && (tx.op.org, tx.op.target) in d.members {
      var org, target := tx.op.org, tx.op.target;
      var creator := d.creators[org];
      assert (org, creator) in d.members && creator in OwnersOf(d, org);
      if target != creator && d.members[(org, target)] == OWNER {
        assert {creator, target} <= OwnersOf(d, org) by { assert (org, target) in d.members; }
        SubsetSize({creator, target}, OwnersOf(d, org));
      }
    }
  }

  /** A user can be deleted exactly without organizations of his own, so that none is left without its creator. */
  lemma DeletionAcceptedIff(d: Data, tx: Tx)
    requires tx.op.DeleteUser?
    ensures Validates(d, tx) <==>
            tx.op.user in d.accounts && forall org :: org in d.creators ==> d.creators[org] != tx.op.user
  {
    if tx.op.user in d.accounts {
      if org :| org in d.creators && d.creators[org] == tx.op.user {
        assert org in OrganizationsOf(d, tx.op.user);
      }
    }
  }

  /** An organization or a check goes exactly if it is still there under the creator that was seen. */
  lemma RemovalAcceptedIff(d: Data, tx: Tx)
    ensures tx.op.RemoveOrganization? ==>
              (Validates(d, tx) <==> tx.op.org in d.creators && d.creators[tx.op.org] == tx.source)
    ensures tx.op.DeleteCheck? ==>
              (Validates(d, tx) <==>
               tx.op.check in d.checks && d.checks[tx.op.check] in d.creators
               && d.creators[d.checks[tx.op.check]] == tx.source)
    ensures tx.op.SetLimits? ==> (Validates(d, tx) <==> tx.op.user in d.accounts)
  {
  }

  /** A page is written exactly if its project is still the one seen and its list names live checks of it, each once. */
  lemma PageAcceptedIff(d: Data, tx: Tx)
    ensures tx.op.CreatePage? ==>
              (Validates(d, tx) <==>
               tx.op.org in d.creators && Distinct(tx.op.listed)
               && forall c :: c in tx.op.listed ==> c in d.checks && d.checks[c] == tx.op.org)
    ensures tx.op.UpdatePage? ==>
              (Validates(d, tx) <==>
               tx.op.page in d.pages && d.pages[tx.op.page].org == tx.source && Distinct(tx.op.listed)
               && forall c :: c in tx.op.listed ==> c in d.checks && d.checks[c] == tx.source)
  {
    if tx.op.CreatePage? {
      CountMeansAll(d, tx.op.org, tx.op.listed);
    } else if tx.op.UpdatePage? {
      CountMeansAll(d, tx.source, tx.op.listed);
    }
  }

  /** Whatever would be accepted can begin. */
  lemma AcceptedCanBegin(d: Data, tx: Tx)
    requires DataOk(d) && Validates(d, tx) && (tx.op.Transfer? ==> tx.op.recipient != tx.source)
    ensures CanBegin(d, tx.op)
  {
  }

  // ----- A transaction alone succeeds -----

  ghost predicate Reaches(s: State, s': State) { exists steps :: Legal(s, steps) && After(s, steps) == s' }

  lemma {:induction false} LegalThen(s: State, steps: seq<Step>, step: Step)
    requires Legal(s, steps) && Enabled(After(s, steps), step)
    ensures Legal(s, steps + [step]) && After(s, steps + [step]) == Apply(After(s, steps), step)
    decreases |steps|
  {
    if steps == [] {
      assert Legal(Apply(s, step), []);
      assert (steps + [step])[1..] == [];
    } else {
      LegalThen(Apply(s, steps[0]), steps[1..], step);
      assert (steps + [step])[1..] == steps[1..] + [step];
    }
  }

  lemma Go(s: State, s': State, step: Step) returns (next: State)
    requires Reaches(s, s') && Enabled(s', step)
    ensures Reaches(s, next) && next == Apply(s', step)
  {
    var steps :| Legal(s, steps) && After(s, steps) == s';
    LegalThen(s, steps, step);
    next := Apply(s', step);
  }

  /** Takes the account locks still missing, in increasing order. */
  lemma {:induction false} LocksTaken(s: State, s': State, t: nat) returns (next: State)
    requires Reaches(s, s') && s'.txs.Keys == {t} && s'.txs[t].stage == LOCKING
    requires s'.txs[t].accounts <= AccountsNeeded(s'.txs[t])
    requires forall a, b :: a in AccountsNeeded(s'.txs[t]) && b in s'.txs[t].accounts && a < b ==>
               a in s'.txs[t].accounts
    ensures Reaches(s, next) && next == s'.(txs := map[t := s'.txs[t].(accounts := AccountsNeeded(s'.txs[t]))])
    decreases AccountsNeeded(s'.txs[t]) - s'.txs[t].accounts
  {
    var missing := AccountsNeeded(s'.txs[t]) - s'.txs[t].accounts;
    if missing == {} {
      forall a | a in AccountsNeeded(s'.txs[t]) ensures a in s'.txs[t].accounts {
        assert a !in missing;
      }
      assert s'.txs[t].accounts == AccountsNeeded(s'.txs[t]);
      assert s'.txs == map[t := s'.txs[t]];
      next := s';
    } else {
      var least := Least(missing);
      assert forall u :: u in s'.txs ==> u == t;
      assert forall a :: a in AccountsNeeded(s'.txs[t]) && a < least ==> a !in missing;
      next := Go(s, s', LockAccount(t, least));
      next := LocksTaken(s, next, t);
    }
  }

  lemma {:induction false} Least(a: set<nat>) returns (least: nat)
    requires a != {}
    ensures least in a && forall x :: x in a ==> least <= x
  {
    var x :| x in a;
    if a == {x} {
      least := x;
    } else {
      assert a != {x} && a == {x} + (a - {x});
      var rest := Least(a - {x});
      least := if x < rest then x else rest;
      assert forall y :: y in a ==> y == x || y in a - {x};
    }
  }

  /** What a transaction knows once it has read and taken its locks. */
  function Prepared(d: Data, op: Operation): Tx
    requires CanBegin(d, op)
  {
    var tx := Tx(op, LOCKING, SourceSeen(d, op), DestinationSeen(d, op), {}, {}, None, None);
    WithLocks(d, tx.(accounts := AccountsNeeded(tx)))
  }

  lemma AloneItLocks(s: State, t: nat, op: Operation) returns (u: State)
    requires s.txs == map[] && CanBegin(s.data, op)
    ensures Reaches(s, u) && u == State(s.data, map[t := Prepared(s.data, op)])
  {
    assert Legal(s, []) && After(s, []) == s;
    u := Go(s, s, Begin(t, op));
    u := LocksTaken(s, u, t);
    u := Go(s, u, LockRows(t));
  }

  /** Any operation whose transaction runs alone and passes its checks comes to its commit. */
  lemma AloneItCommits(s: State, t: nat, op: Operation) returns (u: State)
    requires Inv(s) && s.txs == map[] && CanBegin(s.data, op) && Validates(s.data, Prepared(s.data, op))
    ensures Reaches(s, u) && u.data == s.data && u.txs.Keys == {t} && u.txs[t].op == op && Enabled(u, Commit(t))
  {
    u := AloneItLocks(s, t, op);
    u := Go(s, u, Validate(t));
    if op.MoveCheck? {
      u := Go(s, u, LockProject(t));
    }
    AloneItCanWrite(u, t);
  }

  lemma AloneItCanWrite(u: State, t: nat)
    requires RowsOk(u.data) && u.txs.Keys == {t} && Validates(u.data, u.txs[t])
    requires u.txs[t].op.MoveCheck? && u.txs[t].op.check in u.data.checks ==>
               u.txs[t].project == Some(u.data.checks[u.txs[t].op.check])
    ensures CanWrite(u, t)
  {
  }
}
