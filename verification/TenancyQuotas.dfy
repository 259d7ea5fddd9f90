/** Account quotas over whole runs: only a plan or limits change can break one. */
module TenancyQuotas {
  import opened Options
  import opened Sets
  import opened TenancyModel
  import opened TenancyInvariant
  import opened TenancyWrites
  import opened TenancySafety

  predicate WithinChecks(d: Data, user: nat) {
    user in d.accounts ==> |ChecksOf(d, user)| <= MaxChecks(d.accounts[user])
  }

  predicate WithinOrganizations(d: Data, user: nat) {
    user in d.accounts && d.accounts[user].tier == SOLO ==> |OrganizationsOf(d, user)| <= SOLO_ORGANIZATION_LIMIT
  }

  predicate WithinQuotas(d: Data, user: nat) { WithinChecks(d, user) && WithinOrganizations(d, user) }

  predicate ChangesLimits(s: State, step: Step, user: nat) {
    step.Commit? && step.t in s.txs && s.txs[step.t].op.SetLimits? && s.txs[step.t].op.user == user
  }

  // ----- One commit -----

  lemma UnlockedAccountStays(d: Data, tx: Tx, kept: set<nat>, user: nat)
    requires MayWrite(d, tx, kept) && user !in tx.accounts && WithinQuotas(d, user)
    ensures WithinQuotas(Write(d, tx), user)
  {
    var e := Write(d, tx);
    WriteFramed(d, tx, kept);
    WritesAddNoAccount(d, tx);
    if user in e.accounts {
      FrameKeepsOrganizations(d, e, tx.accounts, RowLockedBy(tx), tx.project, kept, user);
      FrameKeepsCounts(d, e, tx.accounts, RowLockedBy(tx), tx.project, kept, user);
    }
  }

  lemma WritesAddNoAccount(d: Data, tx: Tx)
    requires StillValid(d, tx)
    ensures Write(d, tx).accounts.Keys <= d.accounts.Keys
  {
  }

  lemma CreationStays(d: Data, tx: Tx, user: nat)
    requires RowsOk(d) && StillValid(d, tx) && tx.op.CreateOrganization? && user == tx.op.user && WithinChecks(d, user)
    ensures WithinQuotas(Write(d, tx), user)
  {
    var e := Write(d, tx);
    assert d.unused !in d.creators && e.creators == d.creators[d.unused := user] && e.checks == d.checks;
    forall c | c in d.checks ensures c in ChecksOf(e, user) <==> c in ChecksOf(d, user) {
      assert d.checks[c] != d.unused;
    }
    assert ChecksOf(e, user) == ChecksOf(d, user);
    assert OrganizationsOf(e, user) == OrganizationsOf(d, user) + {d.unused};
  }

  lemma TransferStays(d: Data, tx: Tx, user: nat)
    requires StillValid(d, tx) && tx.op.Transfer? && (user == tx.source || user == tx.op.recipient)
             && WithinQuotas(d, user)
    ensures WithinQuotas(Write(d, tx), user)
  {
    var e := Write(d, tx);
    if user == tx.op.recipient {
      var before, moved := ChecksOf(d, user), ChecksIn(d, tx.op.org);
      assert ChecksOf(e, user) <= before + moved;
      SubsetSize(ChecksOf(e, user), before + moved);
      assert OrganizationsOf(e, user) == OrganizationsOf(d, user) + {tx.op.org};
    } else {
      SubsetSize(ChecksOf(e, user), ChecksOf(d, user));
      SubsetSize(OrganizationsOf(e, user), OrganizationsOf(d, user));
    }
  }

  lemma RemovalStays(d: Data, tx: Tx, user: nat)
    requires (tx.op.RemoveOrganization? || tx.op.DeleteCheck?) && WithinQuotas(d, user)
    ensures WithinQuotas(Write(d, tx), user)
  {
    var e := Write(d, tx);
    assert ChecksOf(e, user) <= ChecksOf(d, user) && OrganizationsOf(e, user) <= OrganizationsOf(d, user);
    SubsetSize(ChecksOf(e, user), ChecksOf(d, user));
    SubsetSize(OrganizationsOf(e, user), OrganizationsOf(d, user));
  }

  lemma CheckCreationStays(d: Data, tx: Tx, user: nat)
    requires RowsOk(d) && StillValid(d, tx) && tx.op.CreateCheck? && user == tx.source && WithinQuotas(d, user)
    ensures WithinQuotas(Write(d, tx), user)
  {
    var e := Write(d, tx);
    assert ChecksOf(e, user) == ChecksOf(d, user) + {d.unused};
    assert OrganizationsOf(e, user) == OrganizationsOf(d, user);
  }

  lemma MoveStays(d: Data, tx: Tx, user: nat)
    requires StillValid(d, tx) && tx.op.MoveCheck? && (user == tx.source || user == tx.destination)
             && WithinQuotas(d, user)
    ensures WithinQuotas(Write(d, tx), user)
  {
    var e := Write(d, tx);
    assert OrganizationsOf(e, user) == OrganizationsOf(d, user);
    if tx.source == tx.destination {
      assert ChecksOf(e, user) == ChecksOf(d, user);
    } else if user == tx.destination {
      assert ChecksOf(e, user) == ChecksOf(d, user) + {tx.op.check};
    } else {
      assert ChecksOf(e, user) <= ChecksOf(d, user);
      SubsetSize(ChecksOf(e, user), ChecksOf(d, user));
    }
  }

  lemma WriteStays(d: Data, tx: Tx, kept: set<nat>, user: nat)
    requires MayWrite(d, tx, kept) && WithinQuotas(d, user) && !(tx.op.SetLimits? && tx.op.user == user)
    ensures WithinQuotas(Write(d, tx), user)
  {
    if user !in tx.accounts {
      UnlockedAccountStays(d, tx, kept, user);
    } else {
      match tx.op
      case CreateOrganization(_) => CreationStays(d, tx, user);
      case Transfer(_, _) => TransferStays(d, tx, user);
      case RemoveOrganization(_) => RemovalStays(d, tx, user);
      case DeleteCheck(_) => RemovalStays(d, tx, user);
      case CreateCheck(_) => CheckCreationStays(d, tx, user);
      case MoveCheck(_, _) => MoveStays(d, tx, user);
      case _ =>
    }
  }

  lemma UnlockedStepStays(s: State, step: Step, user: nat)
    requires Inv(s) && Enabled(s, step) && WithinQuotas(s.data, user)
    requires step.SignUp? || step.AdminDeleteCheck?
    ensures WithinQuotas(Apply(s, step).data, user)
  {
    var d, e := s.data, Apply(s, step).data;
    if step.SignUp? && user == d.unused {
      assert ChecksOf(e, user) == {};
      assert OrganizationsOf(e, user) == {d.unused + 1};
    } else if user in e.accounts {
      assert OrganizationsOf(e, user) == OrganizationsOf(d, user);
      assert ChecksOf(e, user) <= ChecksOf(d, user);
      SubsetSize(ChecksOf(e, user), ChecksOf(d, user));
    }
  }

  /** Every step but a change of the account's own plan or limits keeps its quotas. */
  lemma StepStays(s: State, step: Step, user: nat)
    requires Inv(s) && Enabled(s, step) && WithinQuotas(s.data, user) && !ChangesLimits(s, step, user)
    ensures WithinQuotas(Apply(s, step).data, user)
  {
    if step.Commit? {
      ReadyMayWrite(s, step.t);
      WriteStays(s.data, s.txs[step.t], KeptChecks(s, step.t), user);
    } else if step.SignUp? || step.AdminDeleteCheck? {
      UnlockedStepStays(s, step, user);
    } else {
      var d, e := s.data, Apply(s, step).data;
      assert e.checks == d.checks && e.creators == d.creators && e.accounts == d.accounts;
      assert ChecksOf(e, user) == ChecksOf(d, user) && OrganizationsOf(e, user) == OrganizationsOf(d, user);
    }
  }

  // ----- Runs -----

  /** No step of the run is a change of the account's plan or limits. */
  ghost predicate LimitsUntouched(s: State, steps: seq<Step>, user: nat)
    requires Legal(s, steps)
    decreases |steps|
  {
    steps != [] ==> !ChangesLimits(s, steps[0], user) && LimitsUntouched(Apply(s, steps[0]), steps[1..], user)
  }

  lemma {:induction false} RunStays(s: State, steps: seq<Step>, user: nat)
    requires Inv(s) && Legal(s, steps) && LimitsUntouched(s, steps, user) && WithinQuotas(s.data, user)
    ensures WithinQuotas(After(s, steps).data, user)
    decreases |steps|
  {
    if steps != [] {
      StepStays(s, steps[0], user);
      StepKeepsInv(s, steps[0]);
      RunStays(Apply(s, steps[0]), steps[1..], user);
    }
  }

  /**
   From any reachable state within quota, and so from the beginning, no interleaving of
   creations, moves, transfers, deletions and sign-ups takes an account over its limits.
   */
  lemma QuotasAreNeverExceeded(before: seq<Step>, later: seq<Step>, user: nat)
    requires Legal(EMPTY, before) && Legal(After(EMPTY, before), later)
    requires WithinQuotas(After(EMPTY, before).data, user) && LimitsUntouched(After(EMPTY, before), later, user)
    ensures WithinQuotas(After(After(EMPTY, before), later).data, user)
  {
    RunKeepsInv(EMPTY, before);
    RunStays(After(EMPTY, before), later, user);
  }

  /** A change of limits breaks the quota exactly when it sets it below what the account uses. */
  lemma LimitChangeBreaksIff(s: State, step: Step, user: nat)
    requires Inv(s) && Enabled(s, step) && ChangesLimits(s, step, user)
    ensures var account := s.txs[step.t].op.account;
            WithinQuotas(Apply(s, step).data, user) <==>
              && |ChecksOf(s.data, user)| <= MaxChecks(account)
              && (account.tier == SOLO ==> |OrganizationsOf(s.data, user)| <= SOLO_ORGANIZATION_LIMIT)
  {
    var d, e := s.data, Apply(s, step).data;
    assert ChecksOf(e, user) == ChecksOf(d, user) && OrganizationsOf(e, user) == OrganizationsOf(d, user);
  }

  // ----- Sorted account locks -----

  /** `t` waits for an account lock that `u` holds. */
  predicate WaitsFor(s: State, t: nat, u: nat, account: nat) {
    && t in s.txs && u in s.txs && s.txs[t].stage == LOCKING && s.txs[u].stage == LOCKING
    && account in AccountsNeeded(s.txs[t]) && account !in s.txs[t].accounts && account in s.txs[u].accounts
    && (forall a :: a in AccountsNeeded(s.txs[t]) && a < account ==> a in s.txs[t].accounts)
  }

  /** The accounts held are the smallest of those needed. */
  ghost predicate LocksInOrder(s: State) {
    forall t :: t in s.txs && s.txs[t].stage == LOCKING ==>
      && s.txs[t].accounts <= AccountsNeeded(s.txs[t])
      && forall a, b :: a in s.txs[t].accounts && b in AccountsNeeded(s.txs[t]) && b < a ==> b in s.txs[t].accounts
  }

  lemma StepKeepsOrder(s: State, step: Step)
    requires LocksInOrder(s) && Enabled(s, step)
    ensures LocksInOrder(Apply(s, step))
  {
  }

  lemma {:induction false} RunKeepsOrder(s: State, steps: seq<Step>)
    requires LocksInOrder(s) && Legal(s, steps)
    ensures LocksInOrder(After(s, steps))
    decreases |steps|
  {
    if steps != [] {
      StepKeepsOrder(s, steps[0]);
      RunKeepsOrder(Apply(s, steps[0]), steps[1..]);
    }
  }

  /** Along a chain of waiting transactions the awaited accounts increase ... */
  lemma {:induction false} WaitsIncrease(s: State, chain: seq<nat>, awaited: seq<nat>)
    requires LocksInOrder(s) && |chain| == |awaited| + 1 && 0 < |awaited|
    requires forall i :: 0 <= i < |awaited| ==> WaitsFor(s, chain[i], chain[i + 1], awaited[i])
    ensures awaited[0] <= awaited[|awaited| - 1]
    decreases |awaited|
  {
    if 1 < |awaited| {
      assert WaitsFor(s, chain[0], chain[1], awaited[0]) && WaitsFor(s, chain[1], chain[2], awaited[1]);
      forall i | 0 <= i < |awaited| - 1 ensures WaitsFor(s, chain[1..][i], chain[1..][i + 1], awaited[1..][i]) {
        assert WaitsFor(s, chain[i + 1], chain[i + 2], awaited[i + 1]);
      }
      WaitsIncrease(s, chain[1..], awaited[1..]);
    }
  }

  /** ... so account locks alone can never deadlock: no reachable state has a cycle of waits. */
  lemma AccountLocksNeverDeadlock(steps: seq<Step>, chain: seq<nat>, awaited: seq<nat>)
    requires Legal(EMPTY, steps) && |chain| == |awaited| + 1 && 0 < |awaited|
    requires forall i :: 0 <= i < |awaited| ==> WaitsFor(After(EMPTY, steps), chain[i], chain[i + 1], awaited[i])
    ensures chain[|awaited|] != chain[0]
  {
    RunKeepsOrder(EMPTY, steps);
    var s := After(EMPTY, steps);
    WaitsIncrease(s, chain, awaited);
    assert WaitsFor(s, chain[0], chain[1], awaited[0]);
    var last := |awaited| - 1;
    assert WaitsFor(s, chain[last], chain[last + 1], awaited[last]);
  }
}
