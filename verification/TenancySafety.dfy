/** The invariants of organizations, quotas and status pages, in every interleaving. */
module TenancySafety {
  import opened Options
  import opened Sets
  import opened TenancyModel
  import opened TenancyInvariant
  import opened TenancyWrites

  // ----- Commits -----

  /** A write by `t` leaves every other transaction as sound as it was. */
  lemma WriteKeepsOther(s: State, t: nat, u: nat)
    requires Ready(s, t) && u in s.txs && u != t
    ensures TxOk(Write(s.data, s.txs[t]), s.txs[u])
  {
    var tx, other := s.txs[t], s.txs[u];
    ReadyMayWrite(s, t);
    WriteFramed(s.data, tx, KeptChecks(s, t));
    assert !Excluded(tx, other);
    FrameKeepsTx(s.data, Write(s.data, tx), tx.accounts, RowLockedBy(tx), tx.project, KeptChecks(s, t), other);
  }

  lemma CommitKeepsInv(s: State, t: nat)
    requires Ready(s, t)
    ensures Inv(State(Write(s.data, s.txs[t]), s.txs - {t}))
  {
    ReadyMayWrite(s, t);
    WriteKeepsData(s.data, s.txs[t], KeptChecks(s, t));
    forall u | u in s.txs && u != t ensures TxOk(Write(s.data, s.txs[t]), s.txs[u]) {
      WriteKeepsOther(s, t, u);
    }
  }

  // ----- Steps outside transactions -----

  /** A step that holds no lock: it may add fresh rows, and memberships that are not owners. */
  lemma UnlockedWriteKeepsInv(s: State, e: Data)
    requires Inv(s) && DataOk(e)
    requires Frame(s.data, e, {}, {}, None, set u | u in s.txs && s.txs[u].check.Some? :: s.txs[u].check.value)
    ensures Inv(State(e, s.txs))
  {
    var kept := set u | u in s.txs && s.txs[u].check.Some? :: s.txs[u].check.value;
    forall u | u in s.txs ensures TxOk(e, s.txs[u]) {
      FrameKeepsTx(s.data, e, {}, {}, None, kept, s.txs[u]);
    }
  }

  lemma SignUpIsSound(d: Data, kept: set<nat>)
    requires DataOk(d)
    ensures DataOk(SignedUp(d)) && Frame(d, SignedUp(d), {}, {}, None, kept)
  {
    SignUpKeepsData(d);
    SignUpIsFramed(d, kept);
  }

  lemma SignUpKeepsData(d: Data)
    requires DataOk(d)
    ensures DataOk(SignedUp(d))
  {
  }

  lemma SignUpIsFramed(d: Data, kept: set<nat>)
    requires DataOk(d)
    ensures Frame(d, SignedUp(d), {}, {}, None, kept)
  {
  }

  lemma AcceptIsSound(d: Data, org: nat, user: nat, role: Role, kept: set<nat>)
    requires DataOk(d) && role != OWNER && org in d.creators && user in d.accounts && (org, user) !in d.members
    ensures var e := d.(members := d.members[(org, user) := role]); DataOk(e) && Frame(d, e, {}, {}, None, kept)
  {
  }

  lemma CheckDeletionIsSound(d: Data, check: nat, kept: set<nat>)
    requires DataOk(d) && check in d.checks && check !in kept
    ensures var e := d.(checks := d.checks - {check}); DataOk(e) && Frame(d, e, {}, {}, None, kept)
  {
    var e := d.(checks := d.checks - {check});
    assert forall c :: c in e.checks <==> c in d.checks && c != check;
    assert forall c :: c in e.checks ==> e.checks[c] == d.checks[c];
  }

  lemma PageDeletionIsSound(s: State, step: Step, kept: set<nat>)
    requires DataOk(s.data) && Enabled(s, step) && step.DeletePage?
    ensures var e := Apply(s, step).data; DataOk(e) && Frame(s.data, e, {}, {}, None, kept)
  {
  }

  lemma UnlockedStepKeepsInv(s: State, step: Step)
    requires Inv(s) && Enabled(s, step)
    requires step.SignUp? || step.Accept? || step.AdminDeleteCheck? || step.DeletePage?
    ensures Inv(Apply(s, step))
  {
    var kept := set u | u in s.txs && s.txs[u].check.Some? :: s.txs[u].check.value;
    if step.SignUp? {
      SignUpIsSound(s.data, kept);
    } else if step.Accept? {
      AcceptIsSound(s.data, step.org, step.user, step.role, kept);
    } else if step.AdminDeleteCheck? {
      CheckDeletionIsSound(s.data, step.check, kept);
    } else {
      PageDeletionIsSound(s, step, kept);
    }
    UnlockedWriteKeepsInv(s, Apply(s, step).data);
  }

  // ----- Steps of a transaction before it writes -----

  lemma BeginKeepsInv(s: State, step: Step)
    requires Inv(s) && Enabled(s, step) && step.Begin?
    ensures Inv(Apply(s, step))
  {
  }

  /** Only the transaction `t` changes, to one that excludes no other. */
  lemma MovedTxKeepsInv(s: State, t: nat, tx: Tx)
    requires Inv(s) && t in s.txs && TxOk(s.data, tx) && CompatibleWithOthers(s, t, tx)
    ensures Inv(s.(txs := s.txs[t := tx]))
  {
  }

  lemma FirstLockIsSound(d: Data, tx: Tx)
    requires DataOk(d) && TxOk(d, tx) && tx.stage == LOCKING && AccountsNeeded(tx) == tx.accounts
    ensures TxOk(d, WithLocks(d, tx))
  {
    var org := if LocksOwnerRows(tx.op) then tx.op.org else 0;
    if org in d.creators {
      assert (org, d.creators[org]) in d.members;
    }
  }

  lemma ListingIsSound(d: Data, org: nat, listed: seq<nat>)
    requires RowsOk(d) && AllInProject(d, org, listed)
    ensures ListsOnly(d, org, listed)
  {
    CountMeansAll(d, org, listed);
  }

  /**
   Comparing the number of rows found with the number asked for accepts exactly the lists without repetition
   whose checks are all in the project.
   */
  lemma CountMeansAll(d: Data, org: nat, listed: seq<nat>)
    ensures AllInProject(d, org, listed) <==>
              && (forall c :: c in listed ==> c in d.checks && d.checks[c] == org)
              && Distinct(listed)
  {
    var all, found := Members(listed), FoundInProject(d, org, listed);
    DistinctCount(listed);
    assert found <= all;
    SubsetSize(found, all);
    if AllInProject(d, org, listed) {
      SameSize(found, all);
      assert forall c :: c in listed ==> c in all;
    } else if forall c :: c in listed ==> c in d.checks && d.checks[c] == org {
      assert found == all;
    }
  }

  predicate Distinct(s: seq<nat>) { forall i, j :: 0 <= i < j < |s| ==> s[i] != s[j] }

  lemma DistinctTail(s: seq<nat>)
    requires s != []
    ensures Distinct(s) <==> s[0] !in s[1..] && Distinct(s[1..])
  {
    var rest := s[1..];
    if Distinct(s) {
      forall i, j | 0 <= i < j < |rest| ensures rest[i] != rest[j] {
        assert s[i + 1] == rest[i] && s[j + 1] == rest[j];
      }
    }
    if s[0] !in rest && Distinct(rest) {
      forall i, j | 0 <= i < j < |s| ensures s[i] != s[j] {
        assert s[j] == rest[j - 1] && (i > 0 ==> s[i] == rest[i - 1]);
      }
    }
  }

  function Members(s: seq<nat>): set<nat> { set c | c in s }

  lemma {:induction false} DistinctCount(s: seq<nat>)
    ensures |Members(s)| <= |s|
    ensures |Members(s)| == |s| <==> Distinct(s)
  {
    if s != [] {
      var first, tail := s[0], Members(s[1..]);
      DistinctCount(s[1..]);
      DistinctTail(s);
      assert Members(s) == {first} + tail;
      if first in tail {
        assert Members(s) == tail;
      }
    }
  }

  lemma ValidationIsSound(d: Data, tx: Tx)
    requires DataOk(d) && TxOk(d, tx) && tx.stage == LOCKED && Validates(d, tx)
    ensures StillValid(d, tx)
  {
    match tx.op
    case CreatePage(org, listed) => ListingIsSound(d, org, listed);
    case UpdatePage(_, listed) => ListingIsSound(d, tx.source, listed);
    case Transfer(org, recipient) => assert recipient in OwnersOf(d, org) by { assert (org, recipient) in d.members; }
    case _ =>
  }

  lemma TransactionStepKeepsInv(s: State, step: Step)
    requires Inv(s) && Enabled(s, step)
    requires step.LockAccount? || step.LockRows? || step.Validate? || step.LockProject?
    ensures Inv(Apply(s, step))
  {
    var d, tx := s.data, s.txs[step.t];
    var moved := Apply(s, step).txs[step.t];
    if step.LockRows? {
      FirstLockIsSound(d, tx);
    } else if step.Validate? {
      ValidationIsSound(d, tx);
    }
    MovedTxKeepsInv(s, step.t, moved);
  }

  lemma StepKeepsInv(s: State, step: Step)
    requires Inv(s) && Enabled(s, step)
    ensures Inv(Apply(s, step))
  {
    match step
    case Begin(_, _) => BeginKeepsInv(s, step);
    case Commit(t) => CommitKeepsInv(s, t);
    case Abort(_) =>
    case LockAccount(_, _) => TransactionStepKeepsInv(s, step);
    case LockRows(_) => TransactionStepKeepsInv(s, step);
    case Validate(_) => TransactionStepKeepsInv(s, step);
    case LockProject(_) => TransactionStepKeepsInv(s, step);
    case _ => UnlockedStepKeepsInv(s, step);
  }

  lemma {:induction false} RunKeepsInv(s: State, steps: seq<Step>)
    requires Inv(s) && Legal(s, steps)
    ensures Inv(After(s, steps))
    decreases |steps|
  {
    if steps != [] {
      StepKeepsInv(s, steps[0]);
      RunKeepsInv(Apply(s, steps[0]), steps[1..]);
    }
  }

  // ----- Organizations and status pages -----

  /** In every interleaving every organization's creator is a user and one of its owners. */
  lemma EveryOrganizationHasItsCreatorAsOwner(steps: seq<Step>, org: nat)
    requires Legal(EMPTY, steps) && org in After(EMPTY, steps).data.creators
    ensures var d := After(EMPTY, steps).data;
            d.creators[org] in d.accounts && d.creators[org] in OwnersOf(d, org)
  {
    RunKeepsInv(EMPTY, steps);
    var d := After(EMPTY, steps).data;
    assert (org, d.creators[org]) in d.members;
  }

  /** The lock set of a transaction on an organization's owners is never empty, so two of them exclude each other. */
  lemma OwnerLocksExclude(steps: seq<Step>, t: nat, u: nat)
    requires Legal(EMPTY, steps) && t != u
    requires var s := After(EMPTY, steps);
             && t in s.txs && u in s.txs && LocksOwnerRows(s.txs[t].op) && LocksOwnerRows(s.txs[u].op)
             && s.txs[t].op.org == s.txs[u].op.org && s.txs[t].op.org in s.data.creators
    ensures var s := After(EMPTY, steps); s.txs[t].stage == LOCKING || s.txs[u].stage == LOCKING
  {
    RunKeepsInv(EMPTY, steps);
    var s := After(EMPTY, steps);
    assert !Excluded(s.txs[t], s.txs[u]);
  }

  /** No status page lists a live check of another project. */
  lemma PagesNeverListForeignChecks(steps: seq<Step>, p: nat, check: nat)
    requires Legal(EMPTY, steps)
    requires var d := After(EMPTY, steps).data; p in d.pages && check in d.pages[p].listed && check in d.checks
    ensures var d := After(EMPTY, steps).data; d.checks[check] == d.pages[p].org
  {
    RunKeepsInv(EMPTY, steps);
    var d := After(EMPTY, steps).data;
    assert ListsOnly(d, d.pages[p].org, d.pages[p].listed);
  }
}
