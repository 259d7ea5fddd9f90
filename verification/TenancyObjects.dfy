/**
 The writes of the tenancy transactions, statement by statement, and the account locks
 taken in a loop (api/src/organizations/organizations.service.ts,
 api/src/checks/checks.service.ts, api/src/status-pages/status-pages.service.ts,
 api/src/billing/account-entitlements.service.ts, api/src/billing/account-user-lock.ts).
 */
module TenancyObjects {
  import opened Options
  import opened TenancyModel
  import opened TenancyInvariant
  import opened TenancySafety

  // ----- Account locks -----

  predicate StrictlyIncreasing(s: seq<nat>) { forall i, j :: 0 <= i < j < |s| ==> s[i] < s[j] }

  /** Stands for the library sort of a set. */
  function InsertUnique(x: nat, s: seq<nat>): (r: seq<nat>)
    requires StrictlyIncreasing(s)
    ensures StrictlyIncreasing(r)
    ensures forall y :: y in r <==> y == x || y in s
  {
    if s == [] || x < s[0] then [x] + s
    else if x == s[0] then s
    else
      var rest := InsertUnique(x, s[1..]);
      assert s == [s[0]] + s[1..];
      assert forall i :: 0 <= i < |rest| ==> rest[i] in rest;
      [s[0]] + rest
  }

  function SortedUnique(ids: seq<nat>): (r: seq<nat>)
    ensures StrictlyIncreasing(r)
    ensures forall y :: y in r <==> y in ids
  {
    if ids == [] then [] else
      assert ids == [ids[0]] + ids[1..];
      InsertUnique(ids[0], SortedUnique(ids[1..]))
  }

  class AccountLocks {
    /** The transaction that holds each account's lock. */
    var holders: map<nat, nat>

    constructor ()
      ensures holders == map[]
    {
      holders := map[];
    }

    /** Locks every account of `userIds` for `tx`, each once and in increasing order, once nobody else holds them. */
    method LockUsers(tx: nat, userIds: seq<nat>) returns (taken: seq<nat>)
      requires forall u :: u in userIds && u in holders ==> holders[u] == tx
      modifies this
      ensures StrictlyIncreasing(taken) && forall u :: u in taken <==> u in userIds
      ensures forall u :: u in holders <==> u in old(holders) || u in userIds
      ensures forall u :: u in holders ==> holders[u] == if u in userIds then tx else old(holders)[u]
    {
      taken := SortedUnique(userIds);
      for i := 0 to |taken|
        invariant forall u :: u in holders <==> u in old(holders) || u in taken[..i]
        invariant forall u :: u in holders ==> holders[u] == if u in taken[..i] then tx else old(holders)[u]
      {
        assert taken[..i + 1] == taken[..i] + [taken[i]];
        holders := holders[taken[i] := tx];
      }
      assert taken[..|taken|] == taken;
    }
  }

  // ----- Rows -----

  /** A transaction about to perform `op`. */
  function Acting(op: Operation): Tx { Tx(op, VALIDATED, 0, 0, {}, {}, None, None) }

  class TenancyRows {
    var accounts: map<nat, Account>
    var creators: map<nat, nat>
    var members: map<(nat, nat), Role>
    var checks: map<nat, nat>
    var pages: map<nat, Page>
    var unused: nat

    constructor ()
      ensures View() == EMPTY.data
    {
      accounts, creators, members, checks, pages, unused := map[], map[], map[], map[], map[], 0;
    }

    ghost function View(): Data
      reads this
    {
      Data(accounts, creators, members, checks, pages, unused)
    }

    /** The organization, its creator's membership and its project are inserted together. */
    method CreateOrganization(user: nat) returns (org: nat)
      modifies this
      ensures org == old(unused) && View() == Write(old(View()), Acting(TenancyModel.CreateOrganization(user)))
      ensures creators == old(creators)[org := user] && members == old(members)[(org, user) := OWNER]
      ensures accounts == old(accounts) && checks == old(checks) && pages == old(pages)
    {
      org := unused;
      creators := creators[org := user];
      members := members[(org, user) := OWNER];
      unused := unused + 1;
    }

    method TransferCreatorship(org: nat, recipient: nat)
      modifies this`creators
      ensures View() == Write(old(View()), Acting(Transfer(org, recipient)))
      ensures org in creators && creators[org] == recipient
      ensures forall o :: o != org ==> (o in creators <==> o in old(creators))
      ensures forall o :: o in old(creators) && o != org ==> creators[o] == old(creators)[o]
    {
      creators := creators[org := recipient];
    }

    /**
     `createWithinAccountQuota` once the creator is stable: it inserts a check if and only if the account has
     room.
     */
    method CreateWithinAccountQuota(org: nat) returns (check: Option<nat>)
      requires RowsOk(View()) && org in creators && creators[org] in accounts
      modifies this
      ensures check.Some? <==> MayAddChecks(old(View()), old(creators)[org], 1)
      ensures View() == if check.Some? then Write(old(View()), Acting(CreateCheck(org))) else old(View())
      ensures check.Some? ==> |ChecksOf(View(), creators[org])| <= MaxChecks(accounts[creators[org]])
      ensures check.Some? ==> check.value !in old(checks) && checks == old(checks)[check.value := org]
      ensures accounts == old(accounts) && creators == old(creators) && members == old(members) && pages == old(pages)
    {
      var owner := creators[org];
      var mine := set c | c in checks && checks[c] in creators && creators[checks[c]] == owner;
      assert mine == ChecksOf(View(), owner);
      if |mine| >= MaxChecks(accounts[owner]) {
        return None;
      }
      check := Some(unused);
      ghost var before := ChecksOf(View(), owner);
      checks := checks[unused := org];
      unused := unused + 1;
      assert ChecksOf(View(), owner) == before + {check.value};
    }

    /** `removeCheckFromSourceStatusPages` and the update of the check's project. */
    method MoveCheck(check: nat, org: nat, sourcePages: seq<nat>)
      requires check in checks
      requires forall p :: p in sourcePages <==> p in pages && pages[p].org == checks[check]
      modifies this
      ensures View() == Write(old(View()), Acting(TenancyModel.MoveCheck(check, org)))
      ensures forall p :: p in pages && pages[p].org == old(checks)[check] ==> check !in pages[p].listed
      ensures checks == old(checks)[check := org] && pages.Keys == old(pages).Keys
      ensures forall p :: p in pages ==>
                && pages[p].org == old(pages)[p].org
                && (pages[p].org != old(checks)[check] ==> pages[p].listed == old(pages)[p].listed)
    {
      var source := checks[check];
      for i := 0 to |sourcePages|
        invariant pages.Keys == old(pages).Keys && checks == old(checks) && creators == old(creators)
        invariant members == old(members) && accounts == old(accounts) && unused == old(unused)
        invariant forall p :: p in pages ==>
                    pages[p] == if p in sourcePages[..i]
                                then old(pages)[p].(listed := WithoutCheck(old(pages)[p].listed, check))
                                else old(pages)[p]
      {
        var p := sourcePages[i];
        assert p in sourcePages;
        assert sourcePages[..i + 1] == sourcePages[..i] + [p];
        WithoutTwice(old(pages)[p].listed, check);
        pages := pages[p := pages[p].(listed := WithoutCheck(pages[p].listed, check))];
      }
      assert sourcePages[..|sourcePages|] == sourcePages;
      checks := checks[check := org];
      assert pages == Write(old(View()), Acting(TenancyModel.MoveCheck(check, org))).pages;
    }

    /** `assertChecksInProject`: the rows found are counted against the identifiers asked for. */
    method AssertChecksInProject(org: nat, listed: seq<nat>) returns (ok: bool)
      ensures ok <==> AllInProject(View(), org, listed)
      ensures ok <==> Distinct(listed) && forall c :: c in listed ==> c in checks && checks[c] == org
    {
      CountMeansAll(View(), org, listed);
      if |listed| == 0 {
        assert FoundInProject(View(), org, listed) == {};
        return true;
      }
      var found := set c | c in listed && c in checks && checks[c] == org;
      assert found == FoundInProject(View(), org, listed);
      ok := |found| == |listed|;
    }

    /** A page is created only with checks of its own project, each listed once. */
    method CreateStatusPage(org: nat, listed: seq<nat>) returns (page: Option<nat>)
      requires RowsOk(View())
      modifies this
      ensures page.Some? <==> org in old(creators) && AllInProject(old(View()), org, listed)
      ensures View() == if page.Some? then Write(old(View()), Acting(CreatePage(org, listed))) else old(View())
      ensures page.Some? ==> ListsOnly(View(), org, listed)
      ensures page.Some? ==> page.value !in old(pages) && pages == old(pages)[page.value := Page(org, listed)]
    {
      if org !in creators {
        return None;
      }
      var ok := AssertChecksInProject(org, listed);
      if !ok {
        return None;
      }
      page := Some(unused);
      pages := pages[unused := Page(org, listed)];
      unused := unused + 1;
    }
  }

  /** Taking a check off a list twice is taking it off once. */
  lemma {:induction false} WithoutTwice(listed: seq<nat>, check: nat)
    ensures WithoutCheck(WithoutCheck(listed, check), check) == WithoutCheck(listed, check)
  {
    if listed != [] {
      WithoutTwice(listed[1..], check);
      if listed[0] != check {
        var rest := WithoutCheck(listed[1..], check);
        assert ([listed[0]] + rest)[1..] == rest;
      }
    }
  }
}
