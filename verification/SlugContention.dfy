/**
 Slug creation by reading the taken slugs and then inserting, retried on a conflict
 (api/src/common/create-with-unique-slug.ts), with any number of concurrent creators.
 */
module SlugContention {
  import opened Options
  import opened Sets
  import opened Slugs

  const MAX_SLUG_CREATE_ATTEMPTS: nat := 20

  // ----- One creator, in place -----

  class SlugTable {
    var slugs: seq<string>

    constructor ()
      ensures slugs == []
    {
      slugs := [];
    }

    /** The unique constraint: an insert of a taken slug changes nothing. */
    method Insert(slug: string) returns (inserted: bool)
      modifies this
      ensures inserted <==> slug !in old(slugs)
      ensures slugs == if inserted then old(slugs) + [slug] else old(slugs)
    {
      inserted := slug !in slugs;
      if inserted {
        slugs := slugs + [slug];
      }
    }

    /** What other writers insert meanwhile. */
    method InsertOthers(others: seq<string>)
      modifies this
      ensures slugs == old(slugs) + others
    {
      slugs := slugs + others;
    }
  }

  /** Everything other writers inserted during the first `n` attempts. */
  function Inserted(others: seq<seq<string>>, n: nat): seq<string>
    requires n <= |others|
  {
    if n == 0 then [] else Inserted(others, n - 1) + others[n - 1]
  }

  /** During attempt `i`, others took the very slug this creator had chosen as free. */
  predicate LostRace(base: string, before: seq<string>, others: seq<seq<string>>, i: nat)
    requires i < |others|
  {
    ChosenAt(base, before, others, i) in others[i]
  }

  /** The first free name of the series when attempt `i` reads the table. */
  function ChosenAt(base: string, before: seq<string>, others: seq<seq<string>>, i: nat): string
    requires i <= |others|
  {
    var table := before + Inserted(others, i);
    UniqueSlug(base, set t | t in table)
  }

  /** Attempt `i`, the first that loses no race, inserted the name it chose after what others had inserted. */
  ghost predicate WonAt(
        base: string, before: seq<string>, others: seq<seq<string>>, i: nat, slug: string, after: seq<string>)
  {
    && i < |others| && slug == ChosenAt(base, before, others, i)
    && (forall j :: 0 <= j < i ==> LostRace(base, before, others, j))
    && slug !in before + Inserted(others, i + 1)
    && after == before + Inserted(others, i + 1) + [slug]
  }

  /**
   `others[i]` is what other writers insert between the read and the write of attempt
   `i`. The creator fails only when it loses the race in all twenty attempts.
   */
  method CreateWithUniqueSlug(
        table: SlugTable, base: string, others: seq<seq<string>>)
    returns (created: Option<string>)
    requires |others| == MAX_SLUG_CREATE_ATTEMPTS
    modifies table
    ensures created.None? <==>
            forall i :: 0 <= i < MAX_SLUG_CREATE_ATTEMPTS ==> LostRace(base, old(table.slugs), others, i)
    ensures created.None? ==> table.slugs == old(table.slugs) + Inserted(others, MAX_SLUG_CREATE_ATTEMPTS)
    ensures created.Some? ==>
              exists i: nat :: WonAt(base, old(table.slugs), others, i, created.value, table.slugs)
  {
    for attempt := 0 to MAX_SLUG_CREATE_ATTEMPTS
      invariant table.slugs == old(table.slugs) + Inserted(others, attempt)
      invariant forall i :: 0 <= i < attempt ==> LostRace(base, old(table.slugs), others, i)
    {
      var slug := FindUniqueSlug(base, table.slugs);
      table.InsertOthers(others[attempt]);
      assert table.slugs == old(table.slugs) + Inserted(others, attempt + 1);
      var inserted := table.Insert(slug);
      assert LostRace(base, old(table.slugs), others, attempt) <==> !inserted;
      if inserted {
        assert WonAt(base, old(table.slugs), others, attempt, slug, table.slugs);
        return Some(slug);
      }
    }
    created := None;
  }

  // ----- Many creators -----

  datatype Phase =
    | Reading(attempt: nat)
    | Writing(attempt: nat, slug: string, readAt: nat)
    | Created(slug: string)
    | Exhausted

  /** Positions of the insert log between a read and the failed write, and an insert by another writer among them. */
  datatype Window = Window(readAt: nat, wroteAt: nat, lostTo: nat)

  datatype Creator = Creator(base: string, phase: Phase, lost: seq<Window>)

  /** A successful insert; `author` is None for a writer outside the creators. */
  datatype Insertion = Insertion(author: Option<nat>, slug: string)

  datatype State = State(table: set<string>, log: seq<Insertion>, creators: seq<Creator>)

  datatype Step = Read(c: nat) | Write(c: nat) | OtherInsert(slug: string) | OtherDelete(slug: string)

  function Start(bases: seq<string>, table: set<string>): State {
    State(table, [], seq(|bases|, i requires 0 <= i < |bases| => Creator(bases[i], Reading(1), [])))
  }

  predicate Enabled(s: State, step: Step) {
    match step
    case Read(c) => c < |s.creators| && s.creators[c].phase.Reading?
    case Write(c) => c < |s.creators| && s.creators[c].phase.Writing?
    case OtherInsert(slug) => slug !in s.table
    case OtherDelete(slug) => slug in s.table
  }

  /** The earliest insert of `slug` at or after `from`, or the end of the log. */
  function InsertedSince(log: seq<Insertion>, from: nat, slug: string): (p: nat)
    requires from <= |log|
    ensures from <= p <= |log|
    ensures p < |log| ==> log[p].slug == slug
    ensures forall q :: from <= q < p ==> log[q].slug != slug
    decreases |log| - from
  {
    if from == |log| || log[from].slug == slug then from else InsertedSince(log, from + 1, slug)
  }

  function Apply(s: State, step: Step): State
    requires Enabled(s, step)
  {
    match step
    case Read(c) =>
      var k := s.creators[c];
      s.(creators := s.creators[c := k.(phase := Writing(k.phase.attempt, UniqueSlug(k.base, s.table), |s.log|))])
    case Write(c) =>
      var k := s.creators[c];
      var slug := k.phase.slug;
      if slug !in s.table then
        State(s.table + {slug}, s.log + [Insertion(Some(c), slug)], s.creators[c := k.(phase := Created(slug))])
      else
        var lostTo := if k.phase.readAt <= |s.log| then InsertedSince(s.log, k.phase.readAt, slug) else 0;
        var window := Window(k.phase.readAt, |s.log|, lostTo);
        var phase := if k.phase.attempt == MAX_SLUG_CREATE_ATTEMPTS then Exhausted else Reading(k.phase.attempt + 1);
        s.(creators := s.creators[c := k.(phase := phase, lost := k.lost + [window])])
    case OtherInsert(slug) => s.(table := s.table + {slug}, log := s.log + [Insertion(None, slug)])
    case OtherDelete(slug) => s.(table := s.table - {slug})
  }

  predicate Legal(s: State, steps: seq<Step>)
    decreases |steps|
  {
    steps == [] || (Enabled(s, steps[0]) && Legal(Apply(s, steps[0]), steps[1..]))
  }

  function Run(s: State, steps: seq<Step>): State
    requires Legal(s, steps)
    decreases |steps|
  {
    if steps == [] then s else Run(Apply(s, steps[0]), steps[1..])
  }

  /** Pairwise disjoint windows, each holding an insert by somebody else. */
  predicate LostWindows(c: nat, lost: seq<Window>, log: seq<Insertion>) {
    && (forall i :: 0 <= i < |lost| ==>
          lost[i].readAt <= lost[i].lostTo < lost[i].wroteAt <= |log| && log[lost[i].lostTo].author != Some(c))
    && (forall i, j :: 0 <= i < j < |lost| ==> lost[i].wroteAt <= lost[j].readAt)
  }

  /** What each creator's past amounts to. */
  predicate CreatorOk(s: State, c: nat)
    requires c < |s.creators|
  {
    var k := s.creators[c];
    && LostWindows(c, k.lost, s.log)
    && match k.phase
       case Reading(attempt) => 1 <= attempt <= MAX_SLUG_CREATE_ATTEMPTS && |k.lost| == attempt - 1
       case Writing(attempt, slug, readAt) =>
         && 1 <= attempt <= MAX_SLUG_CREATE_ATTEMPTS && |k.lost| == attempt - 1
         && readAt <= |s.log|
         && (forall i :: 0 <= i < |k.lost| ==> k.lost[i].wroteAt <= readAt)
         && (slug in s.table ==> InsertedSince(s.log, readAt, slug) < |s.log|)
       case Created(slug) => true
       case Exhausted => |k.lost| == MAX_SLUG_CREATE_ATTEMPTS
  }

  predicate DistinctAuthors(log: seq<Insertion>) {
    forall p, q :: 0 <= p < q < |log| && log[p].author.Some? ==> log[p].author != log[q].author
  }

  /** A creator inserts at most once, as its last act. */
  predicate LogOk(s: State) {
    && (forall p :: 0 <= p < |s.log| && s.log[p].author.Some? ==>
          s.log[p].author.value < |s.creators|
          && s.creators[s.log[p].author.value].phase == Created(s.log[p].slug))
    && DistinctAuthors(s.log)
  }

  predicate Inv(s: State) {
    LogOk(s) && forall c :: 0 <= c < |s.creators| ==> CreatorOk(s, c)
  }

  lemma {:induction false} InsertedSinceGrows(log: seq<Insertion>, more: Insertion, from: nat, slug: string)
    requires from <= |log|
    ensures InsertedSince(log, from, slug) < |log| ==>
            InsertedSince(log + [more], from, slug) == InsertedSince(log, from, slug)
    ensures more.slug == slug ==> InsertedSince(log + [more], from, slug) <= |log|
    decreases |log| - from
  {
    if from < |log| && log[from].slug != slug {
      InsertedSinceGrows(log, more, from + 1, slug);
    }
  }

  /** Somebody else's step adds at most one insertion to the log. */
  lemma OthersKeepCreatorOk(s: State, step: Step, c: nat)
    requires HasOkCreator(s, c) && Enabled(s, step) && (step.Read? || step.Write? ==> step.c != c)
    ensures HasOkCreator(Apply(s, step), c)
  {
    var s', k := Apply(s, step), s.creators[c];
    if s'.log != s.log && k.phase.Writing? {
      var more := s'.log[|s.log|];
      assert s'.log == s.log + [more];
      InsertedSinceGrows(s.log, more, k.phase.readAt, k.phase.slug);
    }
  }

  lemma OwnStepKeepsCreatorOk(s: State, step: Step, c: nat)
    requires Inv(s) && Enabled(s, step) && c < |s.creators| && (step.Read? || step.Write?) && step.c == c
    ensures HasOkCreator(Apply(s, step), c)
  {
    assert CreatorOk(s, c);
  }

  predicate HasOkCreator(s: State, c: nat) { c < |s.creators| && CreatorOk(s, c) }

  lemma CreatorOkKept(s: State, step: Step, c: nat)
    requires Inv(s) && Enabled(s, step) && c < |s.creators|
    ensures CreatorOk(Apply(s, step), c)
  {
    if (step.Read? || step.Write?) && step.c == c {
      OwnStepKeepsCreatorOk(s, step, c);
    } else {
      OthersKeepCreatorOk(s, step, c);
    }
  }

  lemma LogOkKept(s: State, step: Step)
    requires Inv(s) && Enabled(s, step)
    ensures LogOk(Apply(s, step))
  {
    var s' := Apply(s, step);
    if step.Write? && s.creators[step.c].phase.slug !in s.table {
      assert forall p :: 0 <= p < |s.log| ==> s.log[p].author != Some(step.c);
    }
  }

  lemma {:induction false} InvHolds(s: State, steps: seq<Step>)
    requires Inv(s) && Legal(s, steps)
    ensures Inv(Run(s, steps)) && |Run(s, steps).creators| == |s.creators|
    decreases |steps|
  {
    if steps != [] {
      forall c | 0 <= c < |s.creators| ensures CreatorOk(Apply(s, steps[0]), c) {
        CreatorOkKept(s, steps[0], c);
      }
      LogOkKept(s, steps[0]);
      InvHolds(Apply(s, steps[0]), steps[1..]);
    }
  }

  /**
   A creator ends exhausted only if at least twenty inserts by others landed in its
   pairwise disjoint read-to-write windows, in any interleaving with any other writers.
   */
  lemma ExhaustionNeedsTwentyForeignInserts(bases: seq<string>, table: set<string>, steps: seq<Step>, c: nat)
    requires Legal(Start(bases, table), steps) && c < |bases|
    ensures var s := Run(Start(bases, table), steps);
            c < |s.creators| && (s.creators[c].phase.Exhausted? ==>
              |s.creators[c].lost| == MAX_SLUG_CREATE_ATTEMPTS && LostWindows(c, s.creators[c].lost, s.log))
  {
    InvHolds(Start(bases, table), steps);
    assert CreatorOk(Run(Start(bases, table), steps), c);
  }

  // ----- Only the creators write -----

  predicate OnlyCreators(steps: seq<Step>) {
    forall i :: 0 <= i < |steps| ==> steps[i].Read? || steps[i].Write?
  }

  /** Without other writers, the log is what the creators inserted and the table keeps it. */
  predicate Closed(s: State) {
    && (forall p :: 0 <= p < |s.log| ==> s.log[p].author.Some? && s.log[p].slug in s.table)
    && (forall p, q :: 0 <= p < q < |s.log| ==> s.log[p].slug != s.log[q].slug)
    && (forall c :: 0 <= c < |s.creators| ==> Logged(s, c))
  }

  /** Reads and writes left to a creator before it stops. */
  function Left(phase: Phase): nat {
    match phase
    case Reading(attempt) =>
      if attempt <= MAX_SLUG_CREATE_ATTEMPTS then 2 * (MAX_SLUG_CREATE_ATTEMPTS - attempt) + 2 else 0
    case Writing(attempt, _, _) =>
      if attempt <= MAX_SLUG_CREATE_ATTEMPTS then 2 * (MAX_SLUG_CREATE_ATTEMPTS - attempt) + 1 else 0
    case Created(_) => 0
    case Exhausted => 0
  }

  function TotalLeft(creators: seq<Creator>): nat {
    if creators == [] then 0 else TotalLeft(creators[..|creators| - 1]) + Left(creators[|creators| - 1].phase)
  }

  lemma {:induction false} TotalLeftUpdate(creators: seq<Creator>, c: nat, k: Creator)
    requires c < |creators|
    ensures TotalLeft(creators[c := k]) == TotalLeft(creators) - Left(creators[c].phase) + Left(k.phase)
    decreases creators
  {
    var n := |creators| - 1;
    if c < n {
      TotalLeftUpdate(creators[..n], c, k);
      assert creators[c := k][..n] == creators[..n][c := k];
    } else {
      assert creators[c := k][..n] == creators[..n];
    }
  }

  lemma {:induction false} TotalLeftAtStart(bases: seq<string>, table: set<string>)
    ensures TotalLeft(Start(bases, table).creators) == 2 * MAX_SLUG_CREATE_ATTEMPTS * |bases|
  {
    if bases != [] {
      var n := |bases| - 1;
      TotalLeftAtStart(bases[..n], table);
      assert Start(bases, table).creators[..n] == Start(bases[..n], table).creators;
    }
  }

  /** Each created slug is in the log under its creator's name. */
  predicate Logged(s: State, c: nat)
    requires c < |s.creators|
  {
    s.creators[c].phase.Created? ==> Insertion(Some(c), s.creators[c].phase.slug) in s.log
  }

  lemma StepsRunOut(s: State, step: Step)
    requires Inv(s) && Enabled(s, step) && (step.Read? || step.Write?)
    ensures TotalLeft(Apply(s, step).creators) < TotalLeft(s.creators)
  {
    assert CreatorOk(s, step.c);
    TotalLeftUpdate(s.creators, step.c, Apply(s, step).creators[step.c]);
  }

  lemma ClosedKept(s: State, step: Step)
    requires Inv(s) && Closed(s) && Enabled(s, step) && (step.Read? || step.Write?)
    ensures Closed(Apply(s, step))
  {
    var s' := Apply(s, step);
    forall c | 0 <= c < |s'.creators| ensures Logged(s', c) {
      assert Logged(s, c);
      if s'.log != s.log {
        assert s'.log == s.log + [Insertion(Some(step.c), s.creators[step.c].phase.slug)];
        assert s'.log[|s.log|] in s'.log;
      }
    }
  }

  lemma {:induction false} ClosedHolds(s: State, steps: seq<Step>)
    requires Inv(s) && Closed(s) && Legal(s, steps) && OnlyCreators(steps)
    ensures Inv(Run(s, steps)) && Closed(Run(s, steps)) && |Run(s, steps).creators| == |s.creators|
    ensures |steps| + TotalLeft(Run(s, steps).creators) <= TotalLeft(s.creators)
    decreases |steps|
  {
    if steps != [] {
      assert [steps[0]] + steps[1..] == steps;
      InvHolds(s, [steps[0]]);
      assert Run(s, [steps[0]]) == Apply(s, steps[0]);
      ClosedKept(s, steps[0]);
      StepsRunOut(s, steps[0]);
      ClosedHolds(Apply(s, steps[0]), steps[1..]);
    }
  }

  /** The authors of the inserts a creator lost to. */
  ghost predicate Authored(lost: seq<Window>, log: seq<Insertion>) {
    forall i :: 0 <= i < |lost| ==> lost[i].lostTo < |log| && log[lost[i].lostTo].author.Some?
  }

  ghost function AuthorsLostTo(lost: seq<Window>, log: seq<Insertion>, n: nat): set<nat>
    requires n <= |lost| && Authored(lost, log)
  {
    if n == 0 then {} else AuthorsLostTo(lost, log, n - 1) + {log[lost[n - 1].lostTo].author.value}
  }

  lemma {:induction false} AuthorLostTo(lost: seq<Window>, log: seq<Insertion>, n: nat, a: nat) returns (i: nat)
    requires n <= |lost| && Authored(lost, log) && a in AuthorsLostTo(lost, log, n)
    ensures i < n && log[lost[i].lostTo].author == Some(a)
  {
    if a in AuthorsLostTo(lost, log, n - 1) {
      i := AuthorLostTo(lost, log, n - 1, a);
    } else {
      i := n - 1;
    }
  }

  lemma LostToDifferentAuthors(c: nat, lost: seq<Window>, log: seq<Insertion>, i: nat, j: nat)
    requires LostWindows(c, lost, log) && DistinctAuthors(log) && i < j < |lost|
    requires log[lost[i].lostTo].author.Some?
    ensures log[lost[i].lostTo].author != log[lost[j].lostTo].author
  {
    assert lost[i].lostTo < lost[i].wroteAt <= lost[j].readAt <= lost[j].lostTo;
  }

  lemma LastAuthorIsNew(c: nat, lost: seq<Window>, log: seq<Insertion>, n: nat)
    requires n < |lost| && LostWindows(c, lost, log) && DistinctAuthors(log) && Authored(lost, log)
    ensures log[lost[n].lostTo].author.value !in AuthorsLostTo(lost, log, n)
  {
    var a := log[lost[n].lostTo].author.value;
    if a in AuthorsLostTo(lost, log, n) {
      var i := AuthorLostTo(lost, log, n, a);
      LostToDifferentAuthors(c, lost, log, i, n);
    }
  }

  lemma {:induction false} AuthorsLostToCount(c: nat, lost: seq<Window>, log: seq<Insertion>, n: nat)
    requires n <= |lost| && LostWindows(c, lost, log) && DistinctAuthors(log) && Authored(lost, log)
    ensures |AuthorsLostTo(lost, log, n)| == n
  {
    if n > 0 {
      AuthorsLostToCount(c, lost, log, n - 1);
      LastAuthorIsNew(c, lost, log, n - 1);
    }
  }

  lemma {:induction false} Below(n: nat) returns (r: set<nat>)
    ensures (forall x: nat :: x in r <==> x < n) && |r| == n
  {
    if n == 0 {
      r := {};
    } else {
      var rest := Below(n - 1);
      r := rest + {n - 1};
    }
  }

  /** A creator can lose to each of the other creators at most once. */
  lemma LossesAreFewerThanCreators(s: State, c: nat)
    requires Inv(s) && Closed(s) && c < |s.creators|
    ensures |s.creators[c].lost| < |s.creators|
  {
    assert CreatorOk(s, c);
    var lost := s.creators[c].lost;
    var authors := AuthorsLostTo(lost, s.log, |lost|);
    AuthorsLostToCount(c, lost, s.log, |lost|);
    var all := Below(|s.creators|);
    forall a | a in authors ensures a in all - {c} {
      var i := AuthorLostTo(lost, s.log, |lost|, a);
    }
    SubsetSize(authors, all - {c});
  }

  ghost predicate AllCreatedDistinctly(s: State) {
    && (forall c :: 0 <= c < |s.creators| ==> s.creators[c].phase.Created?)
    && (forall c, d :: 0 <= c < d < |s.creators| ==> s.creators[c].phase != s.creators[d].phase)
  }

  ghost predicate Stuck(s: State) {
    forall c :: 0 <= c < |s.creators| ==> !Enabled(s, Read(c)) && !Enabled(s, Write(c))
  }

  /**
   Any batch of at most twenty creators with no other writers: no run leaves one of them
   exhausted, every run ends within forty steps per creator, and where it ends all of
   them have created distinct slugs.
   */
  lemma BatchOfTwentySucceeds(bases: seq<string>, table: set<string>, steps: seq<Step>)
    requires |bases| <= MAX_SLUG_CREATE_ATTEMPTS && OnlyCreators(steps) && Legal(Start(bases, table), steps)
    ensures var s := Run(Start(bases, table), steps);
            && |steps| <= 2 * MAX_SLUG_CREATE_ATTEMPTS * |bases|
            && (forall c :: 0 <= c < |s.creators| ==> !s.creators[c].phase.Exhausted?)
            && (Stuck(s) ==> AllCreatedDistinctly(s))
  {
    var s := Run(Start(bases, table), steps);
    ClosedHolds(Start(bases, table), steps);
    TotalLeftAtStart(bases, table);
    forall c | 0 <= c < |s.creators| ensures !s.creators[c].phase.Exhausted? {
      assert CreatorOk(s, c);
      LossesAreFewerThanCreators(s, c);
    }
    if Stuck(s) {
      forall c | 0 <= c < |s.creators| ensures s.creators[c].phase.Created? {
        assert !Enabled(s, Read(c)) && !Enabled(s, Write(c));
      }
      CreatedDistinctly(s);
    }
  }

  lemma CreatedDistinctly(s: State)
    requires Closed(s) && forall c :: 0 <= c < |s.creators| ==> s.creators[c].phase.Created?
    ensures AllCreatedDistinctly(s)
  {
    forall c, d | 0 <= c < d < |s.creators| ensures s.creators[c].phase != s.creators[d].phase {
      assert Logged(s, c) && Logged(s, d);
      var p :| 0 <= p < |s.log| && s.log[p] == Insertion(Some(c), s.creators[c].phase.slug);
      var q :| 0 <= q < |s.log| && s.log[q] == Insertion(Some(d), s.creators[d].phase.slug);
      assert p < q || q < p;
    }
  }

  // ----- The bound is exact -----

  lemma {:induction false} RunThen(s: State, steps: seq<Step>, step: Step)
    requires Legal(s, steps) && Enabled(Run(s, steps), step)
    ensures Legal(s, steps + [step]) && Run(s, steps + [step]) == Apply(Run(s, steps), step)
    decreases |steps|
  {
    if steps == [] {
      assert Legal(Apply(s, step), []);
      assert (steps + [step])[1..] == [];
    } else {
      RunThen(Apply(s, steps[0]), steps[1..], step);
      assert (steps + [step])[1..] == steps[1..] + [step];
    }
  }

  /** After `n` rounds the last creator has lost to each of the first `n`, one per round. */
  predicate LockstepState(s: State, base: string, k: nat, n: nat) {
    && |s.creators| == k + 1
    && s.creators[k].base == base
    && s.creators[k].phase == (if n < MAX_SLUG_CREATE_ATTEMPTS then Reading(n + 1) else Exhausted)
    && forall c :: n <= c < k ==> s.creators[c].base == base && s.creators[c].phase == Reading(1)
  }

  /** One round: both read the same free name, and the last creator writes second. */
  lemma LockstepRound(s: State, base: string, k: nat, n: nat)
    requires 0 < n <= MAX_SLUG_CREATE_ATTEMPTS <= k && LockstepState(s, base, k, n - 1)
    ensures Enabled(s, Read(k))
    ensures var s1 := Apply(s, Read(k));
            Enabled(s1, Read(n - 1))
            && var s2 := Apply(s1, Read(n - 1));
               Enabled(s2, Write(n - 1))
               && var s3 := Apply(s2, Write(n - 1));
                  Enabled(s3, Write(k)) && LockstepState(Apply(s3, Write(k)), base, k, n)
  {
  }

  lemma {:induction false} LockstepRounds(base: string, table: set<string>, k: nat, n: nat) returns (steps: seq<Step>)
    requires n <= MAX_SLUG_CREATE_ATTEMPTS <= k
    ensures var start := Start(seq(k + 1, _ => base), table);
            OnlyCreators(steps) && Legal(start, steps) && LockstepState(Run(start, steps), base, k, n)
  {
    var start := Start(seq(k + 1, _ => base), table);
    if n == 0 {
      steps := [];
    } else {
      var before := LockstepRounds(base, table, k, n - 1);
      LockstepRound(Run(start, before), base, k, n);
      RunThen(start, before, Read(k));
      RunThen(start, before + [Read(k)], Read(n - 1));
      RunThen(start, before + [Read(k)] + [Read(n - 1)], Write(n - 1));
      RunThen(start, before + [Read(k)] + [Read(n - 1)] + [Write(n - 1)], Write(k));
      steps := before + [Read(k)] + [Read(n - 1)] + [Write(n - 1)] + [Write(k)];
    }
  }

  /** Some run of a batch, without other writers, exhausts a creator. */
  ghost predicate CanExhaust(bases: seq<string>, table: set<string>) {
    exists steps, c: nat ::
      && OnlyCreators(steps) && Legal(Start(bases, table), steps)
      && c < |Run(Start(bases, table), steps).creators|
      && Run(Start(bases, table), steps).creators[c].phase.Exhausted?
  }

  /** Same-name batches: creation can fail exactly when the batch is larger than twenty. */
  lemma BatchCanFailIffLargerThanTwenty(base: string, table: set<string>, size: nat)
    ensures CanExhaust(seq(size, _ => base), table) <==> size > MAX_SLUG_CREATE_ATTEMPTS
  {
    var bases := seq(size, _ => base);
    if size > MAX_SLUG_CREATE_ATTEMPTS {
      var steps := LockstepRounds(base, table, size - 1, MAX_SLUG_CREATE_ATTEMPTS);
      assert Run(Start(bases, table), steps).creators[size - 1].phase.Exhausted?;
    } else if CanExhaust(bases, table) {
      var steps, c: nat :|
        && OnlyCreators(steps) && Legal(Start(bases, table), steps)
        && c < |Run(Start(bases, table), steps).creators|
        && Run(Start(bases, table), steps).creators[c].phase.Exhausted?;
      BatchOfTwentySucceeds(bases, table, steps);
      assert false;
    }
  }
}
