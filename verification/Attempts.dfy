/** Counting attempts (src/services/submissionQueue.js): attempts are bounded, a
    released one is not counted. What the lease of module Lease conserves. */
module Attempts {
  import opened Common
  import opened Lease

  // Claims minus releases is the row's attempt count, in every run.
  lemma {:induction false} ClaimsMinusReleases(cfg: Config, s: State, actions: seq<Action>)
    requires s.claims - s.releases == s.row.attempts
    ensures
      match Exec(cfg, s, actions)
      case None => true
      case Some(t) => t.claims - t.releases == t.row.attempts
    decreases |actions|
  {
    if actions != [] && Apply(cfg, s, actions[0]).Some? {
      ClaimsMinusReleases(cfg, Apply(cfg, s, actions[0]).value, actions[1..]);
    }
  }

  function EnteredCount(ledger: seq<Entry>): nat {
    if ledger == [] then 0
    else EnteredCount(ledger[..|ledger| - 1]) + (if ledger[|ledger| - 1].entered then 1 else 0)
  }

  // Unreleased claims carry distinct numbers, and the ledger of them is as long
  // as the row's attempt count; at most maxAttempts of them enter the pipeline.
  ghost predicate Counted(cfg: Config, s: State) {
    && s.claims - s.releases == s.row.attempts == |s.ledger|
    && (forall i, j :: 0 <= i < j < |s.ledger| ==> s.ledger[i].number != s.ledger[j].number)
    && EnteredCount(s.ledger) <= cfg.maxAttempts
  }

  // Since the last reset: the unreleased claims are numbered 1, 2, ..., attempts.
  ghost predicate Conserved(cfg: Config, s: State) {
    && s.claims - s.releases == s.row.attempts
    && |s.ledger| == s.row.attempts
    && (forall i :: 0 <= i < |s.ledger| ==> s.ledger[i].number == i + 1)
    && (forall i :: 0 <= i < |s.ledger| && s.ledger[i].entered ==> s.ledger[i].number <= cfg.maxAttempts)
  }

  // ------------------------------------------------------------------ safe runs

  ghost predicate LedgerInv(cfg: Config, s: State) {
    && Conserved(cfg, s)
    && (forall i :: 0 <= i < |s.ledger| ==> s.ledger[i].id < s.nextId)
    && (forall i, j :: 0 <= i < j < |s.ledger| ==> s.ledger[i].id != s.ledger[j].id)
    && (forall i :: 0 <= i < |s.ledger| && s.ledger[i].id in s.live ==> s.ledger[i].number == s.live[s.ledger[i].id].number)
    && (s.nextId > 0 && s.nextId - 1 in s.live && s.live[s.nextId - 1].releasedAt.None? ==>
          s.ledger != [] && s.ledger[|s.ledger| - 1].id == s.nextId - 1)
  }

  lemma WithoutLast(ledger: seq<Entry>, id: nat)
    requires ledger != [] && ledger[|ledger| - 1].id == id
    requires forall i :: 0 <= i < |ledger| - 1 ==> ledger[i].id != id
    ensures Without(ledger, id) == ledger[..|ledger| - 1]
  {
    if |ledger| > 1 {
      WithoutLast(ledger[1..], id);
      assert ledger[..|ledger| - 1] == [ledger[0]] + ledger[1..][..|ledger| - 2];
    }
  }

  lemma ClaimedLedger(cfg: Config, s: State)
    requires cfg.Valid() && LedgerInv(cfg, s) && Apply(cfg, s, Claim).Some?
    ensures
      var t, n := Apply(cfg, s, Claim).value, |s.ledger|;
      && |t.ledger| == n + 1 && t.ledger[n] == Entry(s.nextId, n + 1, s.now, false, false)
      && (forall i :: 0 <= i < n ==> t.ledger[i] == s.ledger[i])
  {
  }

  lemma ClaimKeepsLedger(cfg: Config, s: State)
    requires cfg.Valid() && LedgerInv(cfg, s) && WellFormed(s) && Apply(cfg, s, Claim).Some?
    ensures LedgerInv(cfg, Apply(cfg, s, Claim).value)
  {
    ClaimedLedger(cfg, s);
    var t, n := Apply(cfg, s, Claim).value, |s.ledger|;
    forall i, j | 0 <= i < j < |t.ledger| ensures t.ledger[i].id != t.ledger[j].id {
      assert t.ledger[i] == s.ledger[i];
    }
    forall i | 0 <= i < |t.ledger| && t.ledger[i].id in t.live ensures t.ledger[i].number == t.live[t.ledger[i].id].number {
      if i < n { assert s.ledger[i].id != s.nextId; }
    }
  }

  lemma OwnersEntryIsLast(cfg: Config, s: State, id: nat)
    requires LedgerInv(cfg, s) && id in s.live && id + 1 == s.nextId && s.live[id].releasedAt.None?
    ensures s.ledger != [] && Without(s.ledger, id) == s.ledger[..|s.ledger| - 1]
    ensures s.ledger[|s.ledger| - 1].id == id && s.ledger[|s.ledger| - 1].number == s.live[id].number
  {
    WithoutLast(s.ledger, id);
  }

  lemma ReleaseKeepsLedger(cfg: Config, s: State, id: nat)
    requires cfg.Valid() && Inv(cfg, s) && Quiet(s) && Safe(cfg, s) && LedgerInv(cfg, s) && Apply(cfg, s, Release(id)).Some?
    ensures LedgerInv(cfg, Apply(cfg, s, Release(id)).value)
  {
    OnlyLatestOwns(cfg, s, id);
    OwnersEntryIsLast(cfg, s, id);
    var t := Apply(cfg, s, Release(id)).value;
    assert forall i :: 0 <= i < |t.ledger| ==> t.ledger[i] == s.ledger[i];
  }

  lemma EnterKeepsLedger(cfg: Config, s: State, id: nat)
    requires cfg.Valid() && LedgerInv(cfg, s) && Apply(cfg, s, Enter(id)).Some?
    ensures LedgerInv(cfg, Apply(cfg, s, Enter(id)).value)
  {
    var t := Apply(cfg, s, Enter(id)).value;
    assert forall i :: 0 <= i < |t.ledger| ==> t.ledger[i].id == s.ledger[i].id && t.ledger[i].number == s.ledger[i].number;
  }

  lemma OwnersWriteKeepsLedger(cfg: Config, s: State, a: Action)
    requires a.Renew? || a.Finish?
    requires cfg.Valid() && Inv(cfg, s) && Quiet(s) && Safe(cfg, s) && LedgerInv(cfg, s) && Apply(cfg, s, a).Some?
    ensures LedgerInv(cfg, Apply(cfg, s, a).value)
  {
    OnlyLatestOwns(cfg, s, a.id);
  }

  lemma PutBackKeepsLedger(cfg: Config, s: State, id: nat)
    requires cfg.Valid() && Inv(cfg, s) && Quiet(s) && Safe(cfg, s) && LedgerInv(cfg, s) && Apply(cfg, s, RetryLater(id)).Some?
    ensures LedgerInv(cfg, Apply(cfg, s, RetryLater(id)).value)
  {
    OnlyLatestOwns(cfg, s, id);
    var t := Apply(cfg, s, RetryLater(id)).value;
    assert forall i :: 0 <= i < |t.ledger| ==>
      t.ledger[i].id == s.ledger[i].id && t.ledger[i].number == s.ledger[i].number && t.ledger[i].entered == s.ledger[i].entered;
  }

  lemma OtherStepKeepsLedger(cfg: Config, s: State, a: Action)
    requires a.RolledBack? || a.Tick? || a.Vanish? || a.AdminRetry?
    requires Inv(cfg, s) && Quiet(s) && LedgerInv(cfg, s) && Apply(cfg, s, a).Some?
    ensures LedgerInv(cfg, Apply(cfg, s, a).value)
  {
    if a.AdminRetry? && s.nextId > 0 && s.nextId - 1 in s.live && !s.live[s.nextId - 1].rolledBack {
      assert Current(cfg, s, s.live[s.nextId - 1]);
    }
  }

  lemma StepKeepsLedger(cfg: Config, s: State, a: Action)
    requires cfg.Valid() && Inv(cfg, s) && Quiet(s) && Safe(cfg, s) && LedgerInv(cfg, s) && Apply(cfg, s, a).Some?
    ensures LedgerInv(cfg, Apply(cfg, s, a).value)
  {
    match a
    case Claim => ClaimKeepsLedger(cfg, s);
    case Release(id) => ReleaseKeepsLedger(cfg, s, id);
    case Enter(id) => EnterKeepsLedger(cfg, s, id);
    case RetryLater(id) => PutBackKeepsLedger(cfg, s, id);
    case Renew(_) => OwnersWriteKeepsLedger(cfg, s, a);
    case Finish(_, _) => OwnersWriteKeepsLedger(cfg, s, a);
    case _ => OtherStepKeepsLedger(cfg, s, a);
  }

  lemma {:induction false} SafeRunKeepsLedger(cfg: Config, s: State, actions: seq<Action>)
    requires cfg.Valid() && Inv(cfg, s) && Quiet(s) && LedgerInv(cfg, s) && SafeRun(cfg, s, actions, true)
    ensures
      match Exec(cfg, s, actions)
      case None => true
      case Some(t) => LedgerInv(cfg, t)
    decreases |actions|
  {
    if actions != [] && Apply(cfg, s, actions[0]).Some? {
      StepKeepsInv(cfg, s, actions[0]);
      StepKeepsQuiet(cfg, s, actions[0]);
      StepKeepsLedger(cfg, s, actions[0]);
      SafeRunKeepsLedger(cfg, Apply(cfg, s, actions[0]).value, actions[1..]);
    }
  }

  // Entered claims with distinct numbers up to maxAttempts: at most that many.
  lemma {:induction false} EnteredAtMost(cfg: Config, ledger: seq<Entry>) returns (numbers: set<int>)
    requires forall i :: 0 <= i < |ledger| && ledger[i].entered ==> 1 <= ledger[i].number <= cfg.maxAttempts
    requires forall i, j :: 0 <= i < j < |ledger| && ledger[i].entered && ledger[j].entered ==> ledger[i].number != ledger[j].number
    ensures |numbers| == EnteredCount(ledger)
    ensures forall n :: n in numbers <==> exists i :: 0 <= i < |ledger| && ledger[i].entered && ledger[i].number == n
  {
    numbers := {};
    if ledger != [] {
      var rest, last := ledger[..|ledger| - 1], ledger[|ledger| - 1];
      var before := EnteredAtMost(cfg, rest);
      numbers := if last.entered then before + {last.number} else before;
      forall n ensures n in numbers <==> exists i :: 0 <= i < |ledger| && ledger[i].entered && ledger[i].number == n {
        if n in before {
          var i :| 0 <= i < |rest| && rest[i].entered && rest[i].number == n;
          assert ledger[i].number == n;
        }
        if i :| 0 <= i < |ledger| && ledger[i].entered && ledger[i].number == n {
          if i < |rest| { assert rest[i].number == n; }
        }
      }
    }
  }

  lemma {:induction false} UpTo(max: int) returns (numbers: set<int>)
    requires 0 <= max
    ensures |numbers| == max && forall n :: n in numbers <==> 1 <= n <= max
    decreases max
  {
    numbers := {};
    if max > 0 {
      var before := UpTo(max - 1);
      numbers := before + {max};
    }
  }

  lemma SubsetSize(a: set<int>, b: set<int>)
    requires a <= b
    ensures |a| <= |b|
  {
    assert b == a + (b - a);
  }

  lemma EnteredBound(cfg: Config, ledger: seq<Entry>)
    requires cfg.Valid()
    requires forall i :: 0 <= i < |ledger| && ledger[i].entered ==> 1 <= ledger[i].number <= cfg.maxAttempts
    requires forall i, j :: 0 <= i < j < |ledger| && ledger[i].entered && ledger[j].entered ==> ledger[i].number != ledger[j].number
    ensures EnteredCount(ledger) <= cfg.maxAttempts
  {
    var entered := EnteredAtMost(cfg, ledger);
    var all := UpTo(cfg.maxAttempts);
    forall n | n in entered ensures n in all {
      var i :| 0 <= i < |ledger| && ledger[i].entered && ledger[i].number == n;
    }
    SubsetSize(entered, all);
  }

  lemma SafeRunIsCounted(cfg: Config, start: int, actions: seq<Action>)
    requires cfg.Valid() && SafeRun(cfg, Init(start), actions, true)
    ensures
      match Exec(cfg, Init(start), actions)
      case None => true
      case Some(t) => Counted(cfg, t)
  {
    SafeRunKeepsLedger(cfg, Init(start), actions);
    if Exec(cfg, Init(start), actions).Some? {
      EnteredBound(cfg, Exec(cfg, Init(start), actions).value.ledger);
    }
  }

  // ------------------------------------------------------------------ exactly

  ghost predicate AlwaysCounted(cfg: Config, lim: Limits) {
    forall start: int, actions: seq<Action> ::
      LimitedRun(cfg, lim, Init(start), actions) ==>
        match Exec(cfg, Init(start), actions) case None => true case Some(t) => Counted(cfg, t)
  }

  // A released attempt that owns the row again is released once more: the
  // number of the claim that was tried again later is given to the next one.
  lemma SameNumberTwice(cfg: Config, lim: Limits) returns (t: State)
    requires cfg.Valid() && !SuitsReleases(cfg, lim)
    ensures Reached(cfg, lim, t)
    ensures |t.ledger| == 2 && t.ledger[0].number == t.ledger[1].number == 1
  {
    t := Revival(cfg, lim);
    var e := Entry(1, 1, cfg.leaseMs - cfg.retryDelayMs, false, true);
    NotThere([e], 0);
    t := Next(cfg, lim, t, Release(0));
    assert t.ledger == [e];
    t := Next(cfg, lim, t, Vanish(0));
    assert t.live == map[];
    t := Next(cfg, lim, t, Tick(cfg.retryDelayMs + 1));
    t := Next(cfg, lim, t, Claim);
  }

  // So is a rolled back one, and the claim in the ledger is not counted any more.
  lemma CountedOff(cfg: Config, lim: Limits) returns (t: State)
    requires cfg.Valid() && (!lim.apart || !SuitsRollbacks(cfg, lim))
    ensures Reached(cfg, lim, t) && t.row.attempts == 0 && |t.ledger| == 1
  {
    var e: Entry;
    if !lim.apart {
      t := SameStamp(cfg, lim);
      e := Entry(2, 1, cfg.leaseMs + 1, false, false);
    } else {
      t := OrphanRevived(cfg, lim);
      e := Entry(2, 1, cfg.leaseMs + 1, false, true);
    }
    NotThere([e], 0);
    t := Next(cfg, lim, t, Release(0));
  }

  lemma {:induction false} NotThere(ledger: seq<Entry>, id: nat)
    requires forall i :: 0 <= i < |ledger| ==> ledger[i].id != id
    ensures Without(ledger, id) == ledger
  {
    if ledger != [] {
      NotThere(ledger[1..], id);
      assert ledger == [ledger[0]] + ledger[1..];
    }
  }

  // Main result: claims are counted right in all runs within the limits exactly
  // when the settings suit all of them.
  lemma CountedIff(cfg: Config, lim: Limits)
    requires cfg.Valid()
    ensures AlwaysCounted(cfg, lim) <==> Suits(cfg, lim)
  {
    if Suits(cfg, lim) {
      forall start: int, actions: seq<Action> | LimitedRun(cfg, lim, Init(start), actions)
        ensures match Exec(cfg, Init(start), actions) case None => true case Some(t) => Counted(cfg, t)
      {
        LimitedRunIsSafe(cfg, lim, Init(start), actions, true);
        SafeRunIsCounted(cfg, start, actions);
      }
    } else {
      var t: State;
      if !SuitsReleases(cfg, lim) { t := SameNumberTwice(cfg, lim); } else { t := CountedOff(cfg, lim); }
      var run :| Leads(cfg, lim, Init(0), run, t);
      assert !Counted(cfg, t);
    }
  }

  // ------------------------------------------------------------------ the bound in all runs

  // No claim gets the time stamp of a running attempt.
  ghost predicate FreshStamp(s: State, a: Action) {
    a.Claim? ==> forall i :: i in s.live ==> s.live[i].startedAt < s.now
  }

  ghost predicate StampedRun(cfg: Config, s: State, actions: seq<Action>)
    decreases |actions|
  {
    actions != [] ==>
      FreshStamp(s, actions[0]) &&
      match Apply(cfg, s, actions[0])
      case None => true
      case Some(next) => StampedRun(cfg, next, actions[1..])
  }

  // A claim that was neither released nor put back keeps its number to itself:
  // the count never falls below it, and no other running attempt of that number
  // can match the row.
  ghost predicate Keeps(cfg: Config, s: State, e: Entry) {
    && 1 <= e.number <= s.row.attempts && e.claimedAt <= s.now
    && (forall i :: i in s.live && i != e.id && s.live[i].number == e.number ==> s.live[i].startedAt < e.claimedAt)
    && (s.row.attempts == e.number && s.row.status == Received ==> s.row.startedAt.Some? && e.claimedAt <= s.row.startedAt.value)
    && (s.row.attempts > e.number ==> e.claimedAt + cfg.leaseMs < s.now)
  }

  ghost predicate KeepsAll(cfg: Config, s: State) {
    forall k :: 0 <= k < |s.ledger| && !s.ledger[k].retried ==> Keeps(cfg, s, s.ledger[k])
  }

  ghost predicate EntriesOk(cfg: Config, s: State) {
    && 0 <= s.row.attempts
    && (forall k :: 0 <= k < |s.ledger| ==>
          var e := s.ledger[k];
          && e.id < s.nextId
          && (e.entered ==> 1 <= e.number <= cfg.maxAttempts && !e.retried)
          && (e.retried ==> e.id !in s.live)
          && (e.id in s.live ==> s.live[e.id].number == e.number && (e.entered ==> s.live[e.id].entered)))
    && (forall i :: i in s.live ==> i < s.nextId && 1 <= s.live[i].number)
    && (forall i, j :: 0 <= i < j < |s.ledger| ==> s.ledger[i].id != s.ledger[j].id)
    && (forall i, j :: 0 <= i < j < |s.ledger| && !s.ledger[i].retried && !s.ledger[j].retried ==>
          s.ledger[i].number != s.ledger[j].number)
  }

  ghost predicate BoundInv(cfg: Config, s: State) {
    EntriesOk(cfg, s) && KeepsAll(cfg, s)
  }

  lemma ClaimKeepsBound(cfg: Config, s: State)
    requires cfg.Valid() && BoundInv(cfg, s) && FreshStamp(s, Claim) && Apply(cfg, s, Claim).Some?
    ensures BoundInv(cfg, Apply(cfg, s, Claim).value)
  {
    var t, n := Apply(cfg, s, Claim).value, |s.ledger|;
    assert t.ledger[n] == Entry(s.nextId, s.row.attempts + 1, s.now, false, false);
    forall k | 0 <= k < n ensures t.ledger[k] == s.ledger[k] {}
    forall k | 0 <= k < n && !s.ledger[k].retried ensures Keeps(cfg, t, s.ledger[k]) && s.ledger[k].number != s.row.attempts + 1 {
      assert Keeps(cfg, s, s.ledger[k]);
    }
    assert Keeps(cfg, t, t.ledger[n]);
  }

  // Whoever owns the row while a kept claim has its number is that claim.
  lemma OwnerIsKept(cfg: Config, s: State, id: nat, k: nat)
    requires BoundInv(cfg, s) && k < |s.ledger| && !s.ledger[k].retried
    requires id in s.live && Owns(s.row, s.live[id])
    ensures s.ledger[k].number == s.live[id].number ==> s.ledger[k].id == id
  {
    assert Keeps(cfg, s, s.ledger[k]);
  }

  lemma RenewKeepsBound(cfg: Config, s: State, a: Action)
    requires a.Renew? || a.RolledBack?
    requires cfg.Valid() && BoundInv(cfg, s) && Apply(cfg, s, a).Some?
    ensures BoundInv(cfg, Apply(cfg, s, a).value)
  {
    var t := Apply(cfg, s, a).value;
    forall k: nat | k < |s.ledger| && !s.ledger[k].retried ensures Keeps(cfg, t, s.ledger[k]) {
      assert Keeps(cfg, s, s.ledger[k]);
      OwnerIsKept(cfg, s, a.id, k);
    }
  }

  function Earlier(j: int, k: int): int {
    if j >= k then j + 1 else j
  }

  // What is left after a release was there before, in the same order.
  ghost predicate LeftOf(ledger: seq<Entry>, left: seq<Entry>, id: nat, k: int) {
    forall j :: 0 <= j < |left| ==>
      Earlier(j, k) < |ledger| && left[j] == ledger[Earlier(j, k)] && left[j].id != id
  }

  lemma {:induction false} LeftBehind(ledger: seq<Entry>, id: nat) returns (k: nat)
    requires forall i, j :: 0 <= i < j < |ledger| ==> ledger[i].id != ledger[j].id
    ensures LeftOf(ledger, Without(ledger, id), id, k)
  {
    k := 0;
    if ledger != [] {
      var rest := ledger[1..];
      if ledger[0].id == id {
        NotThere(rest, id);
      } else {
        var j := LeftBehind(rest, id);
        k := j + 1;
        LeftOfCons(ledger[0], rest, Without(rest, id), id, j);
        assert [ledger[0]] + rest == ledger;
      }
    }
  }

  lemma LeftOfCons(e: Entry, rest: seq<Entry>, left: seq<Entry>, id: nat, k: nat)
    requires LeftOf(rest, left, id, k) && e.id != id
    ensures LeftOf([e] + rest, [e] + left, id, k + 1)
  {
    var more, before, n := [e] + left, [e] + rest, k + 1;
    forall j | 0 <= j < |more|
      ensures Earlier(j, n) < |before| && more[j] == before[Earlier(j, n)] && more[j].id != id
    {
      if j > 0 {
        var i := Earlier(j - 1, k);
        assert i < |rest| && left[j - 1] == rest[i] && left[j - 1].id != id;
        assert Earlier(j, n) == i + 1 && before[i + 1] == rest[i] && more[j] == left[j - 1];
      } else {
        assert Earlier(0, n) == 0;
      }
    }
  }

  lemma ReleaseKeepsEach(cfg: Config, s: State, id: nat, i: nat)
    requires cfg.Valid() && BoundInv(cfg, s) && Apply(cfg, s, Release(id)).Some?
    requires i < |s.ledger| && s.ledger[i].id != id && !s.ledger[i].retried
    ensures Keeps(cfg, Apply(cfg, s, Release(id)).value, s.ledger[i])
  {
    assert Keeps(cfg, s, s.ledger[i]);
    OwnerIsKept(cfg, s, id, i);
  }

  lemma ReleaseKeepsEntries(cfg: Config, s: State, id: nat)
    requires cfg.Valid() && EntriesOk(cfg, s) && Apply(cfg, s, Release(id)).Some?
    ensures EntriesOk(cfg, Apply(cfg, s, Release(id)).value)
  {
    var t := Apply(cfg, s, Release(id)).value;
    var k := LeftBehind(s.ledger, id);
    assert LeftOf(s.ledger, t.ledger, id, k);
  }

  lemma ReleaseKeepsBound(cfg: Config, s: State, id: nat)
    requires cfg.Valid() && BoundInv(cfg, s) && Apply(cfg, s, Release(id)).Some?
    ensures BoundInv(cfg, Apply(cfg, s, Release(id)).value)
  {
    var t := Apply(cfg, s, Release(id)).value;
    var k := LeftBehind(s.ledger, id);
    ReleaseKeepsEntries(cfg, s, id);
    assert LeftOf(s.ledger, t.ledger, id, k);
    forall j | 0 <= j < |t.ledger| && !t.ledger[j].retried ensures Keeps(cfg, t, t.ledger[j]) {
      ReleaseKeepsEach(cfg, s, id, Earlier(j, k));
    }
  }

  lemma MarkKeepsBound(cfg: Config, s: State, a: Action)
    requires a.RetryLater? || a.Enter?
    requires cfg.Valid() && BoundInv(cfg, s) && Apply(cfg, s, a).Some?
    ensures BoundInv(cfg, Apply(cfg, s, a).value)
  {
    var t := Apply(cfg, s, a).value;
    forall k: nat | k < |t.ledger| && !t.ledger[k].retried ensures Keeps(cfg, t, t.ledger[k]) {
      assert Keeps(cfg, s, s.ledger[k]);
      if a.RetryLater? { OwnerIsKept(cfg, s, a.id, k); }
    }
  }

  lemma OtherStepsKeepBound(cfg: Config, s: State, a: Action)
    requires a.Tick? || a.Finish? || a.Vanish? || a.AdminRetry?
    requires cfg.Valid() && BoundInv(cfg, s) && Apply(cfg, s, a).Some?
    ensures BoundInv(cfg, Apply(cfg, s, a).value)
  {
    var t := Apply(cfg, s, a).value;
    forall k: nat | k < |t.ledger| && !t.ledger[k].retried ensures Keeps(cfg, t, t.ledger[k]) {
      assert Keeps(cfg, s, s.ledger[k]);
    }
  }

  lemma StepKeepsBound(cfg: Config, s: State, a: Action)
    requires cfg.Valid() && BoundInv(cfg, s) && FreshStamp(s, a) && Apply(cfg, s, a).Some?
    ensures BoundInv(cfg, Apply(cfg, s, a).value)
  {
    match a
    case Claim => ClaimKeepsBound(cfg, s);
    case Renew(_) => RenewKeepsBound(cfg, s, a);
    case RolledBack(_) => RenewKeepsBound(cfg, s, a);
    case Release(id) => ReleaseKeepsBound(cfg, s, id);
    case RetryLater(_) => MarkKeepsBound(cfg, s, a);
    case Enter(_) => MarkKeepsBound(cfg, s, a);
    case _ => OtherStepsKeepBound(cfg, s, a);
  }

  lemma {:induction false} StampedRunKeepsBound(cfg: Config, s: State, actions: seq<Action>)
    requires cfg.Valid() && BoundInv(cfg, s) && StampedRun(cfg, s, actions)
    ensures
      match Exec(cfg, s, actions)
      case None => true
      case Some(t) => BoundInv(cfg, t)
    decreases |actions|
  {
    if actions != [] && Apply(cfg, s, actions[0]).Some? {
      StepKeepsBound(cfg, s, actions[0]);
      StampedRunKeepsBound(cfg, Apply(cfg, s, actions[0]).value, actions[1..]);
    }
  }

  // Main result: whatever the settings and however long released and rolled back
  // attempts run on, at most maxAttempts unreleased claims enter the pipeline,
  // and claims that were not put back for a later try have distinct numbers; only
  // no claim may get the time stamp of a running attempt.
  lemma AttemptsAreBounded(cfg: Config, start: int, actions: seq<Action>)
    requires cfg.Valid() && StampedRun(cfg, Init(start), actions)
    ensures
      match Exec(cfg, Init(start), actions)
      case None => true
      case Some(t) =>
        && EnteredCount(t.ledger) <= cfg.maxAttempts
        && (forall i, j :: 0 <= i < j < |t.ledger| && !t.ledger[i].retried && !t.ledger[j].retried ==>
              t.ledger[i].number != t.ledger[j].number)
  {
    StampedRunKeepsBound(cfg, Init(start), actions);
    if Exec(cfg, Init(start), actions).Some? {
      EnteredBound(cfg, Exec(cfg, Init(start), actions).value.ledger);
    }
  }

  // ------------------------------------------------------------------ the same millisecond

  // A rolled back attempt and a claim of the same millisecond: the claim enters,
  // the rolled back attempt is released, and the claim is not counted any more.
  lemma Uncounted(cfg: Config) returns (t: State)
    requires cfg.Valid()
    ensures Reached(cfg, Unlimited, t) && t.row.status == Received && t.row.attempts == 0
    ensures t.row.startedAt.Some? && t.row.startedAt.value <= t.now - cfg.leaseMs + cfg.retryDelayMs
    ensures EnteredCount(t.ledger) == 1 && forall i :: 0 <= i < |t.ledger| ==> t.ledger[i].id < t.nextId
  {
    t := SameStamp(cfg, Unlimited);
    t := Next(cfg, Unlimited, t, Enter(2));
    var e := Entry(2, 1, cfg.leaseMs + 1, true, false);
    assert t.ledger == [e];
    NotThere([e], 0);
    t := Next(cfg, Unlimited, t, Release(0));
    assert t.ledger == [e] && [e][..0] == [];
  }

  lemma MarkLast(ledger: seq<Entry>, e: Entry)
    requires forall i :: 0 <= i < |ledger| ==> ledger[i].id != e.id
    ensures Mark(ledger + [e], e.id, false) == ledger + [e.(entered := true)]
  {
  }

  lemma CountLast(ledger: seq<Entry>, e: Entry)
    requires e.entered
    ensures EnteredCount(ledger + [e]) == EnteredCount(ledger) + 1
  {
    assert (ledger + [e])[..|ledger|] == ledger;
  }

  // After the lease, the next claim enters as well.
  lemma OneMoreEnters(cfg: Config, s: State) returns (t: State)
    requires cfg.Valid() && Reached(cfg, Unlimited, s) && s.row.status == Received && 0 <= s.row.attempts < cfg.maxAttempts
    requires s.row.startedAt.Some? && s.row.startedAt.value <= s.now + cfg.retryDelayMs
    requires forall i :: 0 <= i < |s.ledger| ==> s.ledger[i].id < s.nextId
    ensures Reached(cfg, Unlimited, t) && t.row.status == Received && t.row.attempts == s.row.attempts + 1
    ensures t.row.startedAt.Some? && t.row.startedAt.value <= t.now
    ensures EnteredCount(t.ledger) == EnteredCount(s.ledger) + 1 && forall i :: 0 <= i < |t.ledger| ==> t.ledger[i].id < t.nextId
  {
    t := Next(cfg, Unlimited, s, Tick(cfg.leaseMs + cfg.retryDelayMs + 1));
    assert t.ledger == s.ledger && t.nextId == s.nextId && t.row == s.row;
    t := Next(cfg, Unlimited, t, Claim);
    var e := Entry(s.nextId, s.row.attempts + 1, t.now, false, false);
    assert t.ledger == s.ledger + [e];
    MarkLast(s.ledger, e);
    CountLast(s.ledger, e.(entered := true));
    t := Next(cfg, Unlimited, t, Enter(s.nextId));
  }

  lemma {:induction false} AllEnter(cfg: Config, s: State, n: int) returns (t: State)
    requires cfg.Valid() && Reached(cfg, Unlimited, s) && s.row.status == Received && 0 <= s.row.attempts <= n <= cfg.maxAttempts
    requires s.row.startedAt.Some? && s.row.startedAt.value <= s.now + cfg.retryDelayMs
    requires forall i :: 0 <= i < |s.ledger| ==> s.ledger[i].id < s.nextId
    ensures Reached(cfg, Unlimited, t) && EnteredCount(t.ledger) == EnteredCount(s.ledger) + n - s.row.attempts
    decreases n - s.row.attempts
  {
    t := s;
    if s.row.attempts < n {
      t := OneMoreEnters(cfg, s);
      t := AllEnter(cfg, t, n);
    }
  }

  // So the time stamps matter, whatever the settings: maxAttempts + 1 claims enter.
  lemma SameMillisecondBreaksTheBound(cfg: Config)
    requires cfg.Valid()
    ensures exists run ::
      Exec(cfg, Init(0), run).Some? && EnteredCount(Exec(cfg, Init(0), run).value.ledger) == cfg.maxAttempts + 1
  {
    var s := Uncounted(cfg);
    s := AllEnter(cfg, s, cfg.maxAttempts);
    var run :| Leads(cfg, Unlimited, Init(0), run, s);
  }

  ghost predicate AlwaysBounded(cfg: Config, stamped: bool) {
    forall start: int, actions: seq<Action> | stamped ==> StampedRun(cfg, Init(start), actions) ::
      match Exec(cfg, Init(start), actions) case None => true case Some(t) => EnteredCount(t.ledger) <= cfg.maxAttempts
  }

  // With fresh time stamps the bound holds for all settings, without for none.
  lemma BoundedIff(cfg: Config, stamped: bool)
    requires cfg.Valid()
    ensures AlwaysBounded(cfg, stamped) <==> stamped
  {
    if stamped {
      forall start: int, actions: seq<Action> | StampedRun(cfg, Init(start), actions)
        ensures match Exec(cfg, Init(start), actions) case None => true case Some(t) => EnteredCount(t.ledger) <= cfg.maxAttempts
      {
        AttemptsAreBounded(cfg, start, actions);
      }
    } else {
      SameMillisecondBreaksTheBound(cfg);
      var run :| Exec(cfg, Init(0), run).Some? && EnteredCount(Exec(cfg, Init(0), run).value.ledger) == cfg.maxAttempts + 1;
    }
  }
}
