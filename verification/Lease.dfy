/** The lease protocol of the background worker (src/services/submissionQueue.js)
    for one temporary_data row, as a transition system.

    Every attempt that was ever claimed keeps running until it finishes, gives
    up, notices that it lost its claim, or dies. Nothing forces a stale or
    released attempt to stop, so the writes of all of them may interleave; only
    the conditional update (Owns) stands between them and the row.

    A renewal inside a transaction moves the attempt's own stamp at once. When
    the transaction is rolled back, the row has the old stamp again and the
    attempt keeps the new one. */
module Lease {
  import opened Common

  // processing_status, as far as the lease looks at it: TEMPORARY_STORED,
  // FAILED, or any other status the pipeline writes.
  datatype Status = Received | Failed | Processed

  datatype Config = Config(leaseMs: int, retryDelayMs: int, maxAttempts: int) {
    predicate Valid() {
      0 < leaseMs && 0 <= retryDelayMs && 1 <= maxAttempts
    }
  }

  const QUEUE_DEFAULTS := Config(600_000, 60_000, 3)

  datatype Row = Row(status: Status, attempts: int, startedAt: Option<int>)

  // One attempt's claim: its number and the lease start it last wrote are its
  // key. When it was released is bookkeeping for the properties; no guard reads
  // it. Once a transaction of it was rolled back, an attempt only cleans up,
  // records FAILED or ends.
  datatype Attempt = Attempt(
    number: int, claimedAt: int, startedAt: int, releasedAt: Option<int>, entered: bool, rolledBack: bool)

  // An unreleased claim since the last admin reset: did it enter the pipeline,
  // did it put the row back for a later try?
  datatype Entry = Entry(id: nat, number: int, claimedAt: int, entered: bool, retried: bool)

  // ------------------------------------------------------------------ writes

  // The claim's where(): does a conditional update of this attempt match the row?
  predicate Owns(row: Row, a: Attempt) {
    row.status == Received && row.attempts == a.number && row.startedAt == Some(a.startedAt)
  }

  predicate Claimable(cfg: Config, row: Row, now: int) {
    row.status == Received && (row.startedAt.None? || row.startedAt.value < now - cfg.leaseMs)
  }

  function ClaimRow(row: Row, now: int): Row {
    row.(attempts := row.attempts + 1, startedAt := Some(now))
  }

  function RenewRow(row: Row, now: int): Row {
    row.(startedAt := Some(now))
  }

  // Handed back at shutdown: claimable in retryDelayMs, the attempt not counted.
  function ReleaseRow(cfg: Config, row: Row, a: Attempt, now: int): Row {
    row.(attempts := a.number - 1, startedAt := Some(now - cfg.leaseMs + cfg.retryDelayMs))
  }

  // The file could not be loaded: counted from the time of the claim.
  function RetryLaterRow(cfg: Config, row: Row, a: Attempt): Row {
    row.(startedAt := Some(a.claimedAt - cfg.leaseMs + cfg.retryDelayMs))
  }

  const ReceivedRow := Row(Received, 0, None)

  // ------------------------------------------------------------------ system

  datatype State = State(
    now: int,
    row: Row,
    live: map<nat, Attempt>,  // attempts that may still take a step
    nextId: nat,
    last: int,                // time of the latest claim
    ledger: seq<Entry>,
    claims: nat,              // since the last admin reset
    releases: nat)

  function Init(now: int): State {
    State(now, ReceivedRow, map[], 0, now, [], 0, 0)
  }

  datatype Action =
    | Tick(ms: nat)
    | Claim
    | Renew(id: nat)
    | RolledBack(id: nat)               // a renewal in a transaction that fails afterwards
    | Release(id: nat)
    | RetryLater(id: nat)
    | Enter(id: nat)                    // the attempt starts the pipeline
    | Finish(id: nat, status: Status)   // a final conditional write (FAILED or a result)
    | Vanish(id: nat)                   // crash, or the attempt saw that it lost its claim
    | AdminRetry                        // RETRY_PROCESSING of a FAILED row

  function Without(ledger: seq<Entry>, id: nat): seq<Entry> {
    if ledger == [] then []
    else (if ledger[0].id == id then [] else [ledger[0]]) + Without(ledger[1..], id)
  }

  function MarkEntry(e: Entry, retried: bool): Entry {
    if retried then e.(retried := true) else e.(entered := true)
  }

  function Mark(ledger: seq<Entry>, id: nat, retried: bool): (r: seq<Entry>)
    ensures |r| == |ledger|
    ensures forall i :: 0 <= i < |r| ==> r[i] == if ledger[i].id == id then MarkEntry(ledger[i], retried) else ledger[i]
  {
    seq(|ledger|, i requires 0 <= i < |ledger| => if ledger[i].id == id then MarkEntry(ledger[i], retried) else ledger[i])
  }

  // None: the action is not possible in this state.
  function Apply(cfg: Config, s: State, a: Action): Option<State> {
    match a
    case Tick(ms) => Some(s.(now := s.now + ms))
    case Claim =>
      if !Claimable(cfg, s.row, s.now) then None
      else
        var number := s.row.attempts + 1;
        Some(s.(row := ClaimRow(s.row, s.now), live := s.live[s.nextId := Attempt(number, s.now, s.now, None, false, false)],
                nextId := s.nextId + 1, last := s.now,
                ledger := s.ledger + [Entry(s.nextId, number, s.now, false, false)], claims := s.claims + 1))
    case Renew(id) =>
      if id !in s.live || !Owns(s.row, s.live[id]) then None
      else Some(s.(row := RenewRow(s.row, s.now), live := s.live[id := s.live[id].(startedAt := s.now)]))
    case RolledBack(id) =>
      // the transactions are the pipeline's
      if id !in s.live || !Owns(s.row, s.live[id]) || !s.live[id].entered || s.live[id].rolledBack then None
      else Some(s.(live := s.live[id := s.live[id].(startedAt := s.now, rolledBack := true)]))
    case Release(id) =>
      if id !in s.live || !Owns(s.row, s.live[id]) then None
      else Some(s.(row := ReleaseRow(cfg, s.row, s.live[id], s.now), live := s.live[id := s.live[id].(releasedAt := Some(s.now))],
                   ledger := Without(s.ledger, id), releases := s.releases + 1))
    case RetryLater(id) =>
      // decided before the pipeline starts
      if id !in s.live || !Owns(s.row, s.live[id]) || s.live[id].entered then None
      else Some(s.(row := RetryLaterRow(cfg, s.row, s.live[id]), live := s.live - {id}, ledger := Mark(s.ledger, id, true)))
    case Enter(id) =>
      if id !in s.live || s.live[id].number > cfg.maxAttempts then None
      else Some(s.(live := s.live[id := s.live[id].(entered := true)], ledger := Mark(s.ledger, id, false)))
    case Finish(id, status) =>
      if id !in s.live || !Owns(s.row, s.live[id]) || status == Received then None
      else Some(s.(row := s.row.(status := status), live := s.live - {id}))
    case Vanish(id) =>
      if id !in s.live then None else Some(s.(live := s.live - {id}))
    case AdminRetry =>
      if s.row.status != Failed then None
      else Some(s.(row := ReceivedRow, ledger := [], claims := 0, releases := 0))
  }

  function Exec(cfg: Config, s: State, actions: seq<Action>): Option<State>
    decreases |actions|
  {
    if actions == [] then Some(s)
    else match Apply(cfg, s, actions[0])
      case None => None
      case Some(next) => Exec(cfg, next, actions[1..])
  }

  // ------------------------------------------------------------------ properties

  // A conditional write that matches the row is that of the latest claim, and
  // not of an attempt that was released ("owns nothing afterwards").
  ghost predicate Fenced(s: State) {
    forall i :: i in s.live && Owns(s.row, s.live[i]) ==> i + 1 == s.nextId && s.live[i].releasedAt.None?
  }

  // The same of the attempts that may still store something: those of which no
  // transaction was rolled back.
  ghost predicate PlainFenced(s: State) {
    forall i :: i in s.live && Owns(s.row, s.live[i]) && !s.live[i].rolledBack ==> i + 1 == s.nextId && s.live[i].releasedAt.None?
  }

  // How long attempts run on that should stop. Released ones: their process
  // exits. Rolled back ones: only a clean-up or a final write is left to them.
  // Apart: no claim falls into the millisecond of a rolled back renewal.
  datatype Limits = Limits(grace: Option<nat>, after: Option<nat>, apart: bool)

  const Unlimited := Limits(None, None, false)

  ghost predicate WithinLimits(lim: Limits, s: State) {
    && (lim.grace.Some? ==> forall i :: i in s.live && s.live[i].releasedAt.Some? ==> s.now <= s.live[i].releasedAt.value + lim.grace.value)
    && (lim.after.Some? ==> forall i :: i in s.live && s.live[i].rolledBack ==> s.now <= s.live[i].startedAt + lim.after.value)
  }

  ghost predicate Apart(s: State, a: Action) {
    a.Claim? ==> forall i :: i in s.live && s.live[i].rolledBack ==> s.live[i].startedAt < s.now
  }

  ghost predicate LimitedRun(cfg: Config, lim: Limits, s: State, actions: seq<Action>)
    decreases |actions|
  {
    WithinLimits(lim, s) &&
    (actions != [] ==>
       (lim.apart ==> Apart(s, actions[0])) &&
       match Apply(cfg, s, actions[0])
       case None => true
       case Some(next) => LimitedRun(cfg, lim, next, actions[1..]))
  }

  // The settings that suit the limits: a caller can check them.
  predicate SuitsReleases(cfg: Config, lim: Limits) {
    cfg.leaseMs <= 2 * cfg.retryDelayMs || (lim.grace.Some? && lim.grace.value <= cfg.retryDelayMs)
  }

  predicate SuitsRollbacks(cfg: Config, lim: Limits) {
    cfg.leaseMs <= cfg.retryDelayMs || (lim.after.Some? && lim.after.value < cfg.leaseMs - cfg.retryDelayMs)
  }

  predicate Suits(cfg: Config, lim: Limits) {
    lim.apart && SuitsReleases(cfg, lim) && SuitsRollbacks(cfg, lim)
  }

  // What makes a state safe, whatever the limits. A released attempt that was
  // overtaken after the retry delay is gone leaseMs - retryDelayMs after its
  // last renewal, unless the retry delay is half the lease or more;
  ghost predicate SafeReleases(cfg: Config, s: State) {
    || cfg.leaseMs <= 2 * cfg.retryDelayMs
    || forall i :: i in s.live && !s.live[i].rolledBack && Overtaken(cfg, s.last, s.live[i]) ==>
         s.now < s.live[i].startedAt + cfg.leaseMs - cfg.retryDelayMs
  }

  // and so is an attempt that was overtaken after a rolled back renewal, unless
  // the retry delay is the lease or more.
  ghost predicate SafeRollbacks(cfg: Config, s: State) {
    || cfg.leaseMs <= cfg.retryDelayMs
    || forall i :: i in s.live && s.live[i].rolledBack && i + 1 < s.nextId ==>
         s.now < s.live[i].startedAt + cfg.leaseMs - cfg.retryDelayMs
  }

  ghost predicate Safe(cfg: Config, s: State) {
    SafeReleases(cfg, s) && SafeRollbacks(cfg, s)
  }

  // Runs in which releases are safe; quiet ones, in which rolled back renewals
  // are safe as well.
  ghost predicate SafeRun(cfg: Config, s: State, actions: seq<Action>, quiet: bool)
    decreases |actions|
  {
    SafeReleases(cfg, s) && (quiet ==> SafeRollbacks(cfg, s)) &&
    (actions != [] ==>
       Apart(s, actions[0]) &&
       match Apply(cfg, s, actions[0])
       case None => true
       case Some(next) => SafeRun(cfg, next, actions[1..], quiet))
  }

  // ------------------------------------------------------------------ invariant

  // What a claim has to wait for at least, after the release of an attempt.
  function Delay(cfg: Config): int {
    Min(cfg.retryDelayMs, cfg.leaseMs)
  }

  // Released, and claimed again after the delay.
  predicate Overtaken(cfg: Config, last: int, a: Attempt) {
    a.releasedAt.Some? && a.releasedAt.value + Delay(cfg) < last
  }

  // A released attempt is overtaken, or its number is still ahead of the row's,
  // and the claim that would reach it has to wait for the delay.
  ghost predicate Behind(cfg: Config, s: State, a: Attempt)
    requires a.releasedAt.Some?
  {
    || Overtaken(cfg, s.last, a)
    || (&& s.row.attempts < a.number
        && match s.row.startedAt
           case None => 2 <= a.number
           case Some(v) => a.releasedAt.value - cfg.leaseMs + Delay(cfg) <= v)
  }

  // The attempt of an older claim: its lease ran out, or it was released.
  ghost predicate Stale(cfg: Config, s: State, a: Attempt) {
    if a.releasedAt.Some? then a.releasedAt.value <= s.last && Behind(cfg, s, a) else a.startedAt + cfg.leaseMs < s.last
  }

  // The attempt of the latest claim: the one owner, or released.
  ghost predicate Current(cfg: Config, s: State, a: Attempt) {
    && a.claimedAt == s.last
    && if a.releasedAt.Some? then Behind(cfg, s, a)
       else Owns(s.row, a) && forall k :: k in s.live && s.live[k].rolledBack ==> s.live[k].startedAt < s.last
  }

  ghost predicate WellFormed(s: State) {
    && s.last <= s.now
    && 0 <= s.row.attempts
    && (s.row.startedAt.None? ==> s.row.attempts == 0)
    && (s.row.status != Received ==> 1 <= s.row.attempts)
    && (forall i :: i in s.live ==>
          && i < s.nextId && 1 <= s.live[i].number && s.live[i].claimedAt <= s.live[i].startedAt <= s.now
          && (s.live[i].releasedAt.Some? ==> s.live[i].startedAt <= s.live[i].releasedAt.value <= s.now || s.live[i].rolledBack)
          && (s.live[i].rolledBack ==> s.live[i].entered))
  }

  ghost predicate RowOk(cfg: Config, s: State) {
    s.row.status == Received && s.row.startedAt.Some? ==>
      var v := s.row.startedAt.value;
      s.last <= v || s.last <= v + cfg.leaseMs - cfg.retryDelayMs <= s.now
  }

  // Of the attempts of which nothing was rolled back; the others may own the
  // row or not.
  ghost predicate Inv(cfg: Config, s: State) {
    && WellFormed(s) && RowOk(cfg, s)
    && (forall i :: i in s.live && !s.live[i].rolledBack && i + 1 < s.nextId ==> Stale(cfg, s, s.live[i]))
    && (forall i :: i in s.live && !s.live[i].rolledBack && i + 1 == s.nextId ==> Current(cfg, s, s.live[i]))
  }

  lemma PlainOwnerIsLatest(cfg: Config, s: State, i: nat)
    requires cfg.Valid() && Inv(cfg, s) && SafeReleases(cfg, s)
    requires i in s.live && Owns(s.row, s.live[i]) && !s.live[i].rolledBack
    ensures i + 1 == s.nextId && s.live[i].releasedAt.None? && s.live[i].claimedAt == s.last
    ensures forall k :: k in s.live && s.live[k].rolledBack ==> s.live[k].startedAt < s.last
  {
  }

  // While the latest claim's attempt holds on, no rolled back one owns the row.
  lemma LatestOwnsAlone(cfg: Config, s: State, i: nat, k: nat)
    requires Inv(cfg, s) && i in s.live && i + 1 == s.nextId && !s.live[i].rolledBack && s.live[i].releasedAt.None?
    requires k in s.live && s.live[k].rolledBack
    ensures !Owns(s.row, s.live[k])
  {
  }

  lemma ClaimKeepsInv(cfg: Config, s: State)
    requires cfg.Valid() && Inv(cfg, s) && Apart(s, Claim) && Apply(cfg, s, Claim).Some?
    ensures Inv(cfg, Apply(cfg, s, Claim).value)
  {
    var t := Apply(cfg, s, Claim).value;
    forall i | i in t.live && !t.live[i].rolledBack && i + 1 < t.nextId
      ensures Stale(cfg, t, t.live[i])
    {
      assert t.live[i] == s.live[i];
      if i + 1 < s.nextId { assert Stale(cfg, s, s.live[i]); } else { assert Current(cfg, s, s.live[i]); }
    }
  }

  // Writes of an owner, rolled back or not, leave the other attempts behind.
  lemma WriteKeepsOthers(cfg: Config, s: State, a: Action, i: nat)
    requires a.Renew? || a.Release? || a.Finish? || a.RetryLater?
    requires cfg.Valid() && Inv(cfg, s) && SafeReleases(cfg, s) && Apply(cfg, s, a).Some?
    requires i in s.live && i != a.id && !s.live[i].rolledBack
    ensures
      var t := Apply(cfg, s, a).value;
      && t.live[i] == s.live[i]
      && (if i + 1 < s.nextId then Stale(cfg, t, t.live[i]) else Current(cfg, t, t.live[i]))
  {
    if !s.live[a.id].rolledBack { PlainOwnerIsLatest(cfg, s, a.id); }
    if i + 1 < s.nextId {
      assert Stale(cfg, s, s.live[i]);
    } else {
      assert Current(cfg, s, s.live[i]);
      if s.live[i].releasedAt.None? && s.live[a.id].rolledBack { LatestOwnsAlone(cfg, s, i, a.id); }
    }
  }

  lemma WriteKeepsInv(cfg: Config, s: State, a: Action)
    requires a.Renew? || a.Release? || a.Finish? || a.RetryLater?
    requires cfg.Valid() && Inv(cfg, s) && SafeReleases(cfg, s) && Apply(cfg, s, a).Some?
    ensures Inv(cfg, Apply(cfg, s, a).value)
  {
    var t := Apply(cfg, s, a).value;
    if !s.live[a.id].rolledBack { PlainOwnerIsLatest(cfg, s, a.id); }
    forall i | i in t.live && i != a.id && !t.live[i].rolledBack
      ensures if i + 1 < t.nextId then Stale(cfg, t, t.live[i]) else Current(cfg, t, t.live[i])
    {
      WriteKeepsOthers(cfg, s, a, i);
    }
  }

  lemma RolledBackKeepsInv(cfg: Config, s: State, id: nat)
    requires cfg.Valid() && Inv(cfg, s) && SafeReleases(cfg, s) && Apply(cfg, s, RolledBack(id)).Some?
    ensures Inv(cfg, Apply(cfg, s, RolledBack(id)).value)
  {
    PlainOwnerIsLatest(cfg, s, id);
    var t := Apply(cfg, s, RolledBack(id)).value;
    forall i | i in t.live && !t.live[i].rolledBack && i + 1 < t.nextId ensures Stale(cfg, t, t.live[i]) {
      assert Stale(cfg, s, s.live[i]);
    }
  }

  lemma OtherStepKeepsInv(cfg: Config, s: State, a: Action)
    requires a.Tick? || a.Enter? || a.Vanish? || a.AdminRetry?
    requires cfg.Valid() && Inv(cfg, s) && Apply(cfg, s, a).Some?
    ensures Inv(cfg, Apply(cfg, s, a).value)
  {
    var t := Apply(cfg, s, a).value;
    forall i | i in t.live && !t.live[i].rolledBack
      ensures if i + 1 < t.nextId then Stale(cfg, t, t.live[i]) else Current(cfg, t, t.live[i])
    {
      if i + 1 < s.nextId { assert Stale(cfg, s, s.live[i]); } else { assert Current(cfg, s, s.live[i]); }
    }
  }

  lemma StepKeepsInv(cfg: Config, s: State, a: Action)
    requires cfg.Valid() && Inv(cfg, s) && SafeReleases(cfg, s) && Apart(s, a) && Apply(cfg, s, a).Some?
    ensures Inv(cfg, Apply(cfg, s, a).value)
  {
    match a
    case Claim => ClaimKeepsInv(cfg, s);
    case RolledBack(id) => RolledBackKeepsInv(cfg, s, id);
    case Renew(_) => WriteKeepsInv(cfg, s, a);
    case Release(_) => WriteKeepsInv(cfg, s, a);
    case RetryLater(_) => WriteKeepsInv(cfg, s, a);
    case Finish(_, _) => WriteKeepsInv(cfg, s, a);
    case _ => OtherStepKeepsInv(cfg, s, a);
  }

  // ------------------------------------------------------------------ quiet states

  // Rolled back attempts wait for nothing any more: none but the latest still
  // owns the row, and the latest only if its stamp did not change.
  ghost predicate Quiet(s: State) {
    forall i :: i in s.live && s.live[i].rolledBack ==>
      if i + 1 < s.nextId then s.live[i].startedAt < s.last
      else
        && s.live[i].claimedAt == s.last && s.row.status == Received && s.row.startedAt.Some?
        && if s.live[i].releasedAt.Some? then s.row.attempts < s.live[i].number
           else s.row.attempts == s.live[i].number && s.last <= s.row.startedAt.value <= s.live[i].startedAt
  }

  lemma OnlyLatestOwns(cfg: Config, s: State, i: nat)
    requires cfg.Valid() && Inv(cfg, s) && Quiet(s) && Safe(cfg, s)
    requires i in s.live && Owns(s.row, s.live[i])
    ensures i + 1 == s.nextId && s.live[i].releasedAt.None? && s.live[i].claimedAt == s.last
  {
    if !s.live[i].rolledBack { PlainOwnerIsLatest(cfg, s, i); }
  }

  lemma WriteKeepsQuiet(cfg: Config, s: State, a: Action)
    requires a.Renew? || a.Release? || a.Finish? || a.RetryLater?
    requires cfg.Valid() && Inv(cfg, s) && Quiet(s) && Safe(cfg, s) && Apply(cfg, s, a).Some?
    ensures Quiet(Apply(cfg, s, a).value)
  {
    OnlyLatestOwns(cfg, s, a.id);
  }

  lemma RolledBackKeepsQuiet(cfg: Config, s: State, id: nat)
    requires cfg.Valid() && Inv(cfg, s) && Quiet(s) && Safe(cfg, s) && Apply(cfg, s, RolledBack(id)).Some?
    ensures Quiet(Apply(cfg, s, RolledBack(id)).value)
  {
    PlainOwnerIsLatest(cfg, s, id);
  }

  lemma OtherStepKeepsQuiet(cfg: Config, s: State, a: Action)
    requires a.Tick? || a.Claim? || a.Enter? || a.Vanish? || a.AdminRetry?
    requires cfg.Valid() && Quiet(s) && Apart(s, a) && Inv(cfg, s) && Apply(cfg, s, a).Some?
    ensures Quiet(Apply(cfg, s, a).value)
  {
  }

  lemma StepKeepsQuiet(cfg: Config, s: State, a: Action)
    requires cfg.Valid() && Inv(cfg, s) && Quiet(s) && Safe(cfg, s) && Apart(s, a) && Apply(cfg, s, a).Some?
    ensures Quiet(Apply(cfg, s, a).value)
  {
    match a
    case RolledBack(id) => RolledBackKeepsQuiet(cfg, s, id);
    case Renew(_) => WriteKeepsQuiet(cfg, s, a);
    case Release(_) => WriteKeepsQuiet(cfg, s, a);
    case RetryLater(_) => WriteKeepsQuiet(cfg, s, a);
    case Finish(_, _) => WriteKeepsQuiet(cfg, s, a);
    case _ => OtherStepKeepsQuiet(cfg, s, a);
  }

  // ------------------------------------------------------------------ safe runs

  lemma {:induction false} SafeRunKeepsInv(cfg: Config, s: State, actions: seq<Action>, quiet: bool)
    requires cfg.Valid() && Inv(cfg, s) && (quiet ==> Quiet(s)) && SafeRun(cfg, s, actions, quiet)
    ensures
      match Exec(cfg, s, actions)
      case None => true
      case Some(t) => Inv(cfg, t) && SafeReleases(cfg, t) && (quiet ==> Quiet(t) && SafeRollbacks(cfg, t))
    decreases |actions|
  {
    if actions != [] && Apply(cfg, s, actions[0]).Some? {
      StepKeepsInv(cfg, s, actions[0]);
      if quiet { StepKeepsQuiet(cfg, s, actions[0]); }
      SafeRunKeepsInv(cfg, Apply(cfg, s, actions[0]).value, actions[1..], quiet);
    }
  }

  // Every safe run is fenced, however stale attempts interleave: when rolled back
  // attempts are safe too, entirely; otherwise as far as anything is stored.
  lemma SafeRunIsFenced(cfg: Config, start: int, actions: seq<Action>, quiet: bool)
    requires cfg.Valid() && SafeRun(cfg, Init(start), actions, quiet)
    ensures
      match Exec(cfg, Init(start), actions)
      case None => true
      case Some(t) => PlainFenced(t) && (quiet ==> Fenced(t))
  {
    SafeRunKeepsInv(cfg, Init(start), actions, quiet);
    if Exec(cfg, Init(start), actions).Some? {
      var t := Exec(cfg, Init(start), actions).value;
      forall i | i in t.live && Owns(t.row, t.live[i]) && (quiet || !t.live[i].rolledBack)
        ensures i + 1 == t.nextId && t.live[i].releasedAt.None?
      {
        if quiet { OnlyLatestOwns(cfg, t, i); } else { PlainOwnerIsLatest(cfg, t, i); }
      }
    }
  }

  // So at most one write matches at a time.
  lemma FencedMeansOneOwner(s: State, i: nat, j: nat)
    requires Fenced(s) && i in s.live && j in s.live && Owns(s.row, s.live[i]) && Owns(s.row, s.live[j])
    ensures i == j
  {
  }

  lemma LimitsAreSafe(cfg: Config, lim: Limits, s: State)
    requires cfg.Valid() && WithinLimits(lim, s) && Inv(cfg, s)
    ensures SuitsReleases(cfg, lim) ==> SafeReleases(cfg, s)
    ensures SuitsRollbacks(cfg, lim) ==> SafeRollbacks(cfg, s)
  {
  }

  lemma {:induction false} LimitedRunIsSafe(cfg: Config, lim: Limits, s: State, actions: seq<Action>, quiet: bool)
    requires cfg.Valid() && Inv(cfg, s) && LimitedRun(cfg, lim, s, actions)
    requires lim.apart && SuitsReleases(cfg, lim) && (quiet ==> SuitsRollbacks(cfg, lim))
    ensures SafeRun(cfg, s, actions, quiet)
    decreases |actions|
  {
    LimitsAreSafe(cfg, lim, s);
    if actions != [] && Apply(cfg, s, actions[0]).Some? {
      StepKeepsInv(cfg, s, actions[0]);
      LimitedRunIsSafe(cfg, lim, Apply(cfg, s, actions[0]).value, actions[1..], quiet);
    }
  }

  // ------------------------------------------------------------------ lost for good

  ghost predicate Adrift(s: State, id: nat) {
    id < s.nextId && (id in s.live ==> s.live[id].rolledBack && !Owns(s.row, s.live[id]))
  }

  lemma StepKeepsAdrift(cfg: Config, s: State, a: Action, id: nat)
    requires cfg.Valid() && Inv(cfg, s) && Quiet(s) && Safe(cfg, s) && Apart(s, a) && Apply(cfg, s, a).Some?
    requires Adrift(s, id) && SafeRollbacks(cfg, Apply(cfg, s, a).value) && SafeReleases(cfg, Apply(cfg, s, a).value)
    ensures Adrift(Apply(cfg, s, a).value, id)
  {
    StepKeepsInv(cfg, s, a);
    StepKeepsQuiet(cfg, s, a);
    var t := Apply(cfg, s, a).value;
    if id in t.live && Owns(t.row, t.live[id]) {
      OnlyLatestOwns(cfg, t, id);
    }
  }

  // In a quiet run an attempt that lost its claim by a rolled back renewal never
  // gets it back: what it still has to clean up stays.
  lemma {:induction false} LostForGood(cfg: Config, s: State, actions: seq<Action>, id: nat)
    requires cfg.Valid() && Inv(cfg, s) && Quiet(s) && SafeRun(cfg, s, actions, true) && Adrift(s, id)
    ensures
      match Exec(cfg, s, actions)
      case None => true
      case Some(t) => Adrift(t, id)
    decreases |actions|
  {
    if actions != [] && Apply(cfg, s, actions[0]).Some? {
      StepKeepsInv(cfg, s, actions[0]);
      StepKeepsQuiet(cfg, s, actions[0]);
      StepKeepsAdrift(cfg, s, actions[0], id);
      LostForGood(cfg, Apply(cfg, s, actions[0]).value, actions[1..], id);
    }
  }

  // ------------------------------------------------------------------ concrete runs

  ghost predicate Leads(cfg: Config, lim: Limits, s: State, actions: seq<Action>, t: State) {
    Exec(cfg, s, actions) == Some(t) && LimitedRun(cfg, lim, s, actions)
  }

  ghost predicate MayStep(cfg: Config, lim: Limits, s: State, a: Action) {
    (lim.apart ==> Apart(s, a)) && Apply(cfg, s, a).Some? && WithinLimits(lim, Apply(cfg, s, a).value)
  }

  lemma {:induction false} LeadsOn(cfg: Config, lim: Limits, s: State, actions: seq<Action>, t: State, a: Action)
    requires Leads(cfg, lim, s, actions, t) && MayStep(cfg, lim, t, a)
    ensures Leads(cfg, lim, s, actions + [a], Apply(cfg, t, a).value)
    decreases |actions|
  {
    if actions == [] {
      assert ([] + [a])[1..] == [];
      assert LimitedRun(cfg, lim, Apply(cfg, t, a).value, []);
      assert Exec(cfg, Apply(cfg, t, a).value, []) == Apply(cfg, t, a);
    } else {
      assert (actions + [a])[0] == actions[0] && (actions + [a])[1..] == actions[1..] + [a];
      LeadsOn(cfg, lim, Apply(cfg, s, actions[0]).value, actions[1..], t, a);
    }
  }

  // Some run within the limits leads here from the received row.
  ghost predicate Reached(cfg: Config, lim: Limits, s: State) {
    exists run :: Leads(cfg, lim, Init(0), run, s)
  }

  lemma Begin(cfg: Config, lim: Limits)
    ensures Reached(cfg, lim, Init(0))
  {
    assert Leads(cfg, lim, Init(0), [], Init(0));
  }

  lemma Next(cfg: Config, lim: Limits, s: State, a: Action) returns (t: State)
    requires Reached(cfg, lim, s) && MayStep(cfg, lim, s, a)
    ensures Apply(cfg, s, a) == Some(t) && Reached(cfg, lim, t)
  {
    var run :| Leads(cfg, lim, Init(0), run, s);
    LeadsOn(cfg, lim, Init(0), run, s, a);
    t := Apply(cfg, s, a).value;
  }

  // Claimed and released `wait` later.
  lemma Handover(cfg: Config, lim: Limits, wait: nat) returns (t: State)
    requires cfg.Valid()
    ensures Reached(cfg, lim, t)
    ensures t.now == wait && t.nextId == 1 && t.row == Row(Received, 0, Some(wait - cfg.leaseMs + cfg.retryDelayMs))
    ensures t.live == map[0 := Attempt(1, 0, 0, Some(wait), false, false)] && t.ledger == []
  {
    Begin(cfg, lim);
    t := Next(cfg, lim, Init(0), Claim);
    assert t.live == map[0 := Attempt(1, 0, 0, None, false, false)] && t.ledger == [Entry(0, 1, 0, false, false)];
    t := Next(cfg, lim, t, Tick(wait));
    assert Without([Entry(0, 1, 0, false, false)], 0) == [];
    t := Next(cfg, lim, t, Release(0));
    assert t.live == map[0 := Attempt(1, 0, 0, Some(wait), false, false)];
  }

  // A claim tried again later puts the lease start back to where the released
  // attempt had it, under the same number: that attempt owns the row again.
  lemma Revival(cfg: Config, lim: Limits) returns (t: State)
    requires cfg.Valid() && !SuitsReleases(cfg, lim)
    ensures Reached(cfg, lim, t)
    ensures
      var r, c := cfg.leaseMs - 2 * cfg.retryDelayMs - 1, cfg.leaseMs - cfg.retryDelayMs;
      && t.now == c && t.row == Row(Received, 1, Some(0)) && t.nextId == 2
      && t.live == map[0 := Attempt(1, 0, 0, Some(r), false, false)] && t.ledger == [Entry(1, 1, c, false, true)]
  {
    var r, c := cfg.leaseMs - 2 * cfg.retryDelayMs - 1, cfg.leaseMs - cfg.retryDelayMs;
    t := Handover(cfg, lim, r);
    t := Next(cfg, lim, t, Tick(cfg.retryDelayMs + 1));
    t := Next(cfg, lim, t, Claim);
    assert t.row == Row(Received, 1, Some(c)) && t.live[1] == Attempt(1, c, c, None, false, false);
    t := Next(cfg, lim, t, RetryLater(1));
    assert t.live == map[0 := Attempt(1, 0, 0, Some(r), false, false)];
  }

  // Attempt 0 as it is after a renewal at `stamp` was rolled back.
  function Orphan(stamp: int): Attempt {
    Attempt(1, 0, stamp, None, true, true)
  }

  // A renewal of the first attempt is rolled back at `stamp`.
  lemma Orphaned(cfg: Config, lim: Limits, stamp: nat) returns (t: State)
    requires cfg.Valid()
    ensures Reached(cfg, lim, t)
    ensures t.now == stamp && t.nextId == 1 && t.row == Row(Received, 1, Some(0)) && t.live == map[0 := Orphan(stamp)]
  {
    Begin(cfg, lim);
    t := Next(cfg, lim, Init(0), Claim);
    t := Next(cfg, lim, t, Enter(0));
    assert t.live == map[0 := Attempt(1, 0, 0, None, true, false)];
    t := Next(cfg, lim, t, Tick(stamp));
    t := Next(cfg, lim, t, RolledBack(0));
  }

  // The lease has run out: the next attempt fails, and an admin retries.
  lemma Reset(cfg: Config, lim: Limits, s: State, stamp: int) returns (t: State)
    requires cfg.Valid() && Reached(cfg, lim, s) && WithinLimits(lim, s)
    requires cfg.leaseMs < s.now && s.nextId == 1 && s.row == Row(Received, 1, Some(0)) && s.live == map[0 := Orphan(stamp)]
    requires lim.apart ==> stamp < s.now
    ensures Reached(cfg, lim, t)
    ensures t.now == s.now && t.nextId == 2 && t.row == ReceivedRow && t.live == map[0 := Orphan(stamp)] && t.ledger == []
  {
    t := Next(cfg, lim, s, Claim);
    assert t.live == map[0 := Orphan(stamp), 1 := Attempt(2, s.now, s.now, None, false, false)];
    t := Next(cfg, lim, t, Finish(1, Failed));
    assert t.live == map[0 := Orphan(stamp)];
    t := Next(cfg, lim, t, AdminRetry);
  }

  // Tried again later, the row is back at the stamp of the rolled back renewal.
  lemma OrphanRevived(cfg: Config, lim: Limits) returns (t: State)
    requires cfg.Valid() && !SuitsRollbacks(cfg, lim)
    ensures Reached(cfg, lim, t) && WithinLimits(lim, t)
    ensures
      var stamp := cfg.retryDelayMs + 1;
      && t.now == cfg.leaseMs + 1 && t.nextId == 3 && t.row == Row(Received, 1, Some(stamp)) && t.live == map[0 := Orphan(stamp)]
      && t.ledger == [Entry(2, 1, cfg.leaseMs + 1, false, true)]
  {
    var stamp := cfg.retryDelayMs + 1;
    t := Orphaned(cfg, lim, stamp);
    t := Next(cfg, lim, t, Tick(cfg.leaseMs - cfg.retryDelayMs));
    t := Reset(cfg, lim, t, stamp);
    t := Next(cfg, lim, t, Claim);
    assert t.live == map[0 := Orphan(stamp), 2 := Attempt(1, t.now, t.now, None, false, false)];
    t := Next(cfg, lim, t, RetryLater(2));
    assert t.live == map[0 := Orphan(stamp)];
  }

  // Claimed in the millisecond of the rolled back renewal: two keys are the same.
  lemma SameStamp(cfg: Config, lim: Limits) returns (t: State)
    requires cfg.Valid() && !lim.apart
    ensures Reached(cfg, lim, t) && WithinLimits(lim, t)
    ensures
      var stamp := cfg.leaseMs + 1;
      && t.now == stamp && t.nextId == 3 && t.row == Row(Received, 1, Some(stamp))
      && t.live == map[0 := Orphan(stamp), 2 := Attempt(1, stamp, stamp, None, false, false)]
      && t.ledger == [Entry(2, 1, stamp, false, false)]
  {
    var stamp := cfg.leaseMs + 1;
    t := Orphaned(cfg, lim, stamp);
    t := Reset(cfg, lim, t, stamp);
    t := Next(cfg, lim, t, Claim);
  }

  // The rolled back attempt records FAILED, and after another retry two
  // attempts of which nothing was rolled back have one key.
  lemma TwoOwners(cfg: Config, lim: Limits) returns (t: State)
    requires cfg.Valid() && !lim.apart
    ensures Reached(cfg, lim, t) && t.nextId == 4
    ensures 2 in t.live && Owns(t.row, t.live[2]) && !t.live[2].rolledBack
  {
    var stamp := cfg.leaseMs + 1;
    t := SameStamp(cfg, lim);
    t := Next(cfg, lim, t, Finish(0, Failed));
    assert t.live == map[2 := Attempt(1, stamp, stamp, None, false, false)];
    t := Next(cfg, lim, t, AdminRetry);
    t := Next(cfg, lim, t, Claim);
  }

  // ------------------------------------------------------------------ fencing, exactly

  ghost predicate AlwaysFenced(cfg: Config, lim: Limits) {
    forall start: int, actions: seq<Action> ::
      LimitedRun(cfg, lim, Init(start), actions) ==>
        match Exec(cfg, Init(start), actions) case None => true case Some(t) => Fenced(t)
  }

  ghost predicate AlwaysPlainFenced(cfg: Config, lim: Limits) {
    forall start: int, actions: seq<Action> ::
      LimitedRun(cfg, lim, Init(start), actions) ==>
        match Exec(cfg, Init(start), actions) case None => true case Some(t) => PlainFenced(t)
  }

  // A run within the limits that ends in a state without the property.
  lemma Unfenced(cfg: Config, lim: Limits) returns (t: State)
    requires cfg.Valid() && !Suits(cfg, lim)
    ensures Reached(cfg, lim, t) && !Fenced(t)
  {
    if !SuitsReleases(cfg, lim) {
      t := Revival(cfg, lim);
    } else if !SuitsRollbacks(cfg, lim) {
      t := OrphanRevived(cfg, lim);
    } else {
      t := SameStamp(cfg, lim);
    }
    assert 0 in t.live && Owns(t.row, t.live[0]);
  }

  lemma PlainUnfenced(cfg: Config, lim: Limits) returns (t: State)
    requires cfg.Valid() && !(lim.apart && SuitsReleases(cfg, lim))
    ensures Reached(cfg, lim, t) && !PlainFenced(t)
  {
    if !SuitsReleases(cfg, lim) {
      t := Revival(cfg, lim);
      assert 0 in t.live && Owns(t.row, t.live[0]);
    } else {
      t := TwoOwners(cfg, lim);
    }
  }

  // Main result: the claim's promise holds in all runs within the limits exactly
  // when the settings suit all three of them.
  lemma FencedIff(cfg: Config, lim: Limits)
    requires cfg.Valid()
    ensures AlwaysFenced(cfg, lim) <==> Suits(cfg, lim)
  {
    if Suits(cfg, lim) {
      forall start: int, actions: seq<Action> | LimitedRun(cfg, lim, Init(start), actions)
        ensures match Exec(cfg, Init(start), actions) case None => true case Some(t) => Fenced(t)
      {
        LimitedRunIsSafe(cfg, lim, Init(start), actions, true);
        SafeRunIsFenced(cfg, start, actions, true);
      }
    } else {
      var t := Unfenced(cfg, lim);
      var run :| Leads(cfg, lim, Init(0), run, t);
    }
  }

  // For the attempts that may still store something, however long rolled back
  // ones run on, exactly when they suit the other two.
  lemma PlainFencedIff(cfg: Config, lim: Limits)
    requires cfg.Valid()
    ensures AlwaysPlainFenced(cfg, lim) <==> lim.apart && SuitsReleases(cfg, lim)
  {
    if lim.apart && SuitsReleases(cfg, lim) {
      forall start: int, actions: seq<Action> | LimitedRun(cfg, lim, Init(start), actions)
        ensures match Exec(cfg, Init(start), actions) case None => true case Some(t) => PlainFenced(t)
      {
        LimitedRunIsSafe(cfg, lim, Init(start), actions, false);
        SafeRunIsFenced(cfg, start, actions, false);
      }
    } else {
      var t := PlainUnfenced(cfg, lim);
      var run :| Leads(cfg, lim, Init(0), run, t);
    }
  }

  // In all runs whatever, no settings do.
  lemma NoSettingsFenceAllRuns(cfg: Config)
    requires cfg.Valid()
    ensures exists run :: Exec(cfg, Init(0), run).Some? && !PlainFenced(Exec(cfg, Init(0), run).value)
  {
    var t := TwoOwners(cfg, Unlimited);
    var run :| Leads(cfg, Unlimited, Init(0), run, t);
  }

  // ------------------------------------------------------------------ the program as shipped

  // src/shutdown.js: the process exits this long after the signal at the
  // latest, and releases its jobs only after the signal.
  const SHUTDOWN_DEADLINE_MS := 8_000

  // With the default settings the program's runs are fenced if and only if an
  // attempt is over within 9 minutes of a rolled back renewal.
  lemma DefaultsAsShipped(after: nat)
    ensures AlwaysFenced(QUEUE_DEFAULTS, Limits(Some(SHUTDOWN_DEADLINE_MS), Some(after), true)) <==> after < 540_000
    ensures AlwaysPlainFenced(QUEUE_DEFAULTS, Limits(Some(SHUTDOWN_DEADLINE_MS), None, true))
    ensures !AlwaysPlainFenced(QUEUE_DEFAULTS, Limits(None, Some(after), true))
    ensures !AlwaysPlainFenced(QUEUE_DEFAULTS, Limits(Some(QUEUE_DEFAULTS.retryDelayMs + 1), Some(after), true))
  {
    FencedIff(QUEUE_DEFAULTS, Limits(Some(SHUTDOWN_DEADLINE_MS), Some(after), true));
    PlainFencedIff(QUEUE_DEFAULTS, Limits(Some(SHUTDOWN_DEADLINE_MS), None, true));
    PlainFencedIff(QUEUE_DEFAULTS, Limits(None, Some(after), true));
    PlainFencedIff(QUEUE_DEFAULTS, Limits(Some(QUEUE_DEFAULTS.retryDelayMs + 1), Some(after), true));
  }
}
