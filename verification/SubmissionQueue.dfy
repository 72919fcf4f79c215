/** The background worker's code around the lease (src/services/submissionQueue.js):
    finding and claiming a submission by compare-and-swap, the claim object,
    processing one claimed submission, and draining the queue. The writes are
    those of module Lease. */
module SubmissionQueue {
  import opened Common
  import opened Lease

  datatype Submission = Submission(row: Row, created: int, placementPath: Option<string>)

  type Rows = map<nat, Submission>

  const CLAIM_TRIES := 5

  // ------------------------------------------------------------------ the table

  // A conditional update: the row still has this status, attempt count and lease start.
  predicate Matches(rows: Rows, id: nat, key: Row) {
    id in rows && rows[id].row == key
  }

  function Written(rows: Rows, id: nat, row: Row, path: Option<string>): Rows
    requires id in rows
  {
    rows[id := rows[id].(row := row, placementPath := if path.Some? then path else rows[id].placementPath)]
  }

  // What a conditional write leaves: one row has the new key, and the path if
  // one is given; nothing else is different.
  lemma WrittenMeaning(rows: Rows, id: nat, row: Row, path: Option<string>)
    requires id in rows
    ensures
      var after := Written(rows, id, row, path);
      && after.Keys == rows.Keys && (forall other :: other in rows && other != id ==> after[other] == rows[other])
      && after[id].row == row && after[id].created == rows[id].created
      && (path.Some? ==> after[id].placementPath == path)
      && (path.None? ==> after[id].placementPath == rows[id].placementPath)
  {
  }

  predicate Waiting(cfg: Config, rows: Rows, now: int, id: nat) {
    id in rows && Claimable(cfg, rows[id].row, now)
  }

  predicate Before(rows: Rows, a: nat, b: nat)
    requires a in rows && b in rows
  {
    rows[a].created < rows[b].created || (rows[a].created == rows[b].created && a < b)
  }

  ghost predicate NoneWaiting(cfg: Config, rows: Rows, now: int) {
    forall id :: id in rows ==> !Waiting(cfg, rows, now, id)
  }

  // The oldest waiting submission.
  ghost predicate IsNext(cfg: Config, rows: Rows, now: int, id: nat) {
    && Waiting(cfg, rows, now, id)
    && forall other :: other in rows && other != id && Waiting(cfg, rows, now, other) ==> Before(rows, id, other)
  }

  // ------------------------------------------------------------------ claiming

  // `seen[2k]` and `seen[2k + 1]` are the rows at the k-th read and the k-th
  // conditional update: other workers write in between as they like.
  ghost predicate LostRace(cfg: Config, seen: seq<Rows>, now: int, k: nat)
    requires 2 * k + 1 < |seen|
  {
    exists id :: IsNext(cfg, seen[2 * k], now, id) && !Matches(seen[2 * k + 1], id, seen[2 * k][id].row)
  }

  ghost predicate WonRace(cfg: Config, seen: seq<Rows>, now: int, k: nat, id: nat, sub: Submission, after: Rows)
    requires 2 * k + 1 < |seen|
  {
    && IsNext(cfg, seen[2 * k], now, id)
    && Matches(seen[2 * k + 1], id, seen[2 * k][id].row)
    && sub == seen[2 * k][id].(row := ClaimRow(seen[2 * k][id].row, now))
    && after == Written(seen[2 * k + 1], id, sub.row, None)
  }

  ghost predicate LostAll(cfg: Config, seen: seq<Rows>, now: int, k: nat)
    requires 2 * k <= |seen|
  {
    forall j: nat :: j < k ==> LostRace(cfg, seen, now, j)
  }

  ghost predicate ClaimOutcome(cfg: Config, seen: seq<Rows>, now: int, r: Option<(nat, Submission)>, after: Rows)
    requires |seen| == 2 * CLAIM_TRIES
  {
    match r
    case Some((id, sub)) =>
      exists k: nat :: k < CLAIM_TRIES && LostAll(cfg, seen, now, k) && WonRace(cfg, seen, now, k, id, sub, after)
    case None =>
      || (LostAll(cfg, seen, now, CLAIM_TRIES) && after == seen[|seen| - 1])
      || exists k: nat :: k < CLAIM_TRIES && LostAll(cfg, seen, now, k) && NoneWaiting(cfg, seen[2 * k], now) && after == seen[2 * k]
  }

  class Table {
    var rows: Rows

    constructor (rows: Rows)
      ensures this.rows == rows
    {
      this.rows := rows;
    }

    // SELECT ... ORDER BY created_date, temporary_id LIMIT 1
    method FindFirst(cfg: Config, now: int) returns (r: Option<nat>)
      ensures r.None? ==> NoneWaiting(cfg, rows, now)
      ensures r.Some? ==> IsNext(cfg, rows, now, r.value)
    {
      r := None;
      var rest := rows.Keys;
      while rest != {}
        invariant rest <= rows.Keys
        invariant r.Some? ==> r.value !in rest && Waiting(cfg, rows, now, r.value)
        invariant forall id :: id in rows && id !in rest && Waiting(cfg, rows, now, id) ==>
                    r.Some? && (id != r.value ==> Before(rows, r.value, id))
        decreases |rest|
      {
        var id :| id in rest;
        rest := rest - {id};
        if Waiting(cfg, rows, now, id) && (r.None? || Before(rows, id, r.value)) {
          r := Some(id);
        }
      }
    }

    method UpdateMany(id: nat, key: Row, row: Row, path: Option<string>) returns (count: nat)
      modifies this
      ensures count == if Matches(old(rows), id, key) then 1 else 0
      ensures rows == if Matches(old(rows), id, key) then Written(old(rows), id, row, path) else old(rows)
    {
      if Matches(rows, id, key) {
        rows := Written(rows, id, row, path);
        return 1;
      }
      return 0;
    }

    method ClaimNext(cfg: Config, now: int, seen: seq<Rows>) returns (r: Option<(nat, Submission)>)
      requires |seen| == 2 * CLAIM_TRIES
      modifies this
      ensures ClaimOutcome(cfg, seen, now, r, rows)
    {
      var tries := 0;
      while tries < CLAIM_TRIES
        invariant 0 <= tries <= CLAIM_TRIES
        invariant LostAll(cfg, seen, now, tries)
        invariant tries > 0 ==> rows == seen[2 * tries - 1]
      {
        rows := seen[2 * tries];
        var candidate := FindFirst(cfg, now);
        if candidate.None? { return None; }
        var sub := rows[candidate.value];
        rows := seen[2 * tries + 1];
        var count := UpdateMany(candidate.value, sub.row, ClaimRow(sub.row, now), None);
        if count == 1 {
          assert WonRace(cfg, seen, now, tries, candidate.value, sub.(row := ClaimRow(sub.row, now)), rows);
          return Some((candidate.value, sub.(row := ClaimRow(sub.row, now))));
        }
        assert LostRace(cfg, seen, now, tries);
        tries := tries + 1;
      }
      return None;
    }
  }

  // Reading and then updating conditionally is one atomic claim: at the moment
  // of the update the row was claimable, and the write is the lease's own.
  lemma ClaimIsAtomic(cfg: Config, seen: seq<Rows>, now: int, id: nat, sub: Submission, after: Rows)
    requires |seen| == 2 * CLAIM_TRIES && ClaimOutcome(cfg, seen, now, Some((id, sub)), after)
    ensures exists k: nat ::
      && k < CLAIM_TRIES && var at := seen[2 * k + 1];
      && id in at && Claimable(cfg, at[id].row, now)
      && after == at[id := at[id].(row := ClaimRow(at[id].row, now))]
      && sub.row == after[id].row
  {
    var k: nat :| k < CLAIM_TRIES && LostAll(cfg, seen, now, k) && WonRace(cfg, seen, now, k, id, sub, after);
    assert Claimable(cfg, seen[2 * k + 1][id].row, now);
  }

  lemma NextIsUnique(cfg: Config, rows: Rows, now: int, a: nat, b: nat)
    requires IsNext(cfg, rows, now, a) && IsNext(cfg, rows, now, b)
    ensures a == b
  {
  }

  lemma {:induction false} OldestOf(rows: Rows, ids: set<nat>) returns (first: nat)
    requires ids != {} && ids <= rows.Keys
    ensures first in ids
    ensures forall id :: id in ids && id != first ==>
      rows[first].created <= rows[id].created && (rows[first].created == rows[id].created ==> first < id)
    decreases |ids|
  {
    first :| first in ids;
    if ids != {first} {
      assert ids - {first} != {};
      var other := OldestOf(rows, ids - {first});
      if rows[other].created < rows[first].created || (rows[other].created == rows[first].created && other < first) { first := other; }
    }
  }

  // Something is next whenever anything waits: received longest ago, and of
  // those received together the one with the smallest ID.
  lemma NextMeaning(cfg: Config, rows: Rows, now: int)
    ensures NoneWaiting(cfg, rows, now) <==> forall id :: !IsNext(cfg, rows, now, id)
    ensures forall a, b :: IsNext(cfg, rows, now, a) && Waiting(cfg, rows, now, b) ==>
      rows[a].created <= rows[b].created && (rows[a].created == rows[b].created ==> a <= b)
  {
    if !NoneWaiting(cfg, rows, now) {
      var ids := set id | id in rows && Waiting(cfg, rows, now, id);
      var id :| id in rows && Waiting(cfg, rows, now, id);
      assert id in ids;
      var first := OldestOf(rows, ids);
      assert IsNext(cfg, rows, now, first);
    }
  }

  // Of two workers that read the same candidate only one claims it.
  lemma SecondUpdateMisses(rows: Rows, id: nat, key: Row, now: int, later: int)
    requires Matches(rows, id, key)
    ensures
      var first := Written(rows, id, ClaimRow(key, now), None);
      !Matches(first, id, key) && Owns(first[id].row, Attempt(key.attempts + 1, now, now, None, false, false)) == (key.status == Received)
  {
  }

  // Undisturbed, the oldest waiting submission is claimed at the first try,
  // and nothing is claimed only when none is waiting.
  lemma QuietClaimTakesTheOldest(cfg: Config, rows: Rows, seen: seq<Rows>, now: int, r: Option<(nat, Submission)>, after: Rows)
    requires |seen| == 2 * CLAIM_TRIES && ClaimOutcome(cfg, seen, now, r, after)
    requires forall k :: 0 <= k < |seen| ==> seen[k] == rows
    ensures r.None? <==> NoneWaiting(cfg, rows, now)
    ensures r.None? ==> after == rows
    ensures forall id :: IsNext(cfg, rows, now, id) <==> r.Some? && r.value.0 == id
    ensures r.Some? ==>
      && r.value.1 == rows[r.value.0].(row := ClaimRow(rows[r.value.0].row, now))
      && after == rows[r.value.0 := r.value.1]
  {
    assert seen[0] == rows && seen[1] == rows;
    assert !LostRace(cfg, seen, now, 0);
    match r
    case None =>
      assert !LostAll(cfg, seen, now, CLAIM_TRIES);
    case Some((id, sub)) =>
      var k: nat :| k < CLAIM_TRIES && LostAll(cfg, seen, now, k) && WonRace(cfg, seen, now, k, id, sub, after);
      assert Waiting(cfg, seen[2 * k], now, id);
      forall other | IsNext(cfg, rows, now, other) ensures other == id {
        NextIsUnique(cfg, rows, now, id, other);
      }
  }

  // ------------------------------------------------------------------ the claim

  function Key(a: Attempt): Row {
    Row(Received, a.number, Some(a.startedAt))
  }

  // createClaim's object: `startedAt` moves with each renewal.
  class Claim {
    const table: Table
    const temporaryId: nat
    const number: int
    const claimedAt: int
    const earlierPlacementPath: Option<string>
    var startedAt: int

    constructor (table: Table, id: nat, sub: Submission, now: int)
      ensures this.table == table && temporaryId == id && earlierPlacementPath == sub.placementPath
      ensures View() == Attempt(sub.row.attempts, now, now, None, false, false)
    {
      this.table := table;
      temporaryId, number, claimedAt, earlierPlacementPath := id, sub.row.attempts, now, sub.placementPath;
      startedAt := now;
    }

    function View(): Attempt
      reads this
    {
      Attempt(number, claimedAt, startedAt, None, false, false)
    }

    // where(): does this attempt still own its row?
    predicate Holds()
      reads this, table
      ensures Holds() <==> temporaryId in table.rows && Owns(table.rows[temporaryId].row, View())
    {
      Matches(table.rows, temporaryId, Key(View()))
    }

    method Renew(at: int, placementPath: Option<string>) returns (ok: bool)
      modifies this`startedAt, table
      ensures ok == old(Holds())
      ensures ok ==>
        && table.rows == Written(old(table.rows), temporaryId, RenewRow(old(table.rows)[temporaryId].row, at), placementPath)
        && View() == old(View()).(startedAt := at) && Holds()
      ensures !ok ==> table.rows == old(table.rows) && View() == old(View())
    {
      var count := table.UpdateMany(temporaryId, Key(View()), Key(View()).(startedAt := Some(at)), placementPath);
      if count != 1 { return false; }
      startedAt := at;
      return true;
    }

    // A renewal inside a transaction that is rolled back afterwards: the row is
    // as before, `startedAt` is not. The claim is lost unless the clock shows
    // the same time as at the last renewal.
    method RenewRolledBack(at: int) returns (ok: bool)
      modifies this`startedAt, table
      ensures ok == old(Holds()) && table.rows == old(table.rows)
      ensures View() == if ok then old(View()).(startedAt := at) else old(View())
      ensures Holds() <==> ok && at == old(startedAt)
    {
      var before := table.rows;
      ok := Renew(at, None);
      table.rows := before;
    }

    method Release(cfg: Config, at: int) returns (ok: bool)
      modifies table
      ensures ok == old(Holds())
      ensures table.rows ==
        if ok then Written(old(table.rows), temporaryId, ReleaseRow(cfg, old(table.rows)[temporaryId].row, View(), at), None)
        else old(table.rows)
    {
      var count := table.UpdateMany(temporaryId, Key(View()),
        Row(Received, number - 1, Some(at - cfg.leaseMs + cfg.retryDelayMs)), None);
      return count == 1;
    }

    method RetryLater(cfg: Config) returns (ok: bool)
      modifies table
      ensures ok == old(Holds())
      ensures table.rows ==
        if ok then Written(old(table.rows), temporaryId, RetryLaterRow(cfg, old(table.rows)[temporaryId].row, View()), None)
        else old(table.rows)
    {
      var count := table.UpdateMany(temporaryId, Key(View()),
        Key(View()).(startedAt := Some(claimedAt - cfg.leaseMs + cfg.retryDelayMs)), None);
      return count == 1;
    }

    // The final conditional write: FAILED, or what the pipeline decided.
    method Finish(status: Status) returns (ok: bool)
      modifies table
      ensures ok == old(Holds())
      ensures table.rows ==
        if ok then Written(old(table.rows), temporaryId, old(table.rows)[temporaryId].row.(status := status), None)
        else old(table.rows)
    {
      var count := table.UpdateMany(temporaryId, Key(View()), Key(View()).(status := status), None);
      return count == 1;
    }
  }

  // ------------------------------------------------------------------ one submission

  // What one attempt meets outside the table: the download and the checksum,
  // the pipeline's renewals (with the path of a copy about to be made; committed,
  // or rolled back with their transaction), and its final write, which may fail
  // for a reason other than a lost claim.
  datatype Job =
    | Unreadable
    | Mismatched
    | Pipeline(renewals: seq<Renewal>, status: Status, recorded: bool)

  datatype Renewal = Renewal(at: int, placementPath: Option<string>, committed: bool)

  datatype Outcome = GaveUp | Retried | StaleDiscarded | PipelineRan

  function FinishSpec(rows: Rows, id: nat, a: Attempt, status: Status, done: Outcome): (Rows, Outcome) {
    if id in rows && Owns(rows[id].row, a) then (Written(rows, id, rows[id].row.(status := status), None), done)
    else (rows, StaleDiscarded)
  }

  function PipelineSpec(rows: Rows, id: nat, a: Attempt, renewals: seq<Renewal>,
                        status: Status, recorded: bool): (Rows, Outcome)
    decreases |renewals|
  {
    if renewals == [] then
      if recorded then FinishSpec(rows, id, a, status, PipelineRan) else (rows, PipelineRan)
    else if id in rows && Owns(rows[id].row, a) then
      PipelineSpec(AfterRenewal(rows, id, renewals[0]), id, a.(startedAt := renewals[0].at), renewals[1..], status, recorded)
    else (rows, StaleDiscarded)
  }

  function AfterRenewal(rows: Rows, id: nat, r: Renewal): Rows
    requires id in rows
  {
    if r.committed then Written(rows, id, RenewRow(rows[id].row, r.at), r.placementPath) else rows
  }

  // Rolled back at another time than that of the last renewal, and not the end.
  predicate Loses(renewals: seq<Renewal>, stamp: int, recorded: bool)
    decreases |renewals|
  {
    renewals != [] &&
    if renewals[0].committed || renewals[0].at == stamp then Loses(renewals[1..], renewals[0].at, recorded)
    else |renewals| > 1 || recorded
  }

  predicate LosesClaim(job: Job, stamp: int) {
    job.Pipeline? && Loses(job.renewals, stamp, job.recorded)
  }

  // The lease start that the row is left with then.
  function LastCommitted(renewals: seq<Renewal>, stamp: int): int
    decreases |renewals|
  {
    if renewals == [] || !(renewals[0].committed || renewals[0].at == stamp) then stamp
    else LastCommitted(renewals[1..], renewals[0].at)
  }

  // processClaimedSubmission as one function of the table.
  function ProcessSpec(cfg: Config, rows: Rows, id: nat, a: Attempt, job: Job): (Rows, Outcome) {
    if a.number > cfg.maxAttempts then FinishSpec(rows, id, a, Failed, GaveUp)
    else match job
      case Unreadable =>
        if a.number >= cfg.maxAttempts then FinishSpec(rows, id, a, Failed, GaveUp)
        else if id in rows && Owns(rows[id].row, a) then (Written(rows, id, RetryLaterRow(cfg, rows[id].row, a), None), Retried)
        else (rows, StaleDiscarded)
      case Mismatched => FinishSpec(rows, id, a, Failed, GaveUp)
      case Pipeline(renewals, status, recorded) => PipelineSpec(rows, id, a, renewals, status, recorded)
  }

  method GiveUp(claim: Claim) returns (o: Outcome)
    modifies claim.table
    ensures (claim.table.rows, o) == FinishSpec(old(claim.table.rows), claim.temporaryId, claim.View(), Failed, GaveUp)
  {
    var ok := claim.Finish(Failed);
    return if ok then GaveUp else StaleDiscarded;
  }

  method RunPipeline(claim: Claim, renewals: seq<Renewal>, status: Status, recorded: bool) returns (o: Outcome)
    modifies claim`startedAt, claim.table
    ensures (claim.table.rows, o)
         == PipelineSpec(old(claim.table.rows), claim.temporaryId, old(claim.View()), renewals, status, recorded)
  {
    var i := 0;
    while i < |renewals|
      invariant 0 <= i <= |renewals|
      invariant PipelineSpec(claim.table.rows, claim.temporaryId, claim.View(), renewals[i..], status, recorded)
             == PipelineSpec(old(claim.table.rows), claim.temporaryId, old(claim.View()), renewals, status, recorded)
    {
      assert renewals[i..][1..] == renewals[i + 1..];
      var ok: bool;
      if renewals[i].committed {
        ok := claim.Renew(renewals[i].at, renewals[i].placementPath);
      } else {
        ok := claim.RenewRolledBack(renewals[i].at);
      }
      if !ok { return StaleDiscarded; }
      i := i + 1;
    }
    if !recorded { return PipelineRan; }
    var ok := claim.Finish(status);
    return if ok then PipelineRan else StaleDiscarded;
  }

  method ProcessClaimed(cfg: Config, claim: Claim, job: Job) returns (o: Outcome)
    modifies claim`startedAt, claim.table
    ensures (claim.table.rows, o) == ProcessSpec(cfg, old(claim.table.rows), claim.temporaryId, old(claim.View()), job)
  {
    if claim.number > cfg.maxAttempts {
      o := GiveUp(claim);
      return;
    }
    match job {
      case Unreadable =>
        if claim.number >= cfg.maxAttempts {
          o := GiveUp(claim);
          return;
        }
        var ok := claim.RetryLater(cfg);
        return if ok then Retried else StaleDiscarded;
      case Mismatched =>
        o := GiveUp(claim);
      case Pipeline(renewals, status, recorded) =>
        o := RunPipeline(claim, renewals, status, recorded);
    }
  }

  lemma {:induction false} PipelineTouchesItsRowOnly(rows: Rows, id: nat, a: Attempt, renewals: seq<Renewal>,
                                                     status: Status, recorded: bool)
    ensures
      var (after, o) := PipelineSpec(rows, id, a, renewals, status, recorded);
      && after.Keys == rows.Keys
      && (forall other :: other in rows && other != id ==> after[other] == rows[other])
      && o in {PipelineRan, StaleDiscarded}
      && (!(id in rows && Owns(rows[id].row, a)) ==> after == rows && (o == StaleDiscarded <==> renewals != [] || recorded))
      && (id in rows && Owns(rows[id].row, a) ==>
            && after[id].row.attempts == a.number
            && after[id].created == rows[id].created
            && (o == StaleDiscarded <==> Loses(renewals, a.startedAt, recorded))
            && (o == PipelineRan ==> after[id].row.status == (if recorded then status else Received))
            && (o == StaleDiscarded ==> after[id].row == rows[id].row.(startedAt := Some(LastCommitted(renewals, a.startedAt)))))
    decreases |renewals|
  {
    if renewals != [] && id in rows && Owns(rows[id].row, a) {
      PipelineTouchesItsRowOnly(AfterRenewal(rows, id, renewals[0]), id, a.(startedAt := renewals[0].at), renewals[1..], status, recorded);
    }
  }

  // The lease start before the j-th renewal.
  function StampAt(renewals: seq<Renewal>, stamp: int, j: nat): int
    requires j <= |renewals|
  {
    if j == 0 then stamp else renewals[j - 1].at
  }

  // The k-th renewal is made while the attempt owns its row, and records a path.
  ghost predicate RecordsPath(renewals: seq<Renewal>, stamp: int, k: nat) {
    && k < |renewals| && renewals[k].committed && renewals[k].placementPath.Some?
    && forall j :: 0 <= j < k ==> renewals[j].committed || renewals[j].at == StampAt(renewals, stamp, j)
  }

  ghost predicate LastPath(renewals: seq<Renewal>, stamp: int, k: nat) {
    RecordsPath(renewals, stamp, k) && forall j :: k < j < |renewals| ==> !RecordsPath(renewals, stamp, j)
  }

  lemma LaterPath(renewals: seq<Renewal>, stamp: int, k: nat)
    requires renewals != []
    ensures RecordsPath(renewals, stamp, k + 1) <==>
            (renewals[0].committed || renewals[0].at == stamp) && RecordsPath(renewals[1..], renewals[0].at, k)
  {
    var rest := renewals[1..];
    if RecordsPath(renewals, stamp, k + 1) {
      forall j | 0 <= j < k ensures rest[j].committed || rest[j].at == StampAt(rest, renewals[0].at, j) {
        assert renewals[j + 1].committed || renewals[j + 1].at == StampAt(renewals, stamp, j + 1);
      }
      assert renewals[0].committed || renewals[0].at == StampAt(renewals, stamp, 0);
    } else if (renewals[0].committed || renewals[0].at == stamp) && RecordsPath(rest, renewals[0].at, k) {
      forall j | 0 <= j < k + 1 ensures renewals[j].committed || renewals[j].at == StampAt(renewals, stamp, j) {
        if j > 0 { assert rest[j - 1].committed || rest[j - 1].at == StampAt(rest, renewals[0].at, j - 1); }
      }
    }
  }

  // What the next attempt finds as its earlier placement path: the path of the
  // last copy that was announced by a committed renewal of an owner, and the one
  // of before when there was none.
  lemma {:induction false} PipelineRecordsLastPath(rows: Rows, id: nat, a: Attempt, renewals: seq<Renewal>, status: Status, recorded: bool)
    requires id in rows && Owns(rows[id].row, a)
    ensures
      var (after, o) := PipelineSpec(rows, id, a, renewals, status, recorded);
      && id in after
      && (forall k: nat :: LastPath(renewals, a.startedAt, k) ==> after[id].placementPath == renewals[k].placementPath)
      && ((forall k: nat :: !RecordsPath(renewals, a.startedAt, k)) ==> after[id].placementPath == rows[id].placementPath)
    decreases |renewals|
  {
    PipelineTouchesItsRowOnly(rows, id, a, renewals, status, recorded);
    if renewals != [] {
      var next, b, rest := AfterRenewal(rows, id, renewals[0]), a.(startedAt := renewals[0].at), renewals[1..];
      if Owns(next[id].row, b) {
        PipelineRecordsLastPath(next, id, b, rest, status, recorded);
        LastPathShifts(renewals, a.startedAt);
      } else {
        StaleEnds(next, id, b, rest, status, recorded);
        NoLaterPath(renewals, a.startedAt);
      }
    }
  }

  lemma StaleEnds(rows: Rows, id: nat, a: Attempt, renewals: seq<Renewal>, status: Status, recorded: bool)
    requires id in rows && !Owns(rows[id].row, a)
    ensures PipelineSpec(rows, id, a, renewals, status, recorded).0 == rows
  {
  }

  lemma NoLaterPath(renewals: seq<Renewal>, stamp: int)
    requires renewals != [] && !renewals[0].committed && renewals[0].at != stamp
    ensures forall k: nat :: !RecordsPath(renewals, stamp, k)
  {
    forall k: nat ensures !RecordsPath(renewals, stamp, k) {
      if k > 0 { LaterPath(renewals, stamp, k - 1); }
    }
  }

  lemma LastPathShifts(renewals: seq<Renewal>, stamp: int)
    requires renewals != [] && (renewals[0].committed || renewals[0].at == stamp)
    ensures forall k: nat :: RecordsPath(renewals, stamp, k + 1) <==> RecordsPath(renewals[1..], renewals[0].at, k)
    ensures forall k: nat :: LastPath(renewals, stamp, k + 1) <==> LastPath(renewals[1..], renewals[0].at, k)
    ensures LastPath(renewals, stamp, 0) ==> forall k: nat :: !RecordsPath(renewals[1..], renewals[0].at, k)
    ensures (forall k: nat :: !RecordsPath(renewals[1..], renewals[0].at, k)) && RecordsPath(renewals, stamp, 0) ==> LastPath(renewals, stamp, 0)
  {
    forall k: nat ensures RecordsPath(renewals, stamp, k + 1) <==> RecordsPath(renewals[1..], renewals[0].at, k) {
      LaterPath(renewals, stamp, k);
    }
    forall k: nat ensures LastPath(renewals, stamp, k + 1) <==> LastPath(renewals[1..], renewals[0].at, k) {
      if LastPath(renewals, stamp, k + 1) {
        forall j | k < j < |renewals| - 1 ensures !RecordsPath(renewals[1..], renewals[0].at, j) {
          assert !RecordsPath(renewals, stamp, j + 1);
        }
      } else if LastPath(renewals[1..], renewals[0].at, k) {
        forall j | k + 1 < j < |renewals| ensures !RecordsPath(renewals, stamp, j) {
          assert !RecordsPath(renewals[1..], renewals[0].at, j - 1);
        }
      }
    }
    if LastPath(renewals, stamp, 0) {
      forall k: nat ensures !RecordsPath(renewals[1..], renewals[0].at, k) {
        if k + 1 < |renewals| { assert !RecordsPath(renewals, stamp, k + 1); }
      }
    }
    if forall k: nat :: !RecordsPath(renewals[1..], renewals[0].at, k) {
      forall j | 0 < j < |renewals| ensures !RecordsPath(renewals, stamp, j) {
        assert !RecordsPath(renewals[1..], renewals[0].at, j - 1);
      }
    }
  }

  // An attempt that lost its row changes nothing at all, whatever it meets.
  lemma StaleAttemptWritesNothing(cfg: Config, rows: Rows, id: nat, a: Attempt, job: Job)
    requires !(id in rows && Owns(rows[id].row, a))
    ensures ProcessSpec(cfg, rows, id, a, job).0 == rows
    ensures
      var unnoticed := a.number <= cfg.maxAttempts && job.Pipeline? && job.renewals == [] && !job.recorded;
      ProcessSpec(cfg, rows, id, a, job).1 == if unnoticed then PipelineRan else StaleDiscarded
  {
    if job.Pipeline? { PipelineTouchesItsRowOnly(rows, id, a, job.renewals, job.status, job.recorded); }
  }

  // What becomes of a row its attempt owns, and when it can be claimed again.
  lemma OwnedAttemptOutcome(cfg: Config, rows: Rows, id: nat, a: Attempt, job: Job)
    requires cfg.Valid() && id in rows && Owns(rows[id].row, a)
    ensures
      var (after, o) := ProcessSpec(cfg, rows, id, a, job);
      && after.Keys == rows.Keys
      && (forall other :: other in rows && other != id ==> after[other] == rows[other])
      && after[id].created == rows[id].created && after[id].row.attempts == a.number
      && (o == StaleDiscarded <==> a.number <= cfg.maxAttempts && LosesClaim(job, a.startedAt))
      && (o == StaleDiscarded ==>
            after[id].row == rows[id].row.(startedAt := Some(LastCommitted(job.renewals, a.startedAt))))
      && (o == GaveUp <==> a.number > cfg.maxAttempts || job.Mismatched? || (job.Unreadable? && a.number == cfg.maxAttempts))
      && (o == GaveUp ==> after[id].row.status == Failed)
      && (o == PipelineRan ==> a.number <= cfg.maxAttempts)
      && (o == Retried ==>
            a.number < cfg.maxAttempts
            && forall t: int :: Claimable(cfg, after[id].row, t) <==> a.claimedAt + cfg.retryDelayMs < t)
  {
    if job.Pipeline? { PipelineTouchesItsRowOnly(rows, id, a, job.renewals, job.status, job.recorded); }
  }

  // A released row can be claimed retryDelayMs later, by an attempt of the same number.
  lemma ReleasedIsClaimableSoon(cfg: Config, row: Row, a: Attempt, at: int, t: int)
    requires cfg.Valid() && Owns(row, a)
    ensures Claimable(cfg, ReleaseRow(cfg, row, a, at), t) <==> at + cfg.retryDelayMs < t
    ensures ClaimRow(ReleaseRow(cfg, row, a, at), t).attempts == a.number
  {
  }

  // ------------------------------------------------------------------ draining

  // How often a row can still be claimed before it must have left the queue.
  function RowBudget(cfg: Config, row: Row): nat {
    if row.status != Received then 0 else Max(1, cfg.maxAttempts + 2 - row.attempts)
  }

  ghost function Budget(cfg: Config, rows: Rows): nat
    decreases rows.Keys
  {
    if rows == map[] then 0
    else
      var id :| id in rows;
      RowBudget(cfg, rows[id].row) + Budget(cfg, rows - {id})
  }

  lemma {:induction false} BudgetSplit(cfg: Config, rows: Rows, id: nat)
    requires id in rows
    ensures Budget(cfg, rows) == RowBudget(cfg, rows[id].row) + Budget(cfg, rows - {id})
    decreases rows.Keys
  {
    var first :| first in rows && Budget(cfg, rows) == RowBudget(cfg, rows[first].row) + Budget(cfg, rows - {first});
    if first != id {
      BudgetSplit(cfg, rows - {first}, id);
      BudgetSplit(cfg, rows - {id}, first);
      assert rows - {first} - {id} == rows - {id} - {first};
    }
  }

  lemma BudgetDrops(cfg: Config, rows: Rows, after: Rows, id: nat)
    requires id in rows && after.Keys == rows.Keys
    requires forall other :: other in rows && other != id ==> after[other] == rows[other]
    requires RowBudget(cfg, after[id].row) < RowBudget(cfg, rows[id].row)
    ensures Budget(cfg, after) < Budget(cfg, rows)
  {
    BudgetSplit(cfg, rows, id);
    BudgetSplit(cfg, after, id);
    assert rows - {id} == after - {id};
  }

  datatype Report = Report(id: nat, attempt: int, outcome: Outcome)

  lemma AttemptSpendsBudget(cfg: Config, rows: Rows, now: int, id: nat, job: Job)
    requires cfg.Valid() && Waiting(cfg, rows, now, id)
    requires job.Pipeline? ==> job.status != Received
    ensures
      var claimed := rows[id := rows[id].(row := ClaimRow(rows[id].row, now))];
      var (after, o) := ProcessSpec(cfg, claimed, id, Attempt(claimed[id].row.attempts, now, now, None, false, false), job);
      && Budget(cfg, after) < Budget(cfg, rows)
      && (o == StaleDiscarded <==> claimed[id].row.attempts <= cfg.maxAttempts && LosesClaim(job, now))
      && (o == PipelineRan ==> claimed[id].row.attempts <= cfg.maxAttempts)
  {
    var claimed := rows[id := rows[id].(row := ClaimRow(rows[id].row, now))];
    var a := Attempt(claimed[id].row.attempts, now, now, None, false, false);
    OwnedAttemptOutcome(cfg, claimed, id, a, job);
    var (after, o) := ProcessSpec(cfg, claimed, id, a, job);
    if job.Pipeline? { PipelineTouchesItsRowOnly(claimed, id, a, job.renewals, job.status, job.recorded); }
    BudgetDrops(cfg, rows, after, id);
  }

  // Undisturbed, an attempt is stale only by a rolled back transaction, and the
  // pipeline runs only within maxAttempts.
  predicate AsExpected(cfg: Config, report: Report, claimedAt: int, job: Job) {
    && (report.outcome == StaleDiscarded <==> report.attempt <= cfg.maxAttempts && LosesClaim(job, claimedAt))
    && (report.outcome == PipelineRan ==> report.attempt <= cfg.maxAttempts)
  }

  // One attempt of a drain: it takes the oldest waiting submission.
  ghost predicate DrainStep(cfg: Config, before: Rows, after: Rows, report: Report, now: int, jobs: (nat, int) -> Job) {
    && IsNext(cfg, before, now, report.id)
    && var claimed := before[report.id := before[report.id].(row := ClaimRow(before[report.id].row, now))];
       && report.attempt == claimed[report.id].row.attempts
       && (after, report.outcome)
          == ProcessSpec(cfg, claimed, report.id, Attempt(report.attempt, now, now, None, false, false), jobs(report.id, report.attempt))
  }

  // `states` are the tables before each attempt and after the last.
  ghost predicate DrainTrace(cfg: Config, states: seq<Rows>, outcomes: seq<Report>, clock: nat -> int, jobs: (nat, int) -> Job) {
    && |states| == |outcomes| + 1
    && forall i :: 0 <= i < |outcomes| ==> DrainStep(cfg, states[i], states[i + 1], outcomes[i], clock(i), jobs)
  }

  ghost predicate DrainsTo(cfg: Config, before: Rows, after: Rows, outcomes: seq<Report>, clock: nat -> int, jobs: (nat, int) -> Job) {
    exists states :: DrainTrace(cfg, states, outcomes, clock, jobs) && states[0] == before && states[|outcomes|] == after
  }

  lemma DrainsOneMore(cfg: Config, before: Rows, between: Rows, after: Rows, outcomes: seq<Report>, report: Report,
                      clock: nat -> int, jobs: (nat, int) -> Job)
    requires DrainsTo(cfg, before, between, outcomes, clock, jobs)
    requires DrainStep(cfg, between, after, report, clock(|outcomes|), jobs)
    ensures DrainsTo(cfg, before, after, outcomes + [report], clock, jobs)
  {
    var states :| DrainTrace(cfg, states, outcomes, clock, jobs) && states[0] == before && states[|outcomes|] == between;
    var more := states + [after];
    forall i | 0 <= i < |outcomes| + 1 ensures DrainStep(cfg, more[i], more[i + 1], (outcomes + [report])[i], clock(i), jobs) {}
    assert DrainTrace(cfg, more, outcomes + [report], clock, jobs);
  }

  lemma DrainsNothing(cfg: Config, rows: Rows, clock: nat -> int, jobs: (nat, int) -> Job)
    ensures DrainsTo(cfg, rows, rows, [], clock, jobs)
  {
    assert DrainTrace(cfg, [rows], [], clock, jobs);
  }

  lemma DrainStepSpends(cfg: Config, before: Rows, after: Rows, report: Report, now: int, jobs: (nat, int) -> Job)
    requires cfg.Valid() && DrainStep(cfg, before, after, report, now, jobs)
    requires jobs(report.id, report.attempt).Pipeline? ==> jobs(report.id, report.attempt).status != Received
    ensures Budget(cfg, after) < Budget(cfg, before) && AsExpected(cfg, report, now, jobs(report.id, report.attempt))
  {
    AttemptSpendsBudget(cfg, before, now, report.id, jobs(report.id, report.attempt));
  }

  // One round of the loop: claim the next submission and process it.
  method NextAttempt(cfg: Config, table: Table, now: int, jobs: (nat, int) -> Job) returns (report: Option<Report>)
    modifies table
    ensures report.None? ==> table.rows == old(table.rows) && NoneWaiting(cfg, table.rows, now)
    ensures report.Some? ==> DrainStep(cfg, old(table.rows), table.rows, report.value, now, jobs)
  {
    var rows := table.rows;
    var quiet := seq(2 * CLAIM_TRIES, _ => rows);
    var row := table.ClaimNext(cfg, now, quiet);
    QuietClaimTakesTheOldest(cfg, rows, quiet, now, row, table.rows);
    if row.None? { return None; }
    var claim := new Claim(table, row.value.0, row.value.1, now);
    var outcome := ProcessClaimed(cfg, claim, jobs(claim.temporaryId, claim.number));
    return Some(Report(claim.temporaryId, claim.number, outcome));
  }

  ghost predicate AllAsExpected(cfg: Config, outcomes: seq<Report>, clock: nat -> int, jobs: (nat, int) -> Job) {
    forall i :: 0 <= i < |outcomes| ==> AsExpected(cfg, outcomes[i], clock(i), jobs(outcomes[i].id, outcomes[i].attempt))
  }

  // Nothing asked the worker to stop before any of these attempts.
  ghost predicate NeverAsked(outcomes: seq<Report>, shouldStop: nat -> bool) {
    forall i :: 0 <= i < |outcomes| ==> !shouldStop(i)
  }

  ghost predicate NoOutage(outcomes: seq<Report>) {
    forall i :: 0 <= i < |outcomes| ==> outcomes[i].outcome != Retried
  }

  // Where a drain stands that goes on: `left` is the budget it has not spent.
  ghost predicate Draining(cfg: Config, before: Rows, rows: Rows, outcomes: seq<Report>, clock: nat -> int, jobs: (nat, int) -> Job,
                           shouldStop: nat -> bool, left: nat) {
    && left == Budget(cfg, rows) && left + |outcomes| <= Budget(cfg, before)
    && DrainsTo(cfg, before, rows, outcomes, clock, jobs)
    && AllAsExpected(cfg, outcomes, clock, jobs) && NeverAsked(outcomes, shouldStop) && NoOutage(outcomes)
  }

  lemma StartsDraining(cfg: Config, rows: Rows, clock: nat -> int, jobs: (nat, int) -> Job, shouldStop: nat -> bool)
    ensures Draining(cfg, rows, rows, [], clock, jobs, shouldStop, Budget(cfg, rows))
  {
    DrainsNothing(cfg, rows, clock, jobs);
  }

  lemma ReportsGoOn(cfg: Config, outcomes: seq<Report>, report: Report, clock: nat -> int, jobs: (nat, int) -> Job)
    requires AllAsExpected(cfg, outcomes, clock, jobs) && AsExpected(cfg, report, clock(|outcomes|), jobs(report.id, report.attempt))
    ensures AllAsExpected(cfg, outcomes + [report], clock, jobs)
    ensures NoOutage(outcomes) && report.outcome != Retried ==> NoOutage(outcomes + [report])
    ensures (outcomes + [report])[..|outcomes + [report]| - 1] == outcomes
  {
    var more := outcomes + [report];
    forall i | 0 <= i < |more| ensures AsExpected(cfg, more[i], clock(i), jobs(more[i].id, more[i].attempt)) {
      if i < |outcomes| { assert more[i] == outcomes[i]; }
    }
  }

  lemma NotAskedYet(outcomes: seq<Report>, report: Report, shouldStop: nat -> bool)
    requires NeverAsked(outcomes, shouldStop) && !shouldStop(|outcomes|)
    ensures NeverAsked(outcomes + [report], shouldStop)
  {
  }

  lemma Continues(cfg: Config, before: Rows, rows: Rows, after: Rows, outcomes: seq<Report>, report: Report, clock: nat -> int,
                  jobs: (nat, int) -> Job, shouldStop: nat -> bool, left: nat)
    requires cfg.Valid() && Draining(cfg, before, rows, outcomes, clock, jobs, shouldStop, left) && !shouldStop(|outcomes|)
    requires DrainStep(cfg, rows, after, report, clock(|outcomes|), jobs)
    requires jobs(report.id, report.attempt).Pipeline? ==> jobs(report.id, report.attempt).status != Received
    ensures Budget(cfg, after) < left && Budget(cfg, after) + |outcomes + [report]| <= Budget(cfg, before)
    ensures DrainsTo(cfg, before, after, outcomes + [report], clock, jobs)
    ensures AllAsExpected(cfg, outcomes + [report], clock, jobs) && NeverAsked(outcomes + [report], shouldStop)
    ensures (outcomes + [report])[..|outcomes + [report]| - 1] == outcomes && NoOutage(outcomes)
    ensures report.outcome != Retried ==>
      Draining(cfg, before, after, outcomes + [report], clock, jobs, shouldStop, Budget(cfg, after))
  {
    DrainStepSpends(cfg, rows, after, report, clock(|outcomes|), jobs);
    DrainsOneMore(cfg, before, rows, after, outcomes, report, clock, jobs);
    ReportsGoOn(cfg, outcomes, report, clock, jobs);
    NotAskedYet(outcomes, report, shouldStop);
  }

  // A worker alone on the queue (nobody else writes) always comes to an end:
  // `clock(k)` is its k-th reading, `jobs` what the attempts meet. It takes the
  // oldest waiting submission each time, and goes on exactly until it is asked to
  // stop, meets a storage outage, or finds nothing left to claim.
  method Drain(cfg: Config, table: Table, clock: nat -> int, jobs: (nat, int) -> Job, shouldStop: nat -> bool)
    returns (outcomes: seq<Report>)
    requires cfg.Valid()
    requires forall id: nat, n: int :: jobs(id, n).Pipeline? ==> jobs(id, n).status != Received
    modifies table
    ensures Budget(cfg, table.rows) + |outcomes| <= Budget(cfg, old(table.rows))
    ensures DrainsTo(cfg, old(table.rows), table.rows, outcomes, clock, jobs)
    ensures AllAsExpected(cfg, outcomes, clock, jobs)
    ensures NeverAsked(outcomes, shouldStop) && (outcomes != [] ==> NoOutage(outcomes[..|outcomes| - 1]))
    ensures
      || (outcomes != [] && outcomes[|outcomes| - 1].outcome == Retried)
      || shouldStop(|outcomes|)
      || NoneWaiting(cfg, table.rows, clock(|outcomes|))
  {
    outcomes := [];
    ghost var left := Budget(cfg, table.rows);
    StartsDraining(cfg, table.rows, clock, jobs, shouldStop);
    while true
      invariant Draining(cfg, old(table.rows), table.rows, outcomes, clock, jobs, shouldStop, left)
      decreases left
    {
      if shouldStop(|outcomes|) { return; }
      var rows := table.rows;
      var report := NextAttempt(cfg, table, clock(|outcomes|), jobs);
      if report.None? { return; }
      Continues(cfg, old(table.rows), rows, table.rows, outcomes, report.value, clock, jobs, shouldStop, left);
      left := Budget(cfg, table.rows);
      outcomes := outcomes + [report.value];
      if report.value.outcome == Retried { return; }
    }
  }

  // ------------------------------------------------------------------ shutdown

  function ReleaseAllSpec(cfg: Config, rows: Rows, claims: seq<(nat, Attempt)>, at: int): (Rows, nat) {
    if claims == [] then (rows, 0)
    else
      var (rest, n) := ReleaseAllSpec(cfg, rows, claims[..|claims| - 1], at);
      var (id, a) := claims[|claims| - 1];
      if id in rest && Owns(rest[id].row, a) then (Written(rest, id, ReleaseRow(cfg, rest[id].row, a, at), None), n + 1)
      else (rest, n)
  }

  function Views(claims: seq<Claim>): (r: seq<(nat, Attempt)>)
    reads claims
    ensures |r| == |claims|
    ensures forall i :: 0 <= i < |r| ==> r[i] == (claims[i].temporaryId, claims[i].View())
  {
    if claims == [] then [] else Views(claims[..|claims| - 1]) + [(claims[|claims| - 1].temporaryId, claims[|claims| - 1].View())]
  }

  lemma ReleaseAllNext(cfg: Config, rows: Rows, claims: seq<(nat, Attempt)>, i: nat, at: int)
    requires i < |claims|
    ensures ReleaseAllSpec(cfg, rows, claims[..i + 1], at) ==
      var (rest, n) := ReleaseAllSpec(cfg, rows, claims[..i], at);
      var (id, a) := claims[i];
      if id in rest && Owns(rest[id].row, a) then (Written(rest, id, ReleaseRow(cfg, rest[id].row, a, at), None), n + 1) else (rest, n)
  {
    assert claims[..i + 1][..i] == claims[..i];
  }

  // stop() past its time limit: every claim still active is handed back.
  method ReleaseAll(cfg: Config, table: Table, claims: seq<Claim>, at: int) returns (released: nat)
    requires forall i :: 0 <= i < |claims| ==> claims[i].table == table
    modifies table
    ensures (table.rows, released) == ReleaseAllSpec(cfg, old(table.rows), Views(claims), at)
  {
    released := 0;
    var i := 0;
    while i < |claims|
      invariant 0 <= i <= |claims|
      invariant (table.rows, released) == ReleaseAllSpec(cfg, old(table.rows), Views(claims)[..i], at)
    {
      var ok := claims[i].Release(cfg, at);
      ReleaseAllNext(cfg, old(table.rows), Views(claims), i, at);
      if ok { released := released + 1; }
      i := i + 1;
    }
    assert Views(claims)[..|claims|] == Views(claims);
  }

  ghost predicate OnlyClaimOn(claims: seq<(nat, Attempt)>, k: nat)
    requires k < |claims|
  {
    forall j :: 0 <= j < |claims| && j != k ==> claims[j].0 != claims[k].0
  }

  // Every active claim that still owned its row has handed it back: claimable
  // retryDelayMs later, its attempt not counted. Other rows are as they were.
  lemma {:induction false} StopHandsBack(cfg: Config, rows: Rows, claims: seq<(nat, Attempt)>, at: int)
    ensures
      var (after, n) := ReleaseAllSpec(cfg, rows, claims, at);
      && after.Keys == rows.Keys && n <= |claims|
      && (forall id :: id in rows && (forall k :: 0 <= k < |claims| ==> claims[k].0 != id) ==> after[id] == rows[id])
      && (forall k :: 0 <= k < |claims| && OnlyClaimOn(claims, k) && claims[k].0 in rows ==>
            after[claims[k].0] ==
              if Owns(rows[claims[k].0].row, claims[k].1)
              then rows[claims[k].0].(row := ReleaseRow(cfg, rows[claims[k].0].row, claims[k].1, at))
              else rows[claims[k].0])
  {
    if claims != [] {
      var rest := claims[..|claims| - 1];
      StopHandsBack(cfg, rows, rest, at);
      forall k | 0 <= k < |rest| && OnlyClaimOn(claims, k) ensures OnlyClaimOn(rest, k) && rest[k] == claims[k] {}
    }
  }
}
