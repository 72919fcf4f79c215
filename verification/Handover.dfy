/** What becomes of a row from one attempt to the next, by the steps of module
    Lease: who may write, and when the next claim can follow. */
module Handover {
  import opened Common
  import opened Lease

  // ------------------------------------------------------------------ who may write

  ghost predicate IsOwner(s: State, id: nat) {
    id in s.live && s.row.status == Received && s.row.attempts == s.live[id].number && s.row.startedAt == Some(s.live[id].startedAt)
  }

  // An attempt's writes are possible exactly while it owns the row; before it
  // entered the pipeline it may put the row back, afterwards transactions may fail.
  lemma OwnersWrite(cfg: Config, s: State, id: nat, status: Status)
    ensures Apply(cfg, s, Renew(id)).Some? <==> IsOwner(s, id)
    ensures Apply(cfg, s, Release(id)).Some? <==> IsOwner(s, id)
    ensures Apply(cfg, s, Finish(id, status)).Some? <==> IsOwner(s, id) && status != Received
    ensures Apply(cfg, s, RetryLater(id)).Some? <==> IsOwner(s, id) && !s.live[id].entered
    ensures Apply(cfg, s, RolledBack(id)).Some? <==> IsOwner(s, id) && s.live[id].entered && !s.live[id].rolledBack
    ensures Apply(cfg, s, Enter(id)).Some? <==> id in s.live && s.live[id].number <= cfg.maxAttempts
    ensures Apply(cfg, s, Vanish(id)).Some? <==> id in s.live
    ensures Apply(cfg, s, AdminRetry).Some? <==> s.row.status == Failed
    ensures Apply(cfg, s, Claim).Some? <==>
            s.row.status == Received && (s.row.startedAt.None? || s.row.startedAt.value + cfg.leaseMs < s.now)
  {
  }

  // Nobody else is touched by what an attempt does.
  lemma OthersUntouched(cfg: Config, s: State, a: Action, other: nat)
    requires Apply(cfg, s, a).Some? && other in s.live
    requires match a
      case Renew(id) => id != other case RolledBack(id) => id != other case Release(id) => id != other case RetryLater(id) => id != other
      case Enter(id) => id != other case Finish(id, _) => id != other case Vanish(id) => id != other
      case Claim => other != s.nextId case Tick(_) => true case AdminRetry => true
    ensures other in Apply(cfg, s, a).value.live && Apply(cfg, s, a).value.live[other] == s.live[other]
  {
  }

  // ------------------------------------------------------------------ an undisturbed attempt

  function Sum(pauses: seq<nat>): nat {
    if pauses == [] then 0 else pauses[0] + Sum(pauses[1..])
  }

  // Work, renew, work, renew, and a final write.
  function Working(id: nat, pauses: seq<nat>, status: Status): seq<Action> {
    if pauses == [] then [Finish(id, status)] else [Tick(pauses[0])] + ([Renew(id)] + Working(id, pauses[1..], status))
  }

  lemma ExecCons(cfg: Config, s: State, a: Action, rest: seq<Action>)
    requires Apply(cfg, s, a).Some?
    ensures Exec(cfg, s, [a] + rest) == Exec(cfg, Apply(cfg, s, a).value, rest)
  {
    assert ([a] + rest)[1..] == rest;
  }

  lemma {:induction false} Works(cfg: Config, s: State, id: nat, pauses: seq<nat>, status: Status) returns (z: State)
    requires IsOwner(s, id) && status != Received
    ensures Exec(cfg, s, Working(id, pauses, status)) == Some(z)
    ensures z.now == s.now + Sum(pauses) && z.row.status == status && z.row.attempts == s.row.attempts
    ensures z.row.startedAt == if pauses == [] then s.row.startedAt else Some(s.now + Sum(pauses))
    ensures id !in z.live && z.live.Keys == s.live.Keys - {id} && forall other :: other in z.live ==> z.live[other] == s.live[other]
    ensures z.nextId == s.nextId && z.ledger == s.ledger && z.claims == s.claims && z.releases == s.releases
    decreases |pauses|
  {
    if pauses == [] {
      ExecCons(cfg, s, Finish(id, status), []);
      z := Apply(cfg, s, Finish(id, status)).value;
      assert Working(id, pauses, status) == [Finish(id, status)] + [];
    } else {
      var s1 := Apply(cfg, s, Tick(pauses[0])).value;
      ExecCons(cfg, s, Tick(pauses[0]), [Renew(id)] + Working(id, pauses[1..], status));
      var s2 := Apply(cfg, s1, Renew(id)).value;
      ExecCons(cfg, s1, Renew(id), Working(id, pauses[1..], status));
      z := Works(cfg, s2, id, pauses[1..], status);
    }
  }

  // Main result: an attempt that nobody disturbs keeps its row however long it
  // works, whatever the lease time, and writes its result; its number is counted.
  lemma UndisturbedAttempt(cfg: Config, s: State, pauses: seq<nat>, status: Status) returns (z: State)
    requires Claimable(cfg, s.row, s.now) && s.row.attempts < cfg.maxAttempts && status != Received
    ensures Exec(cfg, s, [Claim] + ([Enter(s.nextId)] + Working(s.nextId, pauses, status))) == Some(z)
    ensures z.row == Row(status, s.row.attempts + 1, Some(s.now + Sum(pauses)))
    ensures z.nextId == s.nextId + 1 && z.claims == s.claims + 1 && z.releases == s.releases
  {
    var s1 := Apply(cfg, s, Claim).value;
    ExecCons(cfg, s, Claim, [Enter(s.nextId)] + Working(s.nextId, pauses, status));
    var s2 := Apply(cfg, s1, Enter(s.nextId)).value;
    ExecCons(cfg, s1, Enter(s.nextId), Working(s.nextId, pauses, status));
    z := Works(cfg, s2, s.nextId, pauses, status);
  }

  // ------------------------------------------------------------------ the next attempt

  // How an attempt leaves a row that is not done: its process dies, it is
  // stopped by a shutdown, or the file could not be loaded.
  datatype Ending = Dies | IsReleased | TriesLater

  function EndingStep(how: Ending, id: nat): Action {
    match how case Dies => Vanish(id) case IsReleased => Release(id) case TriesLater => RetryLater(id)
  }

  // How long after that the row can be claimed: a lease counted from the claim,
  // or the retry delay counted from the release or from the claim.
  function Delay(cfg: Config, how: Ending, worked: nat): int {
    match how case Dies => cfg.leaseMs - worked case IsReleased => cfg.retryDelayMs case TriesLater => cfg.retryDelayMs - worked
  }

  lemma LeavesRow(cfg: Config, s: State, how: Ending, worked: nat, ms: nat) returns (z: State)
    requires Claimable(cfg, s.row, s.now)
    ensures Exec(cfg, s, [Claim] + ([Tick(worked)] + ([EndingStep(how, s.nextId)] + ([Tick(ms)] + [])))) == Some(z)
    ensures z.now == s.now + worked + ms && z.row.status == Received
    ensures z.row.attempts == s.row.attempts + if how.IsReleased? then 0 else 1
    ensures Claimable(cfg, z.row, z.now) <==> Delay(cfg, how, worked) < ms
  {
    var s1 := Apply(cfg, s, Claim).value;
    ExecCons(cfg, s, Claim, [Tick(worked)] + ([EndingStep(how, s.nextId)] + ([Tick(ms)] + [])));
    var s2 := Apply(cfg, s1, Tick(worked)).value;
    ExecCons(cfg, s1, Tick(worked), [EndingStep(how, s.nextId)] + ([Tick(ms)] + []));
    var s3 := Apply(cfg, s2, EndingStep(how, s.nextId)).value;
    ExecCons(cfg, s2, EndingStep(how, s.nextId), [Tick(ms)] + []);
    z := Apply(cfg, s3, Tick(ms)).value;
    ExecCons(cfg, s3, Tick(ms), []);
  }

  // Main result: exactly when the next attempt can claim the row, and its
  // number: a released attempt is not counted, one that died or put its file
  // back is.
  lemma NextAttempt(cfg: Config, s: State, how: Ending, worked: nat, ms: nat) returns (z: State)
    requires Claimable(cfg, s.row, s.now)
    ensures Exec(cfg, s, [Claim] + ([Tick(worked)] + ([EndingStep(how, s.nextId)] + ([Tick(ms)] + [])))) == Some(z)
    ensures Apply(cfg, z, Claim).Some? <==> Delay(cfg, how, worked) < ms
    ensures Apply(cfg, z, Claim).Some? ==>
      var y := Apply(cfg, z, Claim).value;
      && z.nextId in y.live && y.live[z.nextId].number == s.row.attempts + (if how.IsReleased? then 1 else 2)
      && IsOwner(y, z.nextId) && y.live[z.nextId].claimedAt == s.now + worked + ms && !y.live[z.nextId].entered
  {
    z := LeavesRow(cfg, s, how, worked, ms);
  }

  // A failed submission that an admin retries starts from the beginning.
  lemma RetriedStartsAfresh(cfg: Config, s: State)
    requires s.row.status == Failed
    ensures Apply(cfg, s, AdminRetry).Some?
    ensures
      var z := Apply(cfg, s, AdminRetry).value;
      && z.row == Row(Received, 0, None) && z.live == s.live && z.now == s.now && z.nextId == s.nextId
      && Apply(cfg, z, Claim).Some? && Apply(cfg, z, Claim).value.live[s.nextId].number == 1
  {
  }
}
