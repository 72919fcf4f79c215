/** Many submissions, many attempts per submission, the documents table and the
    object store together: what the background worker and the admins' review
    actions do to two stores that cannot share a transaction.

    Every submission carries its own lease (module Lease); the attempts' local
    knowledge (checksum outcome, where their copy went) is kept beside it, so a
    stale attempt acts on what it saw long ago. */
module Worker {
  import opened Common
  import opened CopyLoop
  import L = Lease
  import opened Stores

  // documentChecksumService.js
  datatype Checksum = New | AlreadyStored | Duplicate | CrossClientConflict

  // What one attempt remembers.
  datatype Work = Work(
    earlier: Option<Path>,                 // placement_path when it claimed
    checked: Option<(nat, Checksum)>,      // the client it identified and the outcome
    placed: Option<Path>,                  // where its copy is
    closed: bool)                          // its copy failed or its insert is over: no further placement

  datatype Submission = Submission(
    lease: L.State, sha: nat, work: map<nat, Work>,
    placementPath: Option<Path>, pendingPath: Option<Path>)

  datatype System = System(
    subs: map<nat, Submission>,
    docs: map<nat, Document>,
    objects: map<Path, nat>,              // path -> SHA-256 of the bytes
    inFlight: set<(Path, nat)>)           // copies that timed out and may still land

  const Empty := System(map[], map[], map[], {})

  datatype Action =
    | Submit(t: nat, start: int, sha: nat)
    | LeaseStep(t: nat, step: L.Action)
    | Check(t: nat, id: nat, client: nat)
    | Place(t: nat, id: nat, candidates: seq<Path>)
    | CopyTimesOut(t: nat, id: nat, candidates: seq<Path>)
    | Lands(p: Path, sha: nat)
    | Insert(t: nat, id: nat, d: nat, reviewRequired: bool)
    | InsertFails(t: nat, id: nat)
    | CleanUp(t: nat, id: nat, removed: bool)
    | FinishPending(t: nat, id: nat, status: L.Status)
    | StorePending(t: nat, client: nat, candidates: seq<Path>, d: nat, asVersion: bool)
    | RemovePending(t: nat)
    | RemoveDocument(d: nat)

  // ------------------------------------------------------------------ reads

  // checkClientChecksum: the same client first.
  function CheckClientChecksum(docs: map<nat, Document>, client: nat, sha: nat, t: nat): Checksum {
    if exists d :: d in docs && docs[d].client == client && docs[d].sha == sha && docs[d].submission == Some(t) then AlreadyStored
    else if exists d :: d in docs && docs[d].client == client && docs[d].sha == sha then Duplicate
    else if exists d :: d in docs && docs[d].client != client && docs[d].sha == sha then CrossClientConflict
    else New
  }

  predicate DocumentOn(s: System, p: Path) {
    exists d :: d in s.docs && s.docs[d].path == p
  }

  predicate OtherSubmissionAt(s: System, t: nat, p: Path) {
    exists u :: u in s.subs && u != t && (s.subs[u].pendingPath == Some(p) || s.subs[u].placementPath == Some(p))
  }

  // isOwnEarlierCopy: recorded by this submission before this attempt claimed
  // it, referred to by nothing else, and holding this submission's bytes.
  predicate IsOwnEarlierCopy(s: System, t: nat, w: Work, p: Path)
    requires t in s.subs
  {
    && w.earlier == Some(p)
    && !DocumentOn(s, p)
    && !OtherSubmissionAt(s, t, p)
    && p in s.objects && s.objects[p] == s.subs[t].sha
  }

  // ------------------------------------------------------------------ steps

  predicate IsLive(s: System, t: nat, id: nat) {
    t in s.subs && id in s.subs[t].lease.live && id in s.subs[t].work
  }

  // The pipeline of a running attempt: within maxAttempts. After a transaction
  // that was rolled back it goes no further.
  predicate Running(s: System, t: nat, id: nat) {
    IsLive(s, t, id) && s.subs[t].lease.live[id].entered && !s.subs[t].lease.live[id].rolledBack
  }

  predicate OwnsRow(s: System, t: nat, id: nat)
    requires IsLive(s, t, id)
  {
    L.Owns(s.subs[t].lease.row, s.subs[t].lease.live[id])
  }

  function Renewed(lease: L.State, id: nat): L.State
    requires id in lease.live
  {
    lease.(row := L.RenewRow(lease.row, lease.now), live := lease.live[id := lease.live[id].(startedAt := lease.now)])
  }

  function FreshWork(placementPath: Option<Path>): Work {
    Work(placementPath, None, None, false)
  }

  // A step of one submission's lease. A claim starts with no memory but the
  // recorded placement path; an admin's retry needs a row without pending copy.
  function StepSub(cfg: L.Config, sub: Submission, step: L.Action): Option<Submission> {
    if step.AdminRetry? && sub.pendingPath.Some? then None
    else match L.Apply(cfg, sub.lease, step)
      case None => None
      case Some(lease) =>
        var work := if step.Claim? then sub.work[sub.lease.nextId := FreshWork(sub.placementPath)] else sub.work;
        Some(sub.(lease := lease, work := work))
  }

  function StepLease(cfg: L.Config, s: System, t: nat, step: L.Action): Option<System> {
    if t !in s.subs then None
    else match StepSub(cfg, s.subs[t], step)
      case None => None
      case Some(sub) => Some(s.(subs := s.subs[t := sub]))
  }

  // The candidate copyToFreeName settles on; None when all names are taken.
  function Choice(s: System, t: nat, id: nat, candidates: seq<Path>): Option<Path>
    requires Running(s, t, id)
  {
    var w := s.subs[t].work[id];
    var own := if w.earlier.Some? && IsOwnEarlierCopy(s, t, w, w.earlier.value) then {w.earlier.value} else {};
    match FirstUsable(s.objects.Keys, own, candidates)
    case None => None
    case Some(k) => Some(candidates[k])
  }

  predicate CanPlace(s: System, t: nat, id: nat) {
    Running(s, t, id) && s.subs[t].work[id].placed.None? && !s.subs[t].work[id].closed
  }

  // A reused copy is taken as it is; a new one is made right after the claim
  // was renewed together with the recorded path.
  function StepPlace(s: System, t: nat, id: nat, candidates: seq<Path>): Option<System> {
    if !CanPlace(s, t, id) then None
    else
      var sub := s.subs[t];
      match Choice(s, t, id, candidates)
      case None => None
      case Some(p) =>
        var placed := sub.(work := sub.work[id := sub.work[id].(placed := Some(p))]);
        if p in s.objects then Some(s.(subs := s.subs[t := placed]))
        else if !OwnsRow(s, t, id) then None
        else Some(s.(subs := s.subs[t := placed.(lease := Renewed(sub.lease, id), placementPath := Some(p))],
                     objects := s.objects[p := sub.sha]))
  }

  // The path is recorded but the copy call fails; the copy may still land.
  function StepCopyTimesOut(s: System, t: nat, id: nat, candidates: seq<Path>): Option<System> {
    if !CanPlace(s, t, id) || !OwnsRow(s, t, id) then None
    else
      var sub := s.subs[t];
      match Choice(s, t, id, candidates)
      case None => None
      case Some(p) =>
        if p in s.objects then None
        else Some(s.(subs := s.subs[t := sub.(lease := Renewed(sub.lease, id), placementPath := Some(p),
                                              work := sub.work[id := sub.work[id].(closed := true)])],
                     inFlight := s.inFlight + {(p, sub.sha)}))
  }

  // After the claim is renewed and the attempt's copy taken from its memory.
  function Settled(s: System, t: nat, id: nat): System
    requires t in s.subs && id in s.subs[t].lease.live && id in s.subs[t].work
  {
    var sub := s.subs[t];
    s.(subs := s.subs[t := sub.(lease := Renewed(sub.lease, id),
                                work := sub.work[id := sub.work[id].(checked := None, placed := None, closed := true)])])
  }

  predicate CanInsert(s: System, t: nat, id: nat) {
    && Running(s, t, id) && OwnsRow(s, t, id)
    && var w := s.subs[t].work[id];
       w.checked.Some? && w.checked.value.1 == New && w.placed.Some? && w.placed.value.area == ClientArea
  }

  // The documents insert, in one transaction with a renewal of the claim. A
  // (client, checksum) that exists already rolls the transaction back.
  function StepInsert(cfg: L.Config, s: System, t: nat, id: nat, d: nat, reviewRequired: bool): Option<System> {
    if !CanInsert(s, t, id) || d in s.docs then None
    else
      var sha := s.subs[t].sha;
      var client, p := s.subs[t].work[id].checked.value.0, s.subs[t].work[id].placed.value;
      if exists e :: e in s.docs && s.docs[e].client == client && s.docs[e].sha == sha then StepLease(cfg, s, t, L.RolledBack(id))
      else Some(Settled(s, t, id).(docs := s.docs[d := Document(client, sha, p, reviewRequired, Some(t), true)]))
  }

  // So does any other failure of it.
  function StepInsertFails(cfg: L.Config, s: System, t: nat, id: nat): Option<System> {
    if !CanInsert(s, t, id) then None else StepLease(cfg, s, t, L.RolledBack(id))
  }

  predicate CanCleanUp(s: System, t: nat, id: nat) {
    && IsLive(s, t, id) && s.subs[t].lease.live[id].rolledBack && OwnsRow(s, t, id)
    && s.subs[t].work[id].placed.Some? && s.subs[t].work[id].placed.value.area == ClientArea
  }

  // What follows a rolled back insert: the claim is renewed, and only then the
  // copy removed again, unless a document refers to it; or that fails too.
  function StepCleanUp(s: System, t: nat, id: nat, removed: bool): Option<System> {
    if !CanCleanUp(s, t, id) then None
    else
      var p, after := s.subs[t].work[id].placed.value, Settled(s, t, id);
      if DocumentOn(s, p) || !removed then Some(after) else Some(after.(objects := s.objects - {p}))
  }

  function StepFinishPending(cfg: L.Config, s: System, t: nat, id: nat, status: L.Status): Option<System> {
    if !Running(s, t, id) || s.subs[t].work[id].placed.None? || s.subs[t].work[id].placed.value.area != PendingArea then None
    else
      var sub := s.subs[t];
      match L.Apply(cfg, sub.lease, L.Finish(id, status))
      case None => None
      case Some(lease) => Some(s.(subs := s.subs[t := sub.(lease := lease, pendingPath := sub.work[id].placed)]))
  }

  // Approve or Replace (asVersion false), Keep as version: the waiting file
  // moves into a client folder. Commit and removal of the original are one step.
  function StepStorePending(s: System, t: nat, client: nat, candidates: seq<Path>, d: nat, asVersion: bool): Option<System> {
    if t !in s.subs || s.subs[t].pendingPath.None? || d in s.docs then None
    else
      var sub := s.subs[t];
      var from := sub.pendingPath.value;
      if from !in s.objects || s.objects[from] != sub.sha then None
      else if exists e :: e in s.docs && s.docs[e].client == client && s.docs[e].sha == sub.sha then None
      else match FirstUsable(s.objects.Keys, {}, candidates)
        case None => None
        case Some(k) =>
          var p := candidates[k];
          if p.area != ClientArea then None
          else
            var row := if asVersion then sub.lease.row else sub.lease.row.(status := L.Processed);
            Some(s.(subs := s.subs[t := sub.(pendingPath := None, lease := sub.lease.(row := row))],
                    docs := s.docs[d := Document(client, sub.sha, p, asVersion, Some(t), false)],
                    objects := s.objects[p := sub.sha] - {from}))
  }

  // REMOVE_FROM_REVIEW of a waiting file; documents forget the submission.
  function StepRemovePending(s: System, t: nat): Option<System> {
    if t !in s.subs || s.subs[t].pendingPath.None? then None
    else Some(s.(subs := s.subs - {t},
                 docs := Forget(s.docs, t),
                 objects := s.objects - {s.subs[t].pendingPath.value}))
  }

  // REMOVE_FROM_REVIEW of a stored REVIEW_REQUIRED document and its file.
  function StepRemoveDocument(s: System, d: nat): Option<System> {
    if d !in s.docs || !s.docs[d].reviewRequired then None
    else
      var p := s.docs[d].path;
      var shared := exists e :: e in s.docs && e != d && s.docs[e].path == p;
      Some(s.(docs := s.docs - {d}, objects := if shared then s.objects else s.objects - {p}))
  }

  function Apply(cfg: L.Config, s: System, a: Action): Option<System> {
    match a
    case Submit(t, start, sha) =>
      if t in s.subs then None
      else Some(s.(subs := s.subs[t := Submission(L.Init(start), sha, map[], None, None)]))
    case LeaseStep(t, step) => StepLease(cfg, s, t, step)
    case Check(t, id, client) =>
      if !Running(s, t, id) then None
      else
        var sub := s.subs[t];
        var outcome := CheckClientChecksum(s.docs, client, sub.sha, t);
        Some(s.(subs := s.subs[t := sub.(work := sub.work[id := sub.work[id].(checked := Some((client, outcome)))])]))
    case Place(t, id, candidates) => StepPlace(s, t, id, candidates)
    case CopyTimesOut(t, id, candidates) => StepCopyTimesOut(s, t, id, candidates)
    case Lands(p, sha) =>
      if (p, sha) !in s.inFlight then None
      else Some(s.(objects := if p in s.objects then s.objects else s.objects[p := sha], inFlight := s.inFlight - {(p, sha)}))
    case Insert(t, id, d, reviewRequired) => StepInsert(cfg, s, t, id, d, reviewRequired)
    case InsertFails(t, id) => StepInsertFails(cfg, s, t, id)
    case CleanUp(t, id, removed) => StepCleanUp(s, t, id, removed)
    case FinishPending(t, id, status) => StepFinishPending(cfg, s, t, id, status)
    case StorePending(t, client, candidates, d, asVersion) => StepStorePending(s, t, client, candidates, d, asVersion)
    case RemovePending(t) => StepRemovePending(s, t)
    case RemoveDocument(d) => StepRemoveDocument(s, d)
  }

  function Exec(cfg: L.Config, s: System, actions: seq<Action>): Option<System>
    decreases |actions|
  {
    if actions == [] then Some(s)
    else match Apply(cfg, s, actions[0])
      case None => None
      case Some(next) => Exec(cfg, next, actions[1..])
  }

  // ------------------------------------------------------------------ properties

  // Exactly-once storing: never two documents the worker stored for one submission.
  ghost predicate ExactlyOnce(s: System) {
    forall d, e ::
      (d in s.docs && e in s.docs && s.docs[d].byWorker && s.docs[e].byWorker
       && s.docs[d].submission.Some? && s.docs[d].submission == s.docs[e].submission) ==> d == e
  }

  // Every path on record (documents and pending) names an existing object with
  // the recorded checksum, and no two records share one.
  ghost predicate Consistent(s: System) {
    && (forall d :: d in s.docs ==> s.docs[d].path in s.objects && s.objects[s.docs[d].path] == s.docs[d].sha)
    && (forall t :: t in s.subs && s.subs[t].pendingPath.Some? ==>
          s.subs[t].pendingPath.value in s.objects && s.objects[s.subs[t].pendingPath.value] == s.subs[t].sha)
    && (forall d, e :: d in s.docs && e in s.docs && s.docs[d].path == s.docs[e].path ==> d == e)
    && (forall t, u :: t in s.subs && u in s.subs && s.subs[t].pendingPath.Some? && s.subs[t].pendingPath == s.subs[u].pendingPath ==> t == u)
    && (forall d, t :: d in s.docs && t in s.subs ==> s.subs[t].pendingPath != Some(s.docs[d].path))
  }

  ghost predicate SafeReleases(cfg: L.Config, s: System) {
    forall t :: t in s.subs ==> L.SafeReleases(cfg, s.subs[t].lease)
  }

  ghost predicate SafeRollbacks(cfg: L.Config, s: System) {
    forall t :: t in s.subs ==> L.SafeRollbacks(cfg, s.subs[t].lease)
  }

  ghost predicate Safe(cfg: L.Config, s: System) {
    SafeReleases(cfg, s) && SafeRollbacks(cfg, s)
  }

  ghost predicate Apart(s: System, a: Action) {
    a.LeaseStep? && a.t in s.subs ==> L.Apart(s.subs[a.t].lease, a.step)
  }

  // As in module Lease, on every submission.
  ghost predicate SafeRun(cfg: L.Config, s: System, actions: seq<Action>, quiet: bool)
    decreases |actions|
  {
    SafeReleases(cfg, s) && (quiet ==> SafeRollbacks(cfg, s)) &&
    (actions != [] ==>
       Apart(s, actions[0]) &&
       match Apply(cfg, s, actions[0])
       case None => true
       case Some(next) => SafeRun(cfg, next, actions[1..], quiet))
  }

  // ------------------------------------------------------------------ invariant

  // The attempt of the latest claim, unless it was released or is gone.
  predicate IsHolder(sub: Submission, id: nat) {
    id + 1 == sub.lease.nextId && id in sub.lease.live && sub.lease.live[id].releasedAt.None?
  }

  // Where the holder has its copy, and whether it saw no document with its file.
  function HolderWork(sub: Submission): Option<Work> {
    if sub.lease.nextId > 0 && IsHolder(sub, sub.lease.nextId - 1) && sub.lease.nextId - 1 in sub.work
    then Some(sub.work[sub.lease.nextId - 1]) else None
  }

  function ViewOf(sub: Submission): View {
    match HolderWork(sub)
    case None => View(sub.sha, sub.pendingPath, None, false)
    case Some(w) => View(sub.sha, sub.pendingPath, w.placed, w.checked.Some? && w.checked.value.1 == New)
  }

  function StoresOf(s: System): State {
    State(map t | t in s.subs :: ViewOf(s.subs[t]), s.docs, s.objects)
  }

  ghost predicate SubOk(cfg: L.Config, sub: Submission) {
    && L.Inv(cfg, sub.lease) && L.Quiet(sub.lease)
    && sub.lease.live.Keys <= sub.work.Keys
    && (sub.lease.row.status == L.Received ==> sub.pendingPath.None?)
    && (HolderWork(sub).Some? ==>
          var w := HolderWork(sub).value;
          if w.placed.Some? then sub.placementPath == w.placed
          else !w.closed ==> sub.placementPath == w.earlier)
  }

  ghost predicate SubsOk(cfg: L.Config, s: System) {
    forall t :: t in s.subs ==> SubOk(cfg, s.subs[t])
  }

  ghost predicate Inv(cfg: L.Config, s: System) {
    SubsOk(cfg, s) && Stores.Inv(StoresOf(s))
  }

  // A conditional update that matches is the holder's (fencing, module Lease).
  lemma OwnerIsHolder(cfg: L.Config, sub: Submission, id: nat)
    requires cfg.Valid() && SubOk(cfg, sub) && L.Safe(cfg, sub.lease)
    requires id in sub.lease.live && L.Owns(sub.lease.row, sub.lease.live[id])
    ensures IsHolder(sub, id) && id + 1 == sub.lease.nextId && HolderWork(sub) == Some(sub.work[id])
    ensures L.Inv(cfg, Renewed(sub.lease, id)) && L.Quiet(Renewed(sub.lease, id))
  {
    L.OnlyLatestOwns(cfg, sub.lease, id);
    L.StepKeepsInv(cfg, sub.lease, L.Renew(id));
    L.StepKeepsQuiet(cfg, sub.lease, L.Renew(id));
  }

  // After a renewal the same attempt is the holder, with the memory given.
  lemma RenewedHolder(cfg: L.Config, sub: Submission, id: nat, w: Work, placementPath: Option<Path>)
    requires cfg.Valid() && SubOk(cfg, sub) && L.Safe(cfg, sub.lease)
    requires id in sub.lease.live && L.Owns(sub.lease.row, sub.lease.live[id])
    requires if w.placed.Some? then placementPath == w.placed else w.closed
    ensures
      var r := sub.(lease := Renewed(sub.lease, id), work := sub.work[id := w], placementPath := placementPath);
      SubOk(cfg, r) && HolderWork(r) == Some(w)
  {
    OwnerIsHolder(cfg, sub, id);
  }

  // Replacing one submission changes one view.
  lemma ReplaceSub(s: System, t: nat, sub: Submission)
    ensures StoresOf(s.(subs := s.subs[t := sub])) == StoresOf(s).(views := StoresOf(s).views[t := ViewOf(sub)])
  {
  }

  lemma KeepSubs(cfg: L.Config, s: System, t: nat, sub: Submission)
    requires SubsOk(cfg, s) && SubOk(cfg, sub)
    ensures SubsOk(cfg, s.(subs := s.subs[t := sub]))
  {
    var r := s.(subs := s.subs[t := sub]);
    forall u | u in r.subs ensures SubOk(cfg, r.subs[u]) {
      if u != t { assert SubOk(cfg, s.subs[u]); }
    }
  }

  lemma ChangeSub(cfg: L.Config, s: System, t: nat, sub: Submission)
    requires Inv(cfg, s) && t in s.subs && SubOk(cfg, sub)
    requires sub.sha == s.subs[t].sha && (sub.pendingPath == s.subs[t].pendingPath || sub.pendingPath.None?)
    requires ViewOf(sub).held.Some? ==>
               HasFile(StoresOf(s), ViewOf(sub).held.value, sub.sha) && Unreferenced(StoresOf(s), t, ViewOf(sub).held.value)
    requires ViewOf(sub).believesNew ==> !StoredByWorker(StoresOf(s), t)
    ensures Inv(cfg, s.(subs := s.subs[t := sub]))
  {
    KeepSubs(cfg, s, t, sub);
    ReplaceSub(s, t, sub);
    assert StoresOf(s).views[t] == ViewOf(s.subs[t]);
    ChangeView(StoresOf(s), t, ViewOf(sub));
  }

  // What the invariant says about the holder of one submission.
  lemma HolderFacts(cfg: L.Config, s: System, t: nat)
    requires Inv(cfg, s) && t in s.subs
    ensures SubOk(cfg, s.subs[t])
    ensures ViewOf(s.subs[t]).held.Some? ==>
              HasFile(StoresOf(s), ViewOf(s.subs[t]).held.value, s.subs[t].sha) && Unreferenced(StoresOf(s), t, ViewOf(s.subs[t]).held.value)
    ensures ViewOf(s.subs[t]).believesNew ==> !StoredByWorker(StoresOf(s), t)
  {
    assert StoresOf(s).views[t] == ViewOf(s.subs[t]);
  }

  // ------------------------------------------------------------------ each step

  // The holder's memory survives a lease step, or there is a new holder that
  // remembers nothing, or none.
  ghost predicate MemoryKept(old': Submission, sub: Submission) {
    HolderWork(sub).Some? ==>
      || HolderWork(sub) == HolderWork(old')
      || (HolderWork(sub).value.placed.None? && HolderWork(sub).value.checked.None?)
  }

  lemma ClaimSub(cfg: L.Config, sub: Submission)
    requires cfg.Valid() && SubOk(cfg, sub) && L.Safe(cfg, sub.lease) && L.Apart(sub.lease, L.Claim)
    requires StepSub(cfg, sub, L.Claim).Some?
    ensures var r := StepSub(cfg, sub, L.Claim).value; SubOk(cfg, r) && MemoryKept(sub, r)
  {
    L.StepKeepsInv(cfg, sub.lease, L.Claim);
    L.StepKeepsQuiet(cfg, sub.lease, L.Claim);
    var r := StepSub(cfg, sub, L.Claim).value;
    assert HolderWork(r) == Some(FreshWork(sub.placementPath));
  }

  // Writes of the attempt that owns the row.
  lemma OwnWriteSub(cfg: L.Config, sub: Submission, step: L.Action)
    requires cfg.Valid() && SubOk(cfg, sub) && L.Safe(cfg, sub.lease) && StepSub(cfg, sub, step).Some?
    requires step.Renew? || step.Release? || step.RetryLater? || step.Finish?
    ensures var r := StepSub(cfg, sub, step).value; SubOk(cfg, r) && MemoryKept(sub, r)
  {
    OwnerIsHolder(cfg, sub, step.id);
    L.StepKeepsInv(cfg, sub.lease, step);
    L.StepKeepsQuiet(cfg, sub.lease, step);
    var r := StepSub(cfg, sub, step).value;
    if step.Renew? {
      assert HolderWork(r) == HolderWork(sub);
    } else {
      assert HolderWork(r).None?;
    }
  }

  lemma OtherStepSub(cfg: L.Config, sub: Submission, step: L.Action)
    requires cfg.Valid() && SubOk(cfg, sub) && L.Safe(cfg, sub.lease) && StepSub(cfg, sub, step).Some?
    requires step.RolledBack? || step.Tick? || step.Enter? || step.Vanish? || step.AdminRetry?
    ensures var r := StepSub(cfg, sub, step).value; SubOk(cfg, r) && MemoryKept(sub, r)
  {
    L.StepKeepsInv(cfg, sub.lease, step);
    L.StepKeepsQuiet(cfg, sub.lease, step);
    var r := StepSub(cfg, sub, step).value;
    assert HolderWork(r).Some? ==> HolderWork(r) == HolderWork(sub);
  }

  lemma LeaseStepSub(cfg: L.Config, sub: Submission, step: L.Action)
    requires cfg.Valid() && SubOk(cfg, sub) && L.Safe(cfg, sub.lease) && L.Apart(sub.lease, step) && StepSub(cfg, sub, step).Some?
    ensures var r := StepSub(cfg, sub, step).value; SubOk(cfg, r) && MemoryKept(sub, r)
  {
    if step.Claim? {
      ClaimSub(cfg, sub);
    } else if step.Renew? || step.Release? || step.RetryLater? || step.Finish? {
      OwnWriteSub(cfg, sub, step);
    } else {
      OtherStepSub(cfg, sub, step);
    }
  }

  lemma MemoryGivesView(old': Submission, sub: Submission)
    requires MemoryKept(old', sub)
    ensures ViewOf(sub).held.Some? ==> ViewOf(sub).held == ViewOf(old').held
    ensures ViewOf(sub).believesNew ==> ViewOf(old').believesNew
  {
  }

  lemma LeaseStepKeepsInv(cfg: L.Config, s: System, t: nat, step: L.Action)
    requires cfg.Valid() && Inv(cfg, s) && Safe(cfg, s) && StepLease(cfg, s, t, step).Some?
    requires L.Apart(s.subs[t].lease, step)
    ensures Inv(cfg, StepLease(cfg, s, t, step).value)
  {
    var sub := StepSub(cfg, s.subs[t], step).value;
    LeaseStepSub(cfg, s.subs[t], step);
    MemoryGivesView(s.subs[t], sub);
    HolderFacts(cfg, s, t);
    ChangeSub(cfg, s, t, sub);
  }

  lemma SubmitKeepsInv(cfg: L.Config, s: System, t: nat, start: int, sha: nat)
    requires cfg.Valid() && Inv(cfg, s) && t !in s.subs
    ensures Inv(cfg, Apply(cfg, s, Submit(t, start, sha)).value)
  {
    var sub := Submission(L.Init(start), sha, map[], None, None);
    FreshSub(cfg, sub, start, sha);
    KeepSubs(cfg, s, t, sub);
    NewView(StoresOf(s), t, sha);
    ReplaceSub(s, t, sub);
  }

  lemma FreshSub(cfg: L.Config, sub: Submission, start: int, sha: nat)
    requires sub == Submission(L.Init(start), sha, map[], None, None)
    ensures SubOk(cfg, sub) && ViewOf(sub) == View(sha, None, None, false)
  {
  }

  // A new outcome in one attempt's memory.
  lemma CheckSub(cfg: L.Config, sub: Submission, id: nat, checked: Option<(nat, Checksum)>)
    requires SubOk(cfg, sub) && id in sub.work
    ensures
      var r := sub.(work := sub.work[id := sub.work[id].(checked := checked)]);
      && SubOk(cfg, r)
      && ViewOf(r).held == ViewOf(sub).held
      && (ViewOf(r).believesNew ==> ViewOf(sub).believesNew || (checked.Some? && checked.value.1 == New))
  {
  }

  lemma NewMeansUnstored(s: System, t: nat, client: nat)
    requires t in s.subs && LinksOk(StoresOf(s)) && CheckClientChecksum(s.docs, client, s.subs[t].sha, t) == New
    ensures !StoredByWorker(StoresOf(s), t)
  {
    forall d | d in s.docs ensures s.docs[d].submission != Some(t) {
      assert s.docs[d].sha != s.subs[t].sha;
      assert StoresOf(s).views[t].sha == s.subs[t].sha;
    }
  }

  lemma CheckKeepsInv(cfg: L.Config, s: System, t: nat, id: nat, client: nat)
    requires cfg.Valid() && Inv(cfg, s) && Safe(cfg, s) && Apply(cfg, s, Check(t, id, client)).Some?
    ensures Inv(cfg, Apply(cfg, s, Check(t, id, client)).value)
  {
    var outcome := CheckClientChecksum(s.docs, client, s.subs[t].sha, t);
    HolderFacts(cfg, s, t);
    CheckSub(cfg, s.subs[t], id, Some((client, outcome)));
    if outcome == New { NewMeansUnstored(s, t, client); }
    ChangeSub(cfg, s, t, Apply(cfg, s, Check(t, id, client)).value.subs[t]);
  }

  lemma LandsKeepsInv(cfg: L.Config, s: System, p: Path, sha: nat)
    requires cfg.Valid() && Inv(cfg, s) && Apply(cfg, s, Lands(p, sha)).Some?
    ensures Inv(cfg, Apply(cfg, s, Lands(p, sha)).value)
  {
    var r := Apply(cfg, s, Lands(p, sha)).value;
    var m := if p in s.objects then s else s.(objects := s.objects[p := sha]);
    if p !in s.objects { AddObjectKeepsInv(cfg, s, p, sha); }
    assert StoresOf(r) == StoresOf(m);
  }

  // What the choice of copyToFreeName guarantees: the name is free, or holds
  // this submission's own earlier copy.
  lemma ChoiceIsFreeOrOwn(s: System, t: nat, id: nat, candidates: seq<Path>)
    requires Running(s, t, id) && Choice(s, t, id, candidates).Some?
    ensures var p := Choice(s, t, id, candidates).value;
            p in candidates && (p in s.objects ==> IsOwnEarlierCopy(s, t, s.subs[t].work[id], p))
  {
  }

  // A path no other submission has recorded is held by no other holder.
  lemma NobodyElseAt(cfg: L.Config, s: System, t: nat, p: Path)
    requires SubsOk(cfg, s) && t in s.subs && s.subs[t].pendingPath != Some(p)
    requires !DocumentOn(s, p) && !OtherSubmissionAt(s, t, p)
    ensures Unreferenced(StoresOf(s), t, p)
  {
    forall u | u in s.subs && u != t
      ensures ViewOf(s.subs[u]).held != Some(p) && s.subs[u].pendingPath != Some(p)
    {
      assert SubOk(cfg, s.subs[u]);
    }
  }

  // Reusing an earlier copy only changes the attempt's memory.
  lemma ReuseSub(cfg: L.Config, sub: Submission, id: nat, p: Path)
    requires SubOk(cfg, sub) && id in sub.work && sub.work[id].placed.None? && !sub.work[id].closed
    requires sub.work[id].earlier == Some(p)
    ensures
      var r := sub.(work := sub.work[id := sub.work[id].(placed := Some(p))]);
      && SubOk(cfg, r)
      && (ViewOf(r).held == ViewOf(sub).held || (ViewOf(r).held == Some(p) && sub.lease.row.status == L.Received))
      && ViewOf(r).believesNew == ViewOf(sub).believesNew
  {
  }

  lemma ReuseKeepsInv(cfg: L.Config, s: System, t: nat, id: nat, candidates: seq<Path>)
    requires cfg.Valid() && Inv(cfg, s) && Safe(cfg, s) && StepPlace(s, t, id, candidates).Some?
    requires Choice(s, t, id, candidates).value in s.objects
    ensures Inv(cfg, StepPlace(s, t, id, candidates).value)
  {
    var p := Choice(s, t, id, candidates).value;
    ChoiceIsFreeOrOwn(s, t, id, candidates);
    HolderFacts(cfg, s, t);
    ReuseSub(cfg, s.subs[t], id, p);
    if s.subs[t].lease.row.status == L.Received { NobodyElseAt(cfg, s, t, p); }
    ChangeSub(cfg, s, t, StepPlace(s, t, id, candidates).value.subs[t]);
  }

  lemma CopyKeepsInv(cfg: L.Config, s: System, t: nat, id: nat, candidates: seq<Path>)
    requires cfg.Valid() && Inv(cfg, s) && Safe(cfg, s) && StepPlace(s, t, id, candidates).Some?
    requires Choice(s, t, id, candidates).value !in s.objects
    ensures Inv(cfg, StepPlace(s, t, id, candidates).value)
  {
    var p := Choice(s, t, id, candidates).value;
    var sub := s.subs[t];
    var w := sub.work[id].(placed := Some(p));
    var m := s.(objects := s.objects[p := sub.sha]);
    HolderFacts(cfg, s, t);
    OwnerIsHolder(cfg, sub, id);
    RenewedHolder(cfg, sub, id, w, Some(p));
    AddObject(StoresOf(s), p, sub.sha);
    assert StoresOf(m) == StoresOf(s).(objects := s.objects[p := sub.sha]);
    assert StoresOf(s).views[t] == ViewOf(sub);
    var r := StepPlace(s, t, id, candidates).value;
    assert r.subs[t] == sub.(lease := Renewed(sub.lease, id), work := sub.work[id := w], placementPath := Some(p));
    ChangeSub(cfg, m, t, r.subs[t]);
    assert r == m.(subs := m.subs[t := r.subs[t]]);
  }

  lemma CopyTimesOutKeepsInv(cfg: L.Config, s: System, t: nat, id: nat, candidates: seq<Path>)
    requires cfg.Valid() && Inv(cfg, s) && Safe(cfg, s) && StepCopyTimesOut(s, t, id, candidates).Some?
    ensures Inv(cfg, StepCopyTimesOut(s, t, id, candidates).value)
  {
    var sub := s.subs[t];
    HolderFacts(cfg, s, t);
    OwnerIsHolder(cfg, sub, id);
    var r := StepCopyTimesOut(s, t, id, candidates).value;
    RenewedHolder(cfg, sub, id, sub.work[id].(closed := true), r.subs[t].placementPath);
    ChangeSub(cfg, s, t, r.subs[t]);
    assert StoresOf(r) == StoresOf(s.(subs := s.subs[t := r.subs[t]]));
  }

  lemma DropObjectKeepsInv(cfg: L.Config, s: System, p: Path)
    requires Inv(cfg, s) && !DocumentAt(StoresOf(s), p) && !PendingAt(StoresOf(s), p)
    requires forall u :: u in StoresOf(s).views ==> StoresOf(s).views[u].held != Some(p)
    ensures Inv(cfg, s.(objects := s.objects - {p}))
  {
    DropObject(StoresOf(s), p);
    assert StoresOf(s.(objects := s.objects - {p})) == StoresOf(s).(objects := s.objects - {p});
  }

  lemma SettledKeepsInv(cfg: L.Config, s: System, t: nat, id: nat, p: Path)
    requires cfg.Valid() && Inv(cfg, s) && Safe(cfg, s) && IsLive(s, t, id) && OwnsRow(s, t, id)
    requires s.subs[t].work[id].placed == Some(p) && p.area == ClientArea
    ensures Inv(cfg, Settled(s, t, id))
    ensures
      var m := StoresOf(Settled(s, t, id));
      && HasFile(m, p, s.subs[t].sha) && !DocumentAt(m, p) && !PendingAt(m, p)
      && (forall u :: u in m.views ==> m.views[u].held != Some(p))
      && !ViewOf(Settled(s, t, id).subs[t]).believesNew
      && (s.subs[t].work[id].checked.Some? && s.subs[t].work[id].checked.value.1 == New ==> !StoredByWorker(m, t))
  {
    var sub := s.subs[t];
    var w := sub.work[id];
    HolderFacts(cfg, s, t);
    OwnerIsHolder(cfg, sub, id);
    RenewedHolder(cfg, sub, id, w.(checked := None, placed := None, closed := true), sub.placementPath);
    var after := Settled(s, t, id).subs[t];
    ChangeSub(cfg, s, t, after);
    ReplaceSub(s, t, after);
    UnreferencedAfter(s, t, after, p);
  }

  // A rolled back transaction leaves row, copy and documents as they were.
  lemma InsertFailsKeepsInv(cfg: L.Config, s: System, t: nat, id: nat)
    requires cfg.Valid() && Inv(cfg, s) && Safe(cfg, s) && StepInsertFails(cfg, s, t, id).Some?
    ensures
      var r := StepInsertFails(cfg, s, t, id).value;
      && Inv(cfg, r) && r.docs == s.docs && r.objects == s.objects && r.subs[t].lease.row == s.subs[t].lease.row
      && r.subs[t].work == s.subs[t].work
  {
    LeaseStepKeepsInv(cfg, s, t, L.RolledBack(id));
  }

  lemma InsertKeepsInv(cfg: L.Config, s: System, t: nat, id: nat, d: nat, reviewRequired: bool)
    requires cfg.Valid() && Inv(cfg, s) && Safe(cfg, s) && StepInsert(cfg, s, t, id, d, reviewRequired).Some?
    ensures Inv(cfg, StepInsert(cfg, s, t, id, d, reviewRequired).value)
  {
    var client, p := s.subs[t].work[id].checked.value.0, s.subs[t].work[id].placed.value;
    if exists e :: e in s.docs && s.docs[e].client == client && s.docs[e].sha == s.subs[t].sha {
      InsertFailsKeepsInv(cfg, s, t, id);
    } else {
      SettledKeepsInv(cfg, s, t, id, p);
      AddDocumentKeepsInv(cfg, Settled(s, t, id), d, Document(client, s.subs[t].sha, p, reviewRequired, Some(t), true), t);
    }
  }

  lemma CleanUpKeepsInv(cfg: L.Config, s: System, t: nat, id: nat, removed: bool)
    requires cfg.Valid() && Inv(cfg, s) && Safe(cfg, s) && StepCleanUp(s, t, id, removed).Some?
    ensures Inv(cfg, StepCleanUp(s, t, id, removed).value)
  {
    var p, m := s.subs[t].work[id].placed.value, Settled(s, t, id);
    SettledKeepsInv(cfg, s, t, id, p);
    if StepCleanUp(s, t, id, removed).value != m { DropObjectKeepsInv(cfg, m, p); }
  }

  // Once the holder let go of p, nobody refers to it.
  lemma UnreferencedAfter(s: System, t: nat, sub: Submission, p: Path)
    requires t in s.subs && Unreferenced(StoresOf(s), t, p)
    requires sub.pendingPath == s.subs[t].pendingPath && ViewOf(sub).held.None?
    ensures
      var m := StoresOf(s.(subs := s.subs[t := sub]));
      && !DocumentAt(m, p) && !PendingAt(m, p)
      && (forall u :: u in m.views ==> m.views[u].held != Some(p))
      && (StoredByWorker(m, t) <==> StoredByWorker(StoresOf(s), t))
  {
    ReplaceSub(s, t, sub);
    var m := StoresOf(s.(subs := s.subs[t := sub]));
    assert StoresOf(s).views[t].pending == m.views[t].pending;
    forall q | PendingAt(m, q) ensures PendingAt(StoresOf(s), q) {}
  }

  lemma FinishPendingKeepsInv(cfg: L.Config, s: System, t: nat, id: nat, status: L.Status)
    requires cfg.Valid() && Inv(cfg, s) && Safe(cfg, s) && StepFinishPending(cfg, s, t, id, status).Some?
    ensures Inv(cfg, StepFinishPending(cfg, s, t, id, status).value)
  {
    var sub := s.subs[t];
    HolderFacts(cfg, s, t);
    FinishPendingSub(cfg, sub, id, status);
    var r := StepFinishPending(cfg, s, t, id, status).value;
    KeepSubs(cfg, s, t, r.subs[t]);
    ReplaceSub(s, t, r.subs[t]);
    assert StoresOf(s).views[t] == ViewOf(sub);
    SetPending(StoresOf(s), t, ViewOf(r.subs[t]));
  }

  lemma FinishPendingSub(cfg: L.Config, sub: Submission, id: nat, status: L.Status)
    requires cfg.Valid() && SubOk(cfg, sub) && L.Safe(cfg, sub.lease)
    requires id in sub.lease.live && id in sub.work && sub.work[id].placed.Some?
    requires L.Apply(cfg, sub.lease, L.Finish(id, status)).Some?
    ensures
      var r := sub.(lease := L.Apply(cfg, sub.lease, L.Finish(id, status)).value, pendingPath := sub.work[id].placed);
      && SubOk(cfg, r) && ViewOf(sub).held == sub.work[id].placed
      && ViewOf(r) == View(sub.sha, sub.work[id].placed, None, false)
  {
    OwnerIsHolder(cfg, sub, id);
    L.StepKeepsInv(cfg, sub.lease, L.Finish(id, status));
    L.StepKeepsQuiet(cfg, sub.lease, L.Finish(id, status));
  }

  // A waiting file has no running attempt that owns it; its row may be resolved.
  lemma WaitingSub(cfg: L.Config, sub: Submission, row: L.Row)
    requires cfg.Valid() && SubOk(cfg, sub) && sub.pendingPath.Some?
    requires row == sub.lease.row || row == sub.lease.row.(status := L.Processed)
    ensures ViewOf(sub).held.None? && !ViewOf(sub).believesNew
    ensures
      var r := sub.(pendingPath := None, lease := sub.lease.(row := row));
      SubOk(cfg, r) && ViewOf(r) == View(sub.sha, None, None, false)
  {
  }

  lemma AddObjectKeepsInv(cfg: L.Config, s: System, p: Path, sha: nat)
    requires Inv(cfg, s) && p !in s.objects
    ensures Inv(cfg, s.(objects := s.objects[p := sha]))
    ensures forall t :: t in s.subs ==> Unreferenced(StoresOf(s.(objects := s.objects[p := sha])), t, p)
  {
    AddObject(StoresOf(s), p, sha);
    assert StoresOf(s.(objects := s.objects[p := sha])) == StoresOf(s).(objects := s.objects[p := sha]);
    assert StoresOf(s).views.Keys == s.subs.Keys;
  }

  lemma AddDocumentKeepsInv(cfg: L.Config, s: System, d: nat, doc: Document, t: nat)
    requires Inv(cfg, s) && d !in s.docs && t in s.subs && doc.submission == Some(t) && doc.sha == s.subs[t].sha
    requires doc.path.area == ClientArea && HasFile(StoresOf(s), doc.path, doc.sha)
    requires doc.byWorker ==> !StoredByWorker(StoresOf(s), t) && !ViewOf(s.subs[t]).believesNew
    requires !DocumentAt(StoresOf(s), doc.path) && !PendingAt(StoresOf(s), doc.path)
    requires forall u :: u in StoresOf(s).views ==> StoresOf(s).views[u].held != Some(doc.path)
    ensures Inv(cfg, s.(docs := s.docs[d := doc]))
  {
    assert StoresOf(s).views[t] == ViewOf(s.subs[t]);
    AddDocument(StoresOf(s), d, doc, t);
    assert StoresOf(s.(docs := s.docs[d := doc])) == StoresOf(s).(docs := s.docs[d := doc]);
  }

  // A waiting file's row is resolved: no pending path any more.
  lemma ResolveKeepsInv(cfg: L.Config, s: System, t: nat, row: L.Row)
    requires cfg.Valid() && Inv(cfg, s) && t in s.subs && s.subs[t].pendingPath.Some?
    requires row == s.subs[t].lease.row || row == s.subs[t].lease.row.(status := L.Processed)
    ensures
      var sub := s.subs[t].(pendingPath := None, lease := s.subs[t].lease.(row := row));
      Inv(cfg, s.(subs := s.subs[t := sub])) && ViewOf(sub) == View(sub.sha, None, None, false)
  {
    HolderFacts(cfg, s, t);
    WaitingSub(cfg, s.subs[t], row);
    ChangeSub(cfg, s, t, s.subs[t].(pendingPath := None, lease := s.subs[t].lease.(row := row)));
  }

  // The copy and the commit, before the original is removed.
  lemma StoredBeforeRemoval(cfg: L.Config, s: System, t: nat, p: Path, d: nat, doc: Document, row: L.Row)
    requires cfg.Valid() && Inv(cfg, s) && t in s.subs && s.subs[t].pendingPath.Some?
    requires row == s.subs[t].lease.row || row == s.subs[t].lease.row.(status := L.Processed)
    requires p !in s.objects && p.area == ClientArea && d !in s.docs
    requires doc.path == p && doc.sha == s.subs[t].sha && doc.submission == Some(t) && !doc.byWorker
    ensures
      var sub := s.subs[t].(pendingPath := None, lease := s.subs[t].lease.(row := row));
      Inv(cfg, System(s.subs[t := sub], s.docs[d := doc], s.objects[p := doc.sha], s.inFlight)) && ViewOf(sub) == View(doc.sha, None, None, false)
  {
    var sub := s.subs[t].(pendingPath := None, lease := s.subs[t].lease.(row := row));
    var m1 := s.(objects := s.objects[p := doc.sha]);
    AddObjectKeepsInv(cfg, s, p, doc.sha);
    ResolveKeepsInv(cfg, m1, t, row);
    var m2 := m1.(subs := m1.subs[t := sub]);
    ResolvedUnreferenced(m1, t, sub, p);
    AddDocumentKeepsInv(cfg, m2, d, doc, t);
    assert m2.(docs := m2.docs[d := doc]) == System(s.subs[t := sub], s.docs[d := doc], s.objects[p := doc.sha], s.inFlight);
  }

  lemma ResolvedUnreferenced(s: System, t: nat, sub: Submission, p: Path)
    requires t in s.subs && Unreferenced(StoresOf(s), t, p) && ViewOf(sub) == View(sub.sha, None, None, false)
    ensures
      var m := StoresOf(s.(subs := s.subs[t := sub]));
      !DocumentAt(m, p) && !PendingAt(m, p) && (forall u :: u in m.views ==> m.views[u].held != Some(p))
  {
    ReplaceSub(s, t, sub);
    var m := StoresOf(s.(subs := s.subs[t := sub]));
    forall q | PendingAt(m, q) ensures PendingAt(StoresOf(s), q) {}
  }

  lemma StorePendingKeepsInv(cfg: L.Config, s: System, t: nat, client: nat, candidates: seq<Path>, d: nat, asVersion: bool)
    requires cfg.Valid() && Inv(cfg, s) && StepStorePending(s, t, client, candidates, d, asVersion).Some?
    ensures Inv(cfg, StepStorePending(s, t, client, candidates, d, asVersion).value)
  {
    var from := s.subs[t].pendingPath.value;
    var r := StepStorePending(s, t, client, candidates, d, asVersion).value;
    var p := candidates[FirstUsable(s.objects.Keys, {}, candidates).value];
    StoredBeforeRemoval(cfg, s, t, p, d, r.docs[d], r.subs[t].lease.row);
    var m := System(r.subs, r.docs, s.objects[p := s.subs[t].sha], s.inFlight);
    PendingFacts(s, t);
    assert Agree(StoresOf(m));
    ClearedAt(s, m, t, from);
    DropObjectKeepsInv(cfg, m, from);
    assert r == m.(objects := m.objects - {from});
  }

  lemma PendingFacts(s: System, t: nat)
    requires t in s.subs && s.subs[t].pendingPath.Some? && Stores.Inv(StoresOf(s))
    ensures s.subs[t].pendingPath.value.area == PendingArea
    ensures forall u :: u in s.subs && u != t ==> s.subs[u].pendingPath != s.subs[t].pendingPath
    ensures forall u :: u in s.subs ==> ViewOf(s.subs[u]).held != s.subs[t].pendingPath
  {
    var st := StoresOf(s);
    assert st.views[t].pending == s.subs[t].pendingPath;
    assert PendingAt(st, s.subs[t].pendingPath.value);
    forall u | u in s.subs
      ensures ViewOf(s.subs[u]).held != s.subs[t].pendingPath && (u != t ==> s.subs[u].pendingPath != s.subs[t].pendingPath)
    {
      assert st.views[u] == ViewOf(s.subs[u]);
    }
  }

  // After a waiting file was stored, nothing refers to its pending path.
  lemma ClearedAt(s: System, m: System, t: nat, from: Path)
    requires t in s.subs && t in m.subs && s.subs[t].pendingPath == Some(from) && from.area == PendingArea
    requires m.subs == s.subs[t := m.subs[t]] && ViewOf(m.subs[t]).held.None? && m.subs[t].pendingPath.None?
    requires forall u :: u in s.subs && u != t ==> s.subs[u].pendingPath != Some(from)
    requires forall u :: u in s.subs ==> ViewOf(s.subs[u]).held != Some(from)
    requires forall d :: d in m.docs ==> m.docs[d].path.area == ClientArea
    ensures !DocumentAt(StoresOf(m), from) && !PendingAt(StoresOf(m), from)
    ensures forall u :: u in StoresOf(m).views ==> StoresOf(m).views[u].held != Some(from)
  {
    forall u | u in m.subs && u != t ensures m.subs[u] == s.subs[u] {}
  }

  lemma DropSub(cfg: L.Config, s: System, t: nat)
    requires Inv(cfg, s) && t in s.subs
    ensures Inv(cfg, s.(subs := s.subs - {t}, docs := Forget(s.docs, t)))
  {
    var st := StoresOf(s);
    ForgetSubmission(st, t);
    DropView(st.(docs := Forget(st.docs, t)), t);
    StoresWithout(s, t);
    SubsWithout(cfg, s, t);
  }

  lemma StoresWithout(s: System, t: nat)
    ensures
      StoresOf(s.(subs := s.subs - {t}, docs := Forget(s.docs, t))) ==
      StoresOf(s).(views := StoresOf(s).views - {t}, docs := Forget(s.docs, t))
  {
  }

  lemma SubsWithout(cfg: L.Config, s: System, t: nat)
    requires SubsOk(cfg, s)
    ensures SubsOk(cfg, s.(subs := s.subs - {t}, docs := Forget(s.docs, t)))
  {
    forall u | u in s.subs && u != t ensures SubOk(cfg, s.subs[u]) {}
  }

  // Once its submission is gone, nothing refers to a pending path.
  lemma PendingForgotten(s: System, m: System, t: nat, from: Path)
    requires t in s.subs && s.subs[t].pendingPath == Some(from) && Stores.Inv(StoresOf(s))
    requires Agree(StoresOf(m)) && forall u :: u in m.subs ==> u != t && u in s.subs && m.subs[u] == s.subs[u]
    ensures !DocumentAt(StoresOf(m), from) && !PendingAt(StoresOf(m), from)
    ensures forall u :: u in StoresOf(m).views ==> StoresOf(m).views[u].held != Some(from)
  {
    PendingFacts(s, t);
  }

  lemma RemovePendingKeepsInv(cfg: L.Config, s: System, t: nat)
    requires cfg.Valid() && Inv(cfg, s) && StepRemovePending(s, t).Some?
    ensures Inv(cfg, StepRemovePending(s, t).value)
  {
    var from := s.subs[t].pendingPath.value;
    DropSub(cfg, s, t);
    var m := s.(subs := s.subs - {t}, docs := Forget(s.docs, t));
    PendingForgotten(s, m, t, from);
    DropObjectKeepsInv(cfg, m, from);
    assert StepRemovePending(s, t).value == m.(objects := m.objects - {from});
  }

  lemma RemoveDocumentKeepsInv(cfg: L.Config, s: System, d: nat)
    requires cfg.Valid() && Inv(cfg, s) && StepRemoveDocument(s, d).Some?
    ensures Inv(cfg, StepRemoveDocument(s, d).value)
  {
    var p := s.docs[d].path;
    var st := StoresOf(s);
    var r := StepRemoveDocument(s, d).value;
    DropDocument(st, d);
    var st1 := st.(docs := st.docs - {d});
    assert DocumentAt(st, p);
    HoldersElsewhere(s, p);
    forall t | t in st.views ensures st.views[t].pending != Some(p) {}
    assert forall e :: e in s.docs && e != d ==> s.docs[e].path != p;
    DropObject(st1, p);
    assert StoresOf(r) == st1.(objects := st1.objects - {p});
  }

  lemma HoldersElsewhere(s: System, p: Path)
    requires Stores.Inv(StoresOf(s)) && DocumentAt(StoresOf(s), p)
    ensures forall u :: u in StoresOf(s).views ==> StoresOf(s).views[u].held != Some(p)
  {
  }

  lemma StepKeepsInv(cfg: L.Config, s: System, a: Action)
    requires cfg.Valid() && Inv(cfg, s) && Safe(cfg, s) && Apart(s, a) && Apply(cfg, s, a).Some?
    ensures Inv(cfg, Apply(cfg, s, a).value)
  {
    match a
    case Submit(t, start, sha) => SubmitKeepsInv(cfg, s, t, start, sha);
    case LeaseStep(t, step) => LeaseStepKeepsInv(cfg, s, t, step);
    case Check(t, id, client) => CheckKeepsInv(cfg, s, t, id, client);
    case Place(t, id, candidates) =>
      if Choice(s, t, id, candidates).value in s.objects {
        ReuseKeepsInv(cfg, s, t, id, candidates);
      } else {
        CopyKeepsInv(cfg, s, t, id, candidates);
      }
    case CopyTimesOut(t, id, candidates) => CopyTimesOutKeepsInv(cfg, s, t, id, candidates);
    case Lands(p, sha) => LandsKeepsInv(cfg, s, p, sha);
    case Insert(t, id, d, reviewRequired) => InsertKeepsInv(cfg, s, t, id, d, reviewRequired);
    case InsertFails(t, id) => InsertFailsKeepsInv(cfg, s, t, id);
    case CleanUp(t, id, removed) => CleanUpKeepsInv(cfg, s, t, id, removed);
    case FinishPending(t, id, status) => FinishPendingKeepsInv(cfg, s, t, id, status);
    case StorePending(t, client, candidates, d, asVersion) => StorePendingKeepsInv(cfg, s, t, client, candidates, d, asVersion);
    case RemovePending(t) => RemovePendingKeepsInv(cfg, s, t);
    case RemoveDocument(d) => RemoveDocumentKeepsInv(cfg, s, d);
  }

  // ------------------------------------------------------------------ storing once

  // What storing once needs, wherever the objects are: rolled back attempts may
  // own rows again and clean up as they like.
  ghost predicate OnceSub(cfg: L.Config, sub: Submission) {
    L.Inv(cfg, sub.lease) && sub.lease.live.Keys <= sub.work.Keys && (sub.lease.row.status == L.Received ==> sub.pendingPath.None?)
  }

  ghost predicate OnceInv(cfg: L.Config, s: System) {
    && (forall t :: t in s.subs ==> OnceSub(cfg, s.subs[t]))
    && Stores.StoredOnce(StoresOf(s)) && LinksOk(StoresOf(s)) && NewIsTrue(StoresOf(s))
  }

  lemma OnceView(st: State, t: nat, v: View)
    requires Stores.StoredOnce(st) && LinksOk(st) && NewIsTrue(st)
    requires (t in st.views ==> v.sha == st.views[t].sha) && (v.believesNew ==> !StoredByWorker(st, t))
    ensures var m := st.(views := st.views[t := v]); Stores.StoredOnce(m) && LinksOk(m) && NewIsTrue(m)
  {
    var m := st.(views := st.views[t := v]);
    forall u | u in m.views && m.views[u].believesNew ensures !StoredByWorker(m, u) {
      assert !StoredByWorker(st, u);
    }
  }

  lemma OnceWith(cfg: L.Config, s: System, t: nat, sub: Submission, objects: map<Path, nat>, inFlight: set<(Path, nat)>)
    requires OnceInv(cfg, s) && OnceSub(cfg, sub) && (t in s.subs ==> sub.sha == s.subs[t].sha)
    requires ViewOf(sub).believesNew ==> !StoredByWorker(StoresOf(s), t)
    ensures OnceInv(cfg, System(s.subs[t := sub], s.docs, objects, inFlight))
  {
    var st, r := StoresOf(s), System(s.subs[t := sub], s.docs, objects, inFlight);
    assert t in s.subs ==> st.views[t] == ViewOf(s.subs[t]);
    OnceView(st, t, ViewOf(sub));
    OnceIgnoresObjects(st.(views := st.views[t := ViewOf(sub)]), StoresOf(r));
  }

  lemma OnceIgnoresObjects(a: State, b: State)
    requires Stores.StoredOnce(a) && LinksOk(a) && NewIsTrue(a) && a.views == b.views && a.docs == b.docs
    ensures Stores.StoredOnce(b) && LinksOk(b) && NewIsTrue(b)
  {
    forall t | t in b.views && b.views[t].believesNew ensures !StoredByWorker(b, t) { assert !StoredByWorker(a, t); }
  }

  lemma OnceFacts(cfg: L.Config, s: System, t: nat)
    requires OnceInv(cfg, s) && t in s.subs
    ensures OnceSub(cfg, s.subs[t]) && (ViewOf(s.subs[t]).believesNew ==> !StoredByWorker(StoresOf(s), t))
  {
    assert StoresOf(s).views[t] == ViewOf(s.subs[t]);
  }

  // Nobody becomes the holder but by a claim.
  lemma NoNewHolder(cfg: L.Config, sub: Submission, step: L.Action, r: Submission)
    requires !step.Claim? && L.Apply(cfg, sub.lease, step) == Some(r.lease) && r.work.Keys == sub.work.Keys
    requires forall i :: i in sub.work ==> r.work[i].checked.None? || r.work[i].checked == sub.work[i].checked
    ensures ViewOf(r).believesNew ==> ViewOf(sub).believesNew
  {
  }

  lemma ClaimOnceSub(cfg: L.Config, sub: Submission)
    requires cfg.Valid() && OnceSub(cfg, sub) && L.SafeReleases(cfg, sub.lease) && L.Apart(sub.lease, L.Claim) && StepSub(cfg, sub, L.Claim).Some?
    ensures var r := StepSub(cfg, sub, L.Claim).value; OnceSub(cfg, r) && !ViewOf(r).believesNew
  {
    L.StepKeepsInv(cfg, sub.lease, L.Claim);
    var r := StepSub(cfg, sub, L.Claim).value;
    assert HolderWork(r) == Some(FreshWork(sub.placementPath));
  }

  lemma OtherOnceSub(cfg: L.Config, sub: Submission, step: L.Action)
    requires cfg.Valid() && OnceSub(cfg, sub) && L.SafeReleases(cfg, sub.lease) && !step.Claim? && StepSub(cfg, sub, step).Some?
    ensures var r := StepSub(cfg, sub, step).value; OnceSub(cfg, r) && (ViewOf(r).believesNew ==> ViewOf(sub).believesNew)
  {
    L.StepKeepsInv(cfg, sub.lease, step);
    var r := StepSub(cfg, sub, step).value;
    NoNewHolder(cfg, sub, step, r);
    StepKeepsWaiting(cfg, sub.lease, step);
  }

  // Only an admin's retry makes a row waiting again.
  lemma StepKeepsWaiting(cfg: L.Config, lease: L.State, step: L.Action)
    requires L.Apply(cfg, lease, step).Some?
    ensures
      var r := L.Apply(cfg, lease, step).value;
      (r.row.status == L.Received ==> lease.row.status == L.Received || step.AdminRetry?) && (!step.Claim? ==> r.live.Keys <= lease.live.Keys)
  {
  }

  lemma LeaseStepKeepsOnce(cfg: L.Config, s: System, t: nat, step: L.Action)
    requires cfg.Valid() && OnceInv(cfg, s) && SafeReleases(cfg, s) && StepLease(cfg, s, t, step).Some? && L.Apart(s.subs[t].lease, step)
    ensures OnceInv(cfg, StepLease(cfg, s, t, step).value)
  {
    OnceFacts(cfg, s, t);
    if step.Claim? { ClaimOnceSub(cfg, s.subs[t]); } else { OtherOnceSub(cfg, s.subs[t], step); }
    OnceWith(cfg, s, t, StepSub(cfg, s.subs[t], step).value, s.objects, s.inFlight);
  }

  // A renewal together with a change of the attempt's memory.
  lemma RenewKeepsOnce(cfg: L.Config, s: System, t: nat, id: nat, w: Work, path: Option<Path>, objects: map<Path, nat>, inFlight: set<(Path, nat)>)
    requires cfg.Valid() && OnceInv(cfg, s) && SafeReleases(cfg, s) && IsLive(s, t, id) && OwnsRow(s, t, id)
    requires w.checked.None? || w.checked == s.subs[t].work[id].checked
    ensures
      var sub := s.subs[t].(lease := Renewed(s.subs[t].lease, id), placementPath := path, work := s.subs[t].work[id := w]);
      OnceInv(cfg, System(s.subs[t := sub], s.docs, objects, inFlight))
  {
    var sub := s.subs[t].(lease := Renewed(s.subs[t].lease, id), placementPath := path, work := s.subs[t].work[id := w]);
    OnceFacts(cfg, s, t);
    L.StepKeepsInv(cfg, s.subs[t].lease, L.Renew(id));
    NoNewHolder(cfg, s.subs[t], L.Renew(id), sub);
    OnceWith(cfg, s, t, sub, objects, inFlight);
  }

  lemma SettledKeepsOnce(cfg: L.Config, s: System, t: nat, id: nat, objects: map<Path, nat>)
    requires cfg.Valid() && OnceInv(cfg, s) && SafeReleases(cfg, s) && IsLive(s, t, id) && OwnsRow(s, t, id)
    ensures OnceInv(cfg, Settled(s, t, id).(objects := objects))
  {
    var w := s.subs[t].work[id].(checked := None, placed := None, closed := true);
    RenewKeepsOnce(cfg, s, t, id, w, s.subs[t].placementPath, objects, s.inFlight);
    assert Settled(s, t, id).(objects := objects).subs ==
           s.subs[t := s.subs[t].(lease := Renewed(s.subs[t].lease, id), placementPath := s.subs[t].placementPath, work := s.subs[t].work[id := w])];
  }

  lemma CleanUpKeepsOnce(cfg: L.Config, s: System, t: nat, id: nat, removed: bool)
    requires cfg.Valid() && OnceInv(cfg, s) && SafeReleases(cfg, s) && StepCleanUp(s, t, id, removed).Some?
    ensures OnceInv(cfg, StepCleanUp(s, t, id, removed).value)
  {
    var r := StepCleanUp(s, t, id, removed).value;
    SettledKeepsOnce(cfg, s, t, id, r.objects);
    assert r == Settled(s, t, id).(objects := r.objects);
  }

  lemma CheckKeepsOnce(cfg: L.Config, s: System, t: nat, id: nat, client: nat)
    requires OnceInv(cfg, s) && Apply(cfg, s, Check(t, id, client)).Some?
    ensures OnceInv(cfg, Apply(cfg, s, Check(t, id, client)).value)
  {
    var outcome := CheckClientChecksum(s.docs, client, s.subs[t].sha, t);
    var r := Apply(cfg, s, Check(t, id, client)).value;
    OnceFacts(cfg, s, t);
    if outcome == New { NewMeansUnstored(s, t, client); }
    OnceWith(cfg, s, t, r.subs[t], s.objects, s.inFlight);
  }

  lemma PlaceKeepsOnce(cfg: L.Config, s: System, t: nat, id: nat, candidates: seq<Path>)
    requires cfg.Valid() && OnceInv(cfg, s) && SafeReleases(cfg, s) && StepPlace(s, t, id, candidates).Some?
    ensures OnceInv(cfg, StepPlace(s, t, id, candidates).value)
  {
    var p := Choice(s, t, id, candidates).value;
    var w := s.subs[t].work[id].(placed := Some(p));
    OnceFacts(cfg, s, t);
    if p in s.objects {
      RememberedOnce(cfg, s, t, id, w);
    } else {
      RenewKeepsOnce(cfg, s, t, id, w, Some(p), s.objects[p := s.subs[t].sha], s.inFlight);
    }
  }

  // A change of memory that is no new checksum outcome.
  lemma RememberedOnce(cfg: L.Config, s: System, t: nat, id: nat, w: Work)
    requires OnceInv(cfg, s) && IsLive(s, t, id) && w.checked == s.subs[t].work[id].checked
    ensures OnceInv(cfg, s.(subs := s.subs[t := s.subs[t].(work := s.subs[t].work[id := w])]))
  {
    OnceFacts(cfg, s, t);
    OnceWith(cfg, s, t, s.subs[t].(work := s.subs[t].work[id := w]), s.objects, s.inFlight);
  }

  lemma CopyTimesOutKeepsOnce(cfg: L.Config, s: System, t: nat, id: nat, candidates: seq<Path>)
    requires cfg.Valid() && OnceInv(cfg, s) && SafeReleases(cfg, s) && StepCopyTimesOut(s, t, id, candidates).Some?
    ensures OnceInv(cfg, StepCopyTimesOut(s, t, id, candidates).value)
  {
    var p, sub := Choice(s, t, id, candidates).value, s.subs[t];
    RenewKeepsOnce(cfg, s, t, id, sub.work[id].(closed := true), Some(p), s.objects, s.inFlight + {(p, sub.sha)});
  }

  // The insert is the holder's, which saw no document with its file.
  lemma InsertedOnce(cfg: L.Config, s: System, t: nat, id: nat, d: nat, doc: Document)
    requires cfg.Valid() && OnceInv(cfg, s) && SafeReleases(cfg, s) && CanInsert(s, t, id) && d !in s.docs
    requires doc.submission == Some(t) && doc.sha == s.subs[t].sha
    ensures OnceInv(cfg, Settled(s, t, id).(docs := s.docs[d := doc]))
  {
    var m := Settled(s, t, id);
    OnceFacts(cfg, s, t);
    L.PlainOwnerIsLatest(cfg, s.subs[t].lease, id);
    assert HolderWork(s.subs[t]) == Some(s.subs[t].work[id]);
    SettledKeepsOnce(cfg, s, t, id, s.objects);
    assert m.(objects := s.objects) == m;
    var r := m.(docs := s.docs[d := doc]);
    AddedOnce(StoresOf(m), d, doc, t);
    assert StoresOf(r) == StoresOf(m).(docs := s.docs[d := doc]);
    assert StoredByWorker(StoresOf(m), t) == StoredByWorker(StoresOf(s), t);
    assert StoresOf(m).views[t] == ViewOf(m.subs[t]);
  }

  lemma AddedOnce(st: State, d: nat, doc: Document, t: nat)
    requires Stores.StoredOnce(st) && LinksOk(st) && NewIsTrue(st) && d !in st.docs && t in st.views
    requires doc.submission == Some(t) && doc.sha == st.views[t].sha
    requires doc.byWorker ==> !StoredByWorker(st, t) && !st.views[t].believesNew
    ensures var r := st.(docs := st.docs[d := doc]); Stores.StoredOnce(r) && LinksOk(r) && NewIsTrue(r)
  {
    var r := st.(docs := st.docs[d := doc]);
    forall u | u in r.views && r.views[u].believesNew ensures !StoredByWorker(r, u) {
      assert !StoredByWorker(st, u);
    }
  }

  lemma InsertKeepsOnce(cfg: L.Config, s: System, t: nat, id: nat, d: nat, reviewRequired: bool)
    requires cfg.Valid() && OnceInv(cfg, s) && SafeReleases(cfg, s) && StepInsert(cfg, s, t, id, d, reviewRequired).Some?
    ensures OnceInv(cfg, StepInsert(cfg, s, t, id, d, reviewRequired).value)
  {
    var client, p := s.subs[t].work[id].checked.value.0, s.subs[t].work[id].placed.value;
    if exists e :: e in s.docs && s.docs[e].client == client && s.docs[e].sha == s.subs[t].sha {
      LeaseStepKeepsOnce(cfg, s, t, L.RolledBack(id));
    } else {
      InsertedOnce(cfg, s, t, id, d, Document(client, s.subs[t].sha, p, reviewRequired, Some(t), true));
    }
  }

  lemma FinishPendingKeepsOnce(cfg: L.Config, s: System, t: nat, id: nat, status: L.Status)
    requires cfg.Valid() && OnceInv(cfg, s) && SafeReleases(cfg, s) && StepFinishPending(cfg, s, t, id, status).Some?
    ensures OnceInv(cfg, StepFinishPending(cfg, s, t, id, status).value)
  {
    var r := StepFinishPending(cfg, s, t, id, status).value;
    OnceFacts(cfg, s, t);
    L.StepKeepsInv(cfg, s.subs[t].lease, L.Finish(id, status));
    NoNewHolder(cfg, s.subs[t], L.Finish(id, status), r.subs[t]);
    OnceWith(cfg, s, t, r.subs[t], s.objects, s.inFlight);
  }

  lemma StorePendingKeepsOnce(cfg: L.Config, s: System, t: nat, client: nat, candidates: seq<Path>, d: nat, asVersion: bool)
    requires cfg.Valid() && OnceInv(cfg, s) && StepStorePending(s, t, client, candidates, d, asVersion).Some?
    ensures OnceInv(cfg, StepStorePending(s, t, client, candidates, d, asVersion).value)
  {
    var r := StepStorePending(s, t, client, candidates, d, asVersion).value;
    OnceFacts(cfg, s, t);
    var m := System(s.subs[t := r.subs[t]], s.docs, r.objects, s.inFlight);
    OnceWith(cfg, s, t, r.subs[t], r.objects, s.inFlight);
    assert StoresOf(m).views[t] == ViewOf(r.subs[t]);
    AddedOnce(StoresOf(m), d, r.docs[d], t);
    assert StoresOf(r) == StoresOf(m).(docs := s.docs[d := r.docs[d]]);
  }

  predicate SameOrForgotten(before: Document, after: Document) {
    after.sha == before.sha && after.byWorker == before.byWorker && (after.submission.None? || after.submission == before.submission)
  }

  lemma FewerOnce(st: State, m: State)
    requires Stores.StoredOnce(st) && LinksOk(st) && NewIsTrue(st)
    requires forall t :: t in m.views ==> t in st.views && m.views[t] == st.views[t]
    requires forall d :: d in m.docs ==> d in st.docs && SameOrForgotten(st.docs[d], m.docs[d])
    requires forall d :: d in m.docs && m.docs[d].submission.Some? ==> m.docs[d].submission.value in m.views
    ensures Stores.StoredOnce(m) && LinksOk(m) && NewIsTrue(m)
  {
    forall t | t in m.views && m.views[t].believesNew ensures !StoredByWorker(m, t) {
      assert !StoredByWorker(st, t);
      forall d | d in m.docs && m.docs[d].byWorker ensures m.docs[d].submission != Some(t) { assert d in st.docs; }
    }
  }

  // Documents that go, or forget their submission, leave the rest as it was.
  lemma FewerDocumentsKeepOnce(cfg: L.Config, s: System, r: System)
    requires OnceInv(cfg, s)
    requires forall t :: t in r.subs ==> t in s.subs && r.subs[t] == s.subs[t]
    requires forall d :: d in r.docs ==> d in s.docs && SameOrForgotten(s.docs[d], r.docs[d])
    requires forall d :: d in r.docs && r.docs[d].submission.Some? ==> r.docs[d].submission.value in r.subs
    ensures OnceInv(cfg, r)
  {
    var st, m := StoresOf(s), StoresOf(r);
    assert m.docs == r.docs && st.docs == s.docs && m.views.Keys == r.subs.Keys;
    forall t | t in m.views ensures t in st.views && m.views[t] == st.views[t] {}
    FewerOnce(st, m);
  }

  lemma LinksOfSystem(s: System)
    requires LinksOk(StoresOf(s))
    ensures forall d :: d in s.docs && s.docs[d].submission.Some? ==> s.docs[d].submission.value in s.subs
  {
    assert StoresOf(s).views.Keys == s.subs.Keys;
  }

  lemma SubmitKeepsOnce(cfg: L.Config, s: System, t: nat, start: int, sha: nat)
    requires cfg.Valid() && OnceInv(cfg, s) && t !in s.subs
    ensures OnceInv(cfg, Apply(cfg, s, Submit(t, start, sha)).value)
  {
    var sub := Submission(L.Init(start), sha, map[], None, None);
    FreshSub(cfg, sub, start, sha);
    OnceWith(cfg, s, t, sub, s.objects, s.inFlight);
  }

  lemma RemovalKeepsOnce(cfg: L.Config, s: System, a: Action)
    requires a.RemovePending? || a.RemoveDocument? || a.Lands?
    requires OnceInv(cfg, s) && Apply(cfg, s, a).Some?
    ensures OnceInv(cfg, Apply(cfg, s, a).value)
  {
    LinksOfSystem(s);
    FewerDocumentsKeepOnce(cfg, s, Apply(cfg, s, a).value);
  }

  lemma StepKeepsOnce(cfg: L.Config, s: System, a: Action)
    requires cfg.Valid() && OnceInv(cfg, s) && SafeReleases(cfg, s) && Apart(s, a) && Apply(cfg, s, a).Some?
    ensures OnceInv(cfg, Apply(cfg, s, a).value)
  {
    match a
    case Submit(t, start, sha) => SubmitKeepsOnce(cfg, s, t, start, sha);
    case LeaseStep(t, step) => LeaseStepKeepsOnce(cfg, s, t, step);
    case Check(t, id, client) => CheckKeepsOnce(cfg, s, t, id, client);
    case Place(t, id, candidates) => PlaceKeepsOnce(cfg, s, t, id, candidates);
    case CopyTimesOut(t, id, candidates) => CopyTimesOutKeepsOnce(cfg, s, t, id, candidates);
    case Lands(_, _) => RemovalKeepsOnce(cfg, s, a);
    case Insert(t, id, d, reviewRequired) => InsertKeepsOnce(cfg, s, t, id, d, reviewRequired);
    case InsertFails(t, id) => LeaseStepKeepsOnce(cfg, s, t, L.RolledBack(id));
    case CleanUp(t, id, removed) => CleanUpKeepsOnce(cfg, s, t, id, removed);
    case FinishPending(t, id, status) => FinishPendingKeepsOnce(cfg, s, t, id, status);
    case StorePending(t, client, candidates, d, asVersion) => StorePendingKeepsOnce(cfg, s, t, client, candidates, d, asVersion);
    case RemovePending(_) => RemovalKeepsOnce(cfg, s, a);
    case RemoveDocument(_) => RemovalKeepsOnce(cfg, s, a);
  }

  lemma {:induction false} SafeRunKeepsOnce(cfg: L.Config, s: System, actions: seq<Action>, quiet: bool)
    requires cfg.Valid() && OnceInv(cfg, s) && SafeRun(cfg, s, actions, quiet)
    ensures Exec(cfg, s, actions).Some? ==> OnceInv(cfg, Exec(cfg, s, actions).value)
    decreases |actions|
  {
    if actions != [] && Apply(cfg, s, actions[0]).Some? {
      StepKeepsOnce(cfg, s, actions[0]);
      SafeRunKeepsOnce(cfg, Apply(cfg, s, actions[0]).value, actions[1..], quiet);
    }
  }

  // ------------------------------------------------------------------ theorems

  lemma {:induction false} SafeRunKeepsInv(cfg: L.Config, s: System, actions: seq<Action>)
    requires cfg.Valid() && Inv(cfg, s) && SafeRun(cfg, s, actions, true)
    ensures Exec(cfg, s, actions).Some? ==> Inv(cfg, Exec(cfg, s, actions).value)
    decreases |actions|
  {
    if actions != [] && Apply(cfg, s, actions[0]).Some? {
      StepKeepsInv(cfg, s, actions[0]);
      SafeRunKeepsInv(cfg, Apply(cfg, s, actions[0]).value, actions[1..]);
    }
  }

  lemma InvGivesConsistent(s: System)
    requires Agree(StoresOf(s))
    ensures Consistent(s)
  {
    var st := StoresOf(s);
    forall t | t in s.subs ensures t in st.views && st.views[t].pending == s.subs[t].pendingPath && st.views[t].sha == s.subs[t].sha {}
    forall d, t | d in s.docs && t in s.subs ensures s.subs[t].pendingPath != Some(s.docs[d].path) {
      assert st.docs[d].path.area == ClientArea && st.views[t].pending == s.subs[t].pendingPath;
    }
  }

  // Main result: in every run from the empty system in which releases are safe,
  // over any crashes, lost leases, retries, late copies, rolled back
  // transactions and admin actions, the worker never has two documents for one
  // submission;
  lemma SafeRunStoresOnce(cfg: L.Config, actions: seq<Action>, quiet: bool)
    requires cfg.Valid() && SafeRun(cfg, Empty, actions, quiet)
    ensures Exec(cfg, Empty, actions).Some? ==> ExactlyOnce(Exec(cfg, Empty, actions).value)
  {
    SafeRunKeepsOnce(cfg, Empty, actions, quiet);
    if Exec(cfg, Empty, actions).Some? {
      assert Stores.StoredOnce(StoresOf(Exec(cfg, Empty, actions).value));
    }
  }

  // and when rolled back attempts are safe as well, the two stores agree.
  lemma SafeRunIsConsistent(cfg: L.Config, actions: seq<Action>)
    requires cfg.Valid() && SafeRun(cfg, Empty, actions, true)
    ensures Exec(cfg, Empty, actions).Some? ==> Consistent(Exec(cfg, Empty, actions).value)
  {
    SafeRunKeepsInv(cfg, Empty, actions);
    if Exec(cfg, Empty, actions).Some? {
      InvGivesConsistent(Exec(cfg, Empty, actions).value);
    }
  }

  // No step overwrites an object: what stays in the store keeps its bytes, and
  // a step other than a removal by an admin or a clean-up only adds.
  lemma ObjectsAreNeverOverwritten(cfg: L.Config, s: System, a: Action)
    requires Apply(cfg, s, a).Some?
    ensures
      var r := Apply(cfg, s, a).value;
      && (forall p :: p in s.objects && p in r.objects ==> r.objects[p] == s.objects[p])
      && (forall p :: p in s.objects && p !in r.objects ==> a.StorePending? || a.RemovePending? || a.RemoveDocument? || a.CleanUp?)
  {
  }

  // ------------------------------------------------------------------ the failed insert

  // "If the database write fails, the copy is removed again": the clean-up can
  // follow a failed insert if and only if the clock shows the time of the
  // attempt's last renewal.
  lemma CleanUpFollowsIff(cfg: L.Config, s: System, t: nat, id: nat)
    requires CanInsert(s, t, id)
    ensures StepInsertFails(cfg, s, t, id).Some?
    ensures
      CanCleanUp(StepInsertFails(cfg, s, t, id).value, t, id) <==> s.subs[t].lease.now == s.subs[t].lease.live[id].startedAt
  {
  }

  ghost predicate Adrift(s: System, t: nat, id: nat) {
    t in s.subs && L.Adrift(s.subs[t].lease, id)
  }

  // What one step does to the lease of one submission.
  lemma LeaseMoves(cfg: L.Config, s: System, a: Action, t: nat) returns (step: Option<L.Action>)
    requires cfg.Valid() && Apply(cfg, s, a).Some? && t in s.subs && a != RemovePending(t) && Apart(s, a)
    ensures t in Apply(cfg, s, a).value.subs
    ensures
      var before, after := s.subs[t].lease, Apply(cfg, s, a).value.subs[t].lease;
      match step
      case None =>
        after == before || (s.subs[t].pendingPath.Some? && after == before.(row := before.row.(status := L.Processed)))
      case Some(b) => L.Apply(cfg, before, b) == Some(after) && L.Apart(before, b)
  {
    step := None;
    if a.LeaseStep? && a.t == t {
      step := Some(a.step);
    } else if (a.Place? || a.CopyTimesOut? || a.CleanUp?) && a.t == t && Apply(cfg, s, a).value.subs[t].lease != s.subs[t].lease {
      step := Some(L.Renew(a.id));
    } else if a.Insert? && a.t == t {
      step := Some(if a.d in Apply(cfg, s, a).value.docs then L.Renew(a.id) else L.RolledBack(a.id));
    } else if a.InsertFails? && a.t == t {
      step := Some(L.RolledBack(a.id));
    } else if a.FinishPending? && a.t == t {
      step := Some(L.Finish(a.id, a.status));
    }
  }

  lemma StepKeepsAdrift(cfg: L.Config, s: System, a: Action, t: nat, id: nat)
    requires cfg.Valid() && Inv(cfg, s) && Safe(cfg, s) && Apart(s, a) && Apply(cfg, s, a).Some? && a != RemovePending(t)
    requires Safe(cfg, Apply(cfg, s, a).value) && Adrift(s, t, id)
    ensures Adrift(Apply(cfg, s, a).value, t, id)
  {
    assert SubOk(cfg, s.subs[t]);
    var step := LeaseMoves(cfg, s, a, t);
    if step.Some? { L.StepKeepsAdrift(cfg, s.subs[t].lease, step.value, id); }
  }

  // Main result: at any later time it never does, in any safe run, as long as the
  // submission exists. The copy stays, and the row keeps its lease.
  lemma {:induction false} FailedInsertKeepsItsCopy(cfg: L.Config, s: System, t: nat, id: nat, actions: seq<Action>)
    requires cfg.Valid() && Inv(cfg, s) && Adrift(s, t, id) && SafeRun(cfg, s, actions, true)
    requires forall i :: 0 <= i < |actions| ==> actions[i] != RemovePending(t)
    ensures Exec(cfg, s, actions).Some? ==> !CanCleanUp(Exec(cfg, s, actions).value, t, id)
    decreases |actions|
  {
    if actions != [] && Apply(cfg, s, actions[0]).Some? {
      StepKeepsInv(cfg, s, actions[0]);
      StepKeepsAdrift(cfg, s, actions[0], t, id);
      FailedInsertKeepsItsCopy(cfg, Apply(cfg, s, actions[0]).value, t, id, actions[1..]);
    }
  }

  lemma FailedInsertIsAdrift(cfg: L.Config, s: System, t: nat, id: nat)
    requires cfg.Valid() && Inv(cfg, s) && Safe(cfg, s) && CanInsert(s, t, id)
    requires s.subs[t].lease.now != s.subs[t].lease.live[id].startedAt
    ensures StepInsertFails(cfg, s, t, id).Some?
    ensures var r := StepInsertFails(cfg, s, t, id).value; Inv(cfg, r) && Adrift(r, t, id)
  {
    assert SubOk(cfg, s.subs[t]);
    InsertFailsKeepsInv(cfg, s, t, id);
  }

  // ------------------------------------------------------------------ limited runs

  ghost predicate WithinLimits(lim: L.Limits, s: System) {
    forall t :: t in s.subs ==> L.WithinLimits(lim, s.subs[t].lease)
  }

  ghost predicate LimitedRun(cfg: L.Config, lim: L.Limits, s: System, actions: seq<Action>)
    decreases |actions|
  {
    WithinLimits(lim, s) &&
    (actions != [] ==>
       (lim.apart ==> Apart(s, actions[0])) &&
       match Apply(cfg, s, actions[0])
       case None => true
       case Some(next) => LimitedRun(cfg, lim, next, actions[1..]))
  }

  lemma LimitsAreSafe(cfg: L.Config, lim: L.Limits, s: System)
    requires cfg.Valid() && OnceInv(cfg, s) && WithinLimits(lim, s)
    ensures L.SuitsReleases(cfg, lim) ==> SafeReleases(cfg, s)
    ensures L.SuitsRollbacks(cfg, lim) ==> SafeRollbacks(cfg, s)
  {
    forall t | t in s.subs
      ensures L.SuitsReleases(cfg, lim) ==> L.SafeReleases(cfg, s.subs[t].lease)
      ensures L.SuitsRollbacks(cfg, lim) ==> L.SafeRollbacks(cfg, s.subs[t].lease)
    {
      assert OnceSub(cfg, s.subs[t]);
      L.LimitsAreSafe(cfg, lim, s.subs[t].lease);
    }
  }

  lemma {:induction false} LimitedRunIsSafe(cfg: L.Config, lim: L.Limits, s: System, actions: seq<Action>, quiet: bool)
    requires cfg.Valid() && OnceInv(cfg, s) && LimitedRun(cfg, lim, s, actions)
    requires lim.apart && L.SuitsReleases(cfg, lim) && (quiet ==> L.SuitsRollbacks(cfg, lim))
    ensures SafeRun(cfg, s, actions, quiet)
    decreases |actions|
  {
    LimitsAreSafe(cfg, lim, s);
    if actions != [] && Apply(cfg, s, actions[0]).Some? {
      StepKeepsOnce(cfg, s, actions[0]);
      LimitedRunIsSafe(cfg, lim, Apply(cfg, s, actions[0]).value, actions[1..], quiet);
    }
  }

  // ------------------------------------------------------------------ concrete runs

  ghost predicate Leads(cfg: L.Config, lim: L.Limits, s: System, actions: seq<Action>, t: System) {
    Exec(cfg, s, actions) == Some(t) && LimitedRun(cfg, lim, s, actions)
  }

  ghost predicate MayStep(cfg: L.Config, lim: L.Limits, s: System, a: Action) {
    (lim.apart ==> Apart(s, a)) && Apply(cfg, s, a).Some? && WithinLimits(lim, Apply(cfg, s, a).value)
  }

  lemma {:induction false} LeadsOn(cfg: L.Config, lim: L.Limits, s: System, actions: seq<Action>, t: System, a: Action)
    requires Leads(cfg, lim, s, actions, t) && MayStep(cfg, lim, t, a)
    ensures Leads(cfg, lim, s, actions + [a], Apply(cfg, t, a).value)
    decreases |actions|
  {
    if actions == [] {
      assert ([] + [a])[1..] == [];
      assert LimitedRun(cfg, lim, Apply(cfg, t, a).value, []);
      assert Exec(cfg, Apply(cfg, t, a).value, []) == Apply(cfg, t, a);
    } else {
      assert (actions + [a])[0] == actions[0] && (actions + [a])[1..] == actions[1..] + [a];
      LeadsOn(cfg, lim, Apply(cfg, s, actions[0]).value, actions[1..], t, a);
    }
  }

  // Some run within the limits leads here from the empty system.
  ghost predicate Reached(cfg: L.Config, lim: L.Limits, s: System) {
    exists run :: Leads(cfg, lim, Empty, run, s)
  }

  // Everything but one submission, with nothing in flight.
  datatype World = World(rest: map<nat, Submission>, docs: map<nat, Document>, objects: map<Path, nat>)

  function Sys(w: World, t: nat, sub: Submission): System {
    System(w.rest[t := sub], w.docs, w.objects, {})
  }

  ghost predicate At(cfg: L.Config, lim: L.Limits, w: World, t: nat, sub: Submission) {
    Reached(cfg, lim, Sys(w, t, sub)) && forall u :: u in w.rest && u != t ==> L.WithinLimits(lim, w.rest[u].lease)
  }

  lemma Next(cfg: L.Config, lim: L.Limits, s: System, a: Action, w: World, t: nat, sub: Submission)
    requires Reached(cfg, lim, s) && (lim.apart ==> Apart(s, a)) && Apply(cfg, s, a) == Some(Sys(w, t, sub))
    requires L.WithinLimits(lim, sub.lease) && forall u :: u in w.rest && u != t ==> L.WithinLimits(lim, w.rest[u].lease)
    ensures At(cfg, lim, w, t, sub)
  {
    var run :| Leads(cfg, lim, Empty, run, s);
    LeadsOn(cfg, lim, Empty, run, s, a);
  }

  lemma SubmitNext(cfg: L.Config, lim: L.Limits, s: System, w: World, t: nat, sha: nat) returns (sub: Submission)
    requires Reached(cfg, lim, s) && s == System(w.rest, w.docs, w.objects, {}) && t !in w.rest
    requires forall u :: u in w.rest ==> L.WithinLimits(lim, w.rest[u].lease)
    ensures sub == Submission(L.Init(0), sha, map[], None, None) && At(cfg, lim, w, t, sub)
  {
    sub := Submission(L.Init(0), sha, map[], None, None);
    Next(cfg, lim, s, Submit(t, 0, sha), w, t, sub);
  }

  lemma LeaseNext(cfg: L.Config, lim: L.Limits, w: World, t: nat, sub: Submission, step: L.Action) returns (r: Submission)
    requires At(cfg, lim, w, t, sub) && StepSub(cfg, sub, step).Some? && (lim.apart ==> L.Apart(sub.lease, step))
    requires L.WithinLimits(lim, StepSub(cfg, sub, step).value.lease)
    ensures StepSub(cfg, sub, step) == Some(r) && At(cfg, lim, w, t, r)
  {
    r := StepSub(cfg, sub, step).value;
    assert w.rest[t := sub][t := r] == w.rest[t := r];
    Next(cfg, lim, Sys(w, t, sub), LeaseStep(t, step), w, t, r);
  }

  predicate CanWork(sub: Submission, id: nat) {
    id in sub.lease.live && sub.lease.live[id].entered && !sub.lease.live[id].rolledBack && id in sub.work
  }

  predicate Owner(sub: Submission, id: nat) {
    CanWork(sub, id) && L.Owns(sub.lease.row, sub.lease.live[id])
  }

  lemma CheckNext(cfg: L.Config, lim: L.Limits, w: World, t: nat, sub: Submission, id: nat, client: nat) returns (r: Submission)
    requires At(cfg, lim, w, t, sub) && CanWork(sub, id) && L.WithinLimits(lim, sub.lease) && w.docs == map[]
    ensures r == sub.(work := sub.work[id := sub.work[id].(checked := Some((client, New)))]) && At(cfg, lim, w, t, r)
  {
    r := sub.(work := sub.work[id := sub.work[id].(checked := Some((client, New)))]);
    assert w.rest[t := sub][t := r] == w.rest[t := r];
    Next(cfg, lim, Sys(w, t, sub), Check(t, id, client), w, t, r);
  }

  lemma CopyNext(cfg: L.Config, lim: L.Limits, w: World, t: nat, sub: Submission, id: nat, p: Path) returns (r: Submission, x: World)
    requires At(cfg, lim, w, t, sub) && Owner(sub, id) && p !in w.objects
    requires sub.work[id].placed.None? && !sub.work[id].closed && L.WithinLimits(lim, Renewed(sub.lease, id))
    ensures r == sub.(lease := Renewed(sub.lease, id), placementPath := Some(p), work := sub.work[id := sub.work[id].(placed := Some(p))])
    ensures x == w.(objects := w.objects[p := sub.sha]) && At(cfg, lim, x, t, r)
  {
    r := sub.(lease := Renewed(sub.lease, id), placementPath := Some(p), work := sub.work[id := sub.work[id].(placed := Some(p))]);
    x := w.(objects := w.objects[p := sub.sha]);
    assert w.rest[t := sub][t := r] == w.rest[t := r];
    assert Choice(Sys(w, t, sub), t, id, [p]) == Some(p);
    Next(cfg, lim, Sys(w, t, sub), Place(t, id, [p]), x, t, r);
  }

  lemma ReuseNext(cfg: L.Config, lim: L.Limits, w: World, t: nat, sub: Submission, id: nat, p: Path) returns (r: Submission)
    requires At(cfg, lim, w, t, sub) && CanWork(sub, id) && L.WithinLimits(lim, sub.lease) && w.docs == map[] && w.rest == map[]
    requires p in w.objects && w.objects[p] == sub.sha
    requires sub.work[id].earlier == Some(p) && sub.work[id].placed.None? && !sub.work[id].closed
    ensures r == sub.(work := sub.work[id := sub.work[id].(placed := Some(p))]) && At(cfg, lim, w, t, r)
  {
    r := sub.(work := sub.work[id := sub.work[id].(placed := Some(p))]);
    var s := Sys(w, t, sub);
    assert w.rest[t := sub][t := r] == w.rest[t := r];
    assert IsOwnEarlierCopy(s, t, sub.work[id], p);
    assert Choice(s, t, id, [p]) == Some(p);
    Next(cfg, lim, s, Place(t, id, [p]), w, t, r);
  }

  function SettledSub(sub: Submission, id: nat): Submission
    requires id in sub.lease.live && id in sub.work
  {
    sub.(lease := Renewed(sub.lease, id), work := sub.work[id := sub.work[id].(checked := None, placed := None, closed := true)])
  }

  lemma InsertNext(cfg: L.Config, lim: L.Limits, w: World, t: nat, sub: Submission, id: nat, client: nat, p: Path, d: nat, review: bool)
    returns (x: World)
    requires At(cfg, lim, w, t, sub) && Owner(sub, id) && L.WithinLimits(lim, Renewed(sub.lease, id))
    requires sub.work[id].checked == Some((client, New)) && sub.work[id].placed == Some(p) && p.area == ClientArea
    requires d !in w.docs && forall e :: e in w.docs ==> w.docs[e].client != client
    ensures x == w.(docs := w.docs[d := Document(client, sub.sha, p, review, Some(t), true)]) && At(cfg, lim, x, t, SettledSub(sub, id))
  {
    var s, r := Sys(w, t, sub), SettledSub(sub, id);
    x := w.(docs := w.docs[d := Document(client, sub.sha, p, review, Some(t), true)]);
    assert w.rest[t := sub][t := r] == w.rest[t := r];
    Next(cfg, lim, s, Insert(t, id, d, review), x, t, r);
  }

  lemma CleanUpNext(cfg: L.Config, lim: L.Limits, w: World, t: nat, sub: Submission, id: nat, p: Path) returns (x: World)
    requires At(cfg, lim, w, t, sub) && id in sub.lease.live && id in sub.work && L.Owns(sub.lease.row, sub.lease.live[id])
    requires sub.lease.live[id].rolledBack && sub.work[id].placed == Some(p) && p.area == ClientArea && w.docs == map[]
    requires L.WithinLimits(lim, Renewed(sub.lease, id))
    ensures x == w.(objects := w.objects - {p}) && At(cfg, lim, x, t, SettledSub(sub, id))
  {
    var s, r := Sys(w, t, sub), SettledSub(sub, id);
    x := w.(objects := w.objects - {p});
    assert w.rest[t := sub][t := r] == w.rest[t := r];
    Next(cfg, lim, s, CleanUp(t, id, true), x, t, r);
  }

  // The only document is removed from review, with its file.
  lemma RemoveNext(cfg: L.Config, lim: L.Limits, w: World, t: nat, sub: Submission, d: nat) returns (x: World)
    requires At(cfg, lim, w, t, sub) && w.docs.Keys == {d} && w.docs[d].reviewRequired && L.WithinLimits(lim, sub.lease)
    ensures x == World(w.rest, map[], w.objects - {w.docs[d].path}) && At(cfg, lim, x, t, sub)
  {
    x := World(w.rest, map[], w.objects - {w.docs[d].path});
    assert w.docs - {d} == map[];
    Next(cfg, lim, Sys(w, t, sub), RemoveDocument(d), x, t, sub);
  }

  const CopyA := Path(ClientArea, "clients/A/passport/passport.pdf")
  const CopyB := Path(ClientArea, "clients/B/passport/passport.pdf")
  const Nothing := World(map[], map[], map[])
  const OneCopy := World(map[], map[], map[CopyA := 7])

  lemma PathsDiffer()
    ensures CopyA != CopyB
  {
    assert CopyA.name[8] != CopyB.name[8];
  }

  // The lease of the submission with SHA-256 7 at this moment.
  predicate Is(sub: Submission, now: int, nextId: nat, row: L.Row, live: map<nat, L.Attempt>) {
    && sub.sha == 7 && sub.pendingPath.None?
    && sub.lease.now == now && sub.lease.nextId == nextId && sub.lease.row == row && sub.lease.live == live
  }

  predicate Remembers(sub: Submission, id: nat, w: Work) {
    id in sub.work && sub.work[id] == w
  }

  function Claimed(at: int, entered: bool): L.Attempt {
    L.Attempt(1, at, at, None, entered, false)
  }

  // Attempt 0 starts its pipeline,
  lemma Entered(cfg: L.Config, lim: L.Limits) returns (r: Submission)
    requires cfg.Valid()
    ensures At(cfg, lim, Nothing, 0, r) && Is(r, 0, 1, L.Row(L.Received, 1, Some(0)), map[0 := Claimed(0, true)])
    ensures r.work == map[0 := FreshWork(None)] && r.placementPath.None?
  {
    assert Leads(cfg, lim, Empty, [], Empty);
    r := SubmitNext(cfg, lim, Empty, Nothing, 0, 7);
    r := LeaseNext(cfg, lim, Nothing, 0, r, L.Claim);
    assert r.lease.live == map[0 := Claimed(0, false)];
    r := LeaseNext(cfg, lim, Nothing, 0, r, L.Enter(0));
    assert r.lease.live == map[0 := Claimed(0, true)];
  }

  // checks the file for client 1,
  lemma CheckedByFirst(cfg: L.Config, lim: L.Limits) returns (r: Submission)
    requires cfg.Valid()
    ensures At(cfg, lim, Nothing, 0, r) && Is(r, 0, 1, L.Row(L.Received, 1, Some(0)), map[0 := Claimed(0, true)])
    ensures r.work == map[0 := Work(None, Some((1, New)), None, false)] && r.placementPath.None?
  {
    r := Entered(cfg, lim);
    r := CheckNext(cfg, lim, Nothing, 0, r, 0, 1);
  }

  const Copied := Work(None, Some((1, New)), Some(CopyA), false)

  // and makes its copy.
  lemma CopiedByFirst(cfg: L.Config, lim: L.Limits) returns (r: Submission)
    requires cfg.Valid()
    ensures At(cfg, lim, OneCopy, 0, r) && Is(r, 0, 1, L.Row(L.Received, 1, Some(0)), map[0 := Claimed(0, true)])
    ensures r.work == map[0 := Copied] && r.placementPath == Some(CopyA)
  {
    var x: World;
    r := CheckedByFirst(cfg, lim);
    r, x := CopyNext(cfg, lim, Nothing, 0, r, 0, CopyA);
    assert r.lease.live == map[0 := Claimed(0, true)];
    assert x == OneCopy;
  }

  // The following keep the memory of attempt 0, the recorded path and the limits.
  ghost predicate Same(lim: L.Limits, sub: Submission, r: Submission) {
    && L.WithinLimits(lim, sub.lease) && L.WithinLimits(lim, r.lease) && r.placementPath == sub.placementPath
    && (forall i :: i in sub.work ==> i in r.work && r.work[i] == sub.work[i])
  }

  lemma Claims(cfg: L.Config, lim: L.Limits, w: World, t: nat, sub: Submission, now: int, n: nat, row: L.Row, live: map<nat, L.Attempt>)
    returns (r: Submission)
    requires At(cfg, lim, w, t, sub) && L.WithinLimits(lim, sub.lease) && Is(sub, now, n, row, live)
    requires L.Claimable(cfg, row, now) && (lim.apart ==> L.Apart(sub.lease, L.Claim)) && n !in live && n !in sub.work
    ensures At(cfg, lim, w, t, r) && Same(lim, sub, r) && r.work == sub.work[n := FreshWork(sub.placementPath)]
    ensures Is(r, now, n + 1, L.ClaimRow(row, now), live[n := L.Attempt(row.attempts + 1, now, now, None, false, false)])
  {
    r := LeaseNext(cfg, lim, w, t, sub, L.Claim);
  }

  lemma Enters(cfg: L.Config, lim: L.Limits, w: World, t: nat, sub: Submission, now: int, n: nat, row: L.Row, live: map<nat, L.Attempt>, k: nat)
    returns (r: Submission)
    requires cfg.Valid() && At(cfg, lim, w, t, sub) && L.WithinLimits(lim, sub.lease)
    requires Is(sub, now, n, row, live[k := Claimed(now, false)])
    ensures At(cfg, lim, w, t, r) && Same(lim, sub, r) && r.work == sub.work
    ensures Is(r, now, n, row, live[k := Claimed(now, true)])
  {
    r := LeaseNext(cfg, lim, w, t, sub, L.Enter(k));
    assert live[k := Claimed(now, false)][k := Claimed(now, true)] == live[k := Claimed(now, true)];
  }

  // The owner records FAILED and an admin retries.
  lemma FailsAndRetried(cfg: L.Config, lim: L.Limits, w: World, t: nat, sub: Submission, now: int, n: nat, row: L.Row,
                        live: map<nat, L.Attempt>, k: nat)
    returns (r: Submission)
    requires At(cfg, lim, w, t, sub) && L.WithinLimits(lim, sub.lease) && Is(sub, now, n, row, live) && k in live && L.Owns(row, live[k])
    ensures At(cfg, lim, w, t, r) && Same(lim, sub, r) && r.work == sub.work && Is(r, now, n, L.ReceivedRow, live - {k})
  {
    r := LeaseNext(cfg, lim, w, t, sub, L.Finish(k, L.Failed));
    assert Is(r, now, n, row.(status := L.Failed), live - {k});
    r := LeaseNext(cfg, lim, w, t, r, L.AdminRetry);
  }

  lemma PutsBack(cfg: L.Config, lim: L.Limits, w: World, t: nat, sub: Submission, now: int, n: nat, live: map<nat, L.Attempt>, k: nat)
    returns (r: Submission)
    requires At(cfg, lim, w, t, sub) && L.WithinLimits(lim, sub.lease) && k !in live
    requires Is(sub, now, n, L.Row(L.Received, 1, Some(now)), live[k := Claimed(now, false)])
    ensures At(cfg, lim, w, t, r) && Same(lim, sub, r) && r.work == sub.work
    ensures Is(r, now, n, L.Row(L.Received, 1, Some(now - cfg.leaseMs + cfg.retryDelayMs)), live)
  {
    r := LeaseNext(cfg, lim, w, t, sub, L.RetryLater(k));
    assert live[k := Claimed(now, false)] - {k} == live;
  }

  // Claimed as number 1 after a retry, and put back.
  lemma ClaimsAndPutsBack(cfg: L.Config, lim: L.Limits, w: World, t: nat, sub: Submission, now: int, n: nat, live: map<nat, L.Attempt>)
    returns (r: Submission)
    requires At(cfg, lim, w, t, sub) && L.WithinLimits(lim, sub.lease) && Is(sub, now, n, L.ReceivedRow, live)
    requires (lim.apart ==> L.Apart(sub.lease, L.Claim)) && n !in live && n !in sub.work
    ensures At(cfg, lim, w, t, r) && Same(lim, sub, r)
    ensures Is(r, now, n + 1, L.Row(L.Received, 1, Some(now - cfg.leaseMs + cfg.retryDelayMs)), live)
  {
    r := Claims(cfg, lim, w, t, sub, now, n, L.ReceivedRow, live);
    var u := r;
    r := PutsBack(cfg, lim, w, t, u, now, n + 1, live, n);
  }

  // Attempt k takes over the copy at CopyA, and stores a document for client 1
  // that goes to review; an admin removes it again.
  lemma StoredAndRemoved(cfg: L.Config, lim: L.Limits, sub: Submission, now: int, n: nat, row: L.Row, live: map<nat, L.Attempt>, k: nat)
    returns (r: Submission)
    requires At(cfg, lim, OneCopy, 0, sub) && L.WithinLimits(lim, sub.lease) && k != 0
    requires row == L.Row(L.Received, 1, Some(now)) && Is(sub, now, n, row, live) && k in live && live[k] == Claimed(now, true)
    requires Remembers(sub, k, FreshWork(Some(CopyA))) && 0 in sub.work
    ensures At(cfg, lim, Nothing, 0, r) && L.WithinLimits(lim, r.lease) && Is(r, now, n, row, live)
    ensures r.work.Keys == sub.work.Keys && r.work[0] == sub.work[0] && r.placementPath == sub.placementPath
  {
    r := CheckNext(cfg, lim, OneCopy, 0, sub, k, 1);
    r := ReuseNext(cfg, lim, OneCopy, 0, r, k, CopyA);
    assert Remembers(r, k, Work(Some(CopyA), Some((1, New)), Some(CopyA), false));
    assert live[k := live[k].(startedAt := now)] == live;
    var x := InsertNext(cfg, lim, OneCopy, 0, r, k, 1, CopyA, 100, true);
    r := SettledSub(r, k);
    x := RemoveNext(cfg, lim, x, 0, r, 100);
    assert x == Nothing;
  }

  // ------------------------------------------------------------------ after a release

  function Gone(at: int): L.Attempt {
    L.Attempt(1, 0, 0, Some(at), true, false)
  }

  // Attempt 0 is released at `at`,
  lemma FirstReleased(cfg: L.Config, lim: L.Limits, w: World, sub: Submission, at: nat) returns (r: Submission)
    requires cfg.Valid() && At(cfg, lim, w, 0, sub) && Is(sub, 0, 1, L.Row(L.Received, 1, Some(0)), map[0 := Claimed(0, true)])
    ensures At(cfg, lim, w, 0, r) && L.WithinLimits(lim, r.lease) && r.work == sub.work && r.placementPath == sub.placementPath
    ensures Is(r, at, 1, L.Row(L.Received, 0, Some(at - cfg.leaseMs + cfg.retryDelayMs)), map[0 := Gone(at)])
  {
    r := LeaseNext(cfg, lim, w, 0, sub, L.Tick(at));
    assert Is(r, at, 1, L.Row(L.Received, 1, Some(0)), map[0 := Claimed(0, true)]);
    r := LeaseNext(cfg, lim, w, 0, r, L.Release(0));
    assert r.lease.live == map[0 := Gone(at)];
  }

  // and attempt 1 starts its pipeline after the retry delay.
  lemma Successor(cfg: L.Config, lim: L.Limits, w: World, sub: Submission, at: int) returns (r: Submission)
    requires cfg.Valid() && (lim.grace.Some? ==> cfg.retryDelayMs < lim.grace.value)
    requires At(cfg, lim, w, 0, sub) && sub.work.Keys == {0}
    requires Is(sub, at, 1, L.Row(L.Received, 0, Some(at - cfg.leaseMs + cfg.retryDelayMs)), map[0 := Gone(at)])
    ensures
      var c := at + cfg.retryDelayMs + 1;
      && At(cfg, lim, w, 0, r) && L.WithinLimits(lim, r.lease)
      && Is(r, c, 2, L.Row(L.Received, 1, Some(c)), map[0 := Gone(at), 1 := Claimed(c, true)])
      && r.work == sub.work[1 := FreshWork(sub.placementPath)] && r.placementPath == sub.placementPath
  {
    var c, live := at + cfg.retryDelayMs + 1, map[0 := Gone(at)];
    var row := L.Row(L.Received, 0, Some(at - cfg.leaseMs + cfg.retryDelayMs));
    r := LeaseNext(cfg, lim, w, 0, sub, L.Tick(cfg.retryDelayMs + 1));
    assert Is(r, c, 1, row, live);
    r := LeaseNext(cfg, lim, w, 0, r, L.Claim);
    assert Is(r, c, 2, L.Row(L.Received, 1, Some(c)), live[1 := Claimed(c, false)]);
    r := Enters(cfg, lim, w, 0, r, c, 2, L.Row(L.Received, 1, Some(c)), live, 1);
  }

  // Attempt 1 fails, an admin retries, attempt 2 cannot load the file and puts
  // the lease start back to where attempt 0 had it.
  lemma BackToFirst(cfg: L.Config, lim: L.Limits, w: World, sub: Submission, at: int) returns (r: Submission)
    requires cfg.Valid() && at == cfg.leaseMs - 2 * cfg.retryDelayMs - 1
    requires At(cfg, lim, w, 0, sub) && L.WithinLimits(lim, sub.lease) && 2 !in sub.work && 0 in sub.work
    requires var c := cfg.leaseMs - cfg.retryDelayMs;
      Is(sub, c, 2, L.Row(L.Received, 1, Some(c)), map[0 := Gone(at), 1 := Claimed(c, true)])
    ensures At(cfg, lim, w, 0, r) && L.WithinLimits(lim, r.lease) && Remembers(r, 0, sub.work[0])
    ensures Is(r, cfg.leaseMs - cfg.retryDelayMs, 3, L.Row(L.Received, 1, Some(0)), map[0 := Gone(at)])
  {
    var c, live := cfg.leaseMs - cfg.retryDelayMs, map[0 := Gone(at), 1 := Claimed(cfg.leaseMs - cfg.retryDelayMs, true)];
    r := FailsAndRetried(cfg, lim, w, 0, sub, c, 2, L.Row(L.Received, 1, Some(c)), live, 1);
    assert live - {1} == map[0 := Gone(at)];
    r := ClaimsAndPutsBack(cfg, lim, w, 0, r, c, 2, map[0 := Gone(at)]);
  }

  const DocOfA := Document(1, 7, CopyA, false, Some(0), true)
  const DocOfB := Document(2, 7, CopyB, false, Some(0), true)

  // Attempt 1 stores the file for client 2.
  lemma StoresForB(cfg: L.Config, lim: L.Limits, sub: Submission, at: int, c: int) returns (r: Submission)
    requires At(cfg, lim, Nothing, 0, sub) && L.WithinLimits(lim, sub.lease)
    requires Is(sub, c, 2, L.Row(L.Received, 1, Some(c)), map[0 := Gone(at), 1 := Claimed(c, true)])
    requires sub.work.Keys == {0, 1} && sub.work[1] == FreshWork(None)
    ensures At(cfg, lim, World(map[], map[100 := DocOfB], map[CopyB := 7]), 0, r) && L.WithinLimits(lim, r.lease)
    ensures Is(r, c, 2, L.Row(L.Received, 1, Some(c)), map[0 := Gone(at), 1 := Claimed(c, true)])
    ensures r.work.Keys == {0, 1} && r.work[0] == sub.work[0]
  {
    var x: World;
    r := CheckNext(cfg, lim, Nothing, 0, sub, 1, 2);
    r, x := CopyNext(cfg, lim, Nothing, 0, r, 1, CopyB);
    assert Is(r, c, 2, L.Row(L.Received, 1, Some(c)), map[0 := Gone(at), 1 := Claimed(c, true)]);
    assert x.objects == map[CopyB := 7];
    x := InsertNext(cfg, lim, x, 0, r, 1, 2, CopyB, 100, false);
    assert x.docs == map[100 := DocOfB];
    r := SettledSub(r, 1);
  }

  // A run in which one submission is stored for two clients.
  lemma StoredTwice(cfg: L.Config, lim: L.Limits) returns (s: System)
    requires cfg.Valid() && !L.SuitsReleases(cfg, lim)
    ensures Reached(cfg, lim, s) && s.docs == map[100 := DocOfB, 101 := DocOfA]
  {
    var at, c := cfg.leaseMs - 2 * cfg.retryDelayMs - 1, cfg.leaseMs - cfg.retryDelayMs;
    var r := CheckedByFirst(cfg, lim);
    assert r.work.Keys == {0};
    r := FirstReleased(cfg, lim, Nothing, r, at);
    r := Successor(cfg, lim, Nothing, r, at);
    r := StoresForB(cfg, lim, r, at, c);
    var x := World(map[], map[100 := DocOfB], map[CopyB := 7]);
    r := BackToFirst(cfg, lim, x, r, at);
    s := StoresForA(cfg, lim, x, r, at, c);
  }

  // The revived attempt 0 stores the file for client 1.
  lemma StoresForA(cfg: L.Config, lim: L.Limits, w: World, sub: Submission, at: int, c: int) returns (s: System)
    requires At(cfg, lim, w, 0, sub) && L.WithinLimits(lim, sub.lease) && w == World(map[], map[100 := DocOfB], map[CopyB := 7])
    requires Is(sub, c, 3, L.Row(L.Received, 1, Some(0)), map[0 := Gone(at)])
    requires Remembers(sub, 0, Work(None, Some((1, New)), None, false))
    ensures Reached(cfg, lim, s) && s.docs == map[100 := DocOfB, 101 := DocOfA]
  {
    PathsDiffer();
    var r, x := CopyNext(cfg, lim, w, 0, sub, 0, CopyA);
    x := InsertNext(cfg, lim, x, 0, r, 0, 1, CopyA, 101, false);
    s := Sys(x, 0, SettledSub(r, 0));
  }

  // Attempt 1 stored a document with the copy of attempt 0, and an admin removed
  // both.
  lemma BothRemoved(cfg: L.Config, lim: L.Limits, at: nat) returns (r: Submission)
    requires cfg.Valid() && (lim.grace.Some? ==> cfg.retryDelayMs < lim.grace.value)
    ensures At(cfg, lim, Nothing, 0, r) && L.WithinLimits(lim, r.lease) && r.work.Keys == {0, 1} && r.work[0] == Copied
    ensures var c := at + cfg.retryDelayMs + 1;
      Is(r, c, 2, L.Row(L.Received, 1, Some(c)), map[0 := Gone(at), 1 := Claimed(c, true)])
  {
    var c := at + cfg.retryDelayMs + 1;
    r := CopiedByFirst(cfg, lim);
    assert r.work.Keys == {0};
    r := FirstReleased(cfg, lim, OneCopy, r, at);
    r := Successor(cfg, lim, OneCopy, r, at);
    r := StoredAndRemoved(cfg, lim, r, c, 2, L.Row(L.Received, 1, Some(c)), map[0 := Gone(at), 1 := Claimed(c, true)], 1);
  }

  // A run after which the path of the only document names no object.
  lemma DanglingAfterRelease(cfg: L.Config, lim: L.Limits) returns (s: System)
    requires cfg.Valid() && !L.SuitsReleases(cfg, lim)
    ensures Reached(cfg, lim, s) && 101 in s.docs && s.docs[101].path == CopyA && s.objects == map[]
  {
    var at := cfg.leaseMs - 2 * cfg.retryDelayMs - 1;
    var r := BothRemoved(cfg, lim, at);
    r := BackToFirst(cfg, lim, Nothing, r, at);
    var x := InsertNext(cfg, lim, Nothing, 0, r, 0, 1, CopyA, 101, false);
    s := Sys(x, 0, SettledSub(r, 0));
  }

  // ------------------------------------------------------------------ after a rollback

  // A transaction of attempt 0 is rolled back at `stamp`.
  lemma Orphaned(cfg: L.Config, lim: L.Limits, w: World, sub: Submission, stamp: nat) returns (r: Submission)
    requires At(cfg, lim, w, 0, sub) && Is(sub, 0, 1, L.Row(L.Received, 1, Some(0)), map[0 := Claimed(0, true)])
    ensures At(cfg, lim, w, 0, r) && L.WithinLimits(lim, r.lease) && r.work == sub.work && r.placementPath == sub.placementPath
    ensures Is(r, stamp, 1, L.Row(L.Received, 1, Some(0)), map[0 := L.Orphan(stamp)])
  {
    r := LeaseNext(cfg, lim, w, 0, sub, L.Tick(stamp));
    assert Is(r, stamp, 1, L.Row(L.Received, 1, Some(0)), map[0 := Claimed(0, true)]);
    r := LeaseNext(cfg, lim, w, 0, r, L.RolledBack(0));
    assert r.lease.live == map[0 := L.Orphan(stamp)];
  }

  // The lease has run out: attempt 1 fails, an admin retries, and attempt 2
  // starts its pipeline as number 1 again.
  lemma StartsOver(cfg: L.Config, lim: L.Limits, w: World, sub: Submission, now: int, stamp: int) returns (r: Submission)
    requires cfg.Valid() && At(cfg, lim, w, 0, sub) && L.WithinLimits(lim, sub.lease) && (lim.apart ==> stamp < now)
    requires Is(sub, now, 1, L.Row(L.Received, 1, Some(0)), map[0 := L.Orphan(stamp)]) && cfg.leaseMs < now && sub.work.Keys == {0}
    ensures At(cfg, lim, w, 0, r) && L.WithinLimits(lim, r.lease) && r.placementPath == sub.placementPath
    ensures Is(r, now, 3, L.Row(L.Received, 1, Some(now)), map[0 := L.Orphan(stamp), 2 := Claimed(now, true)])
    ensures Remembers(r, 0, sub.work[0]) && Remembers(r, 2, FreshWork(sub.placementPath)) && r.work.Keys == {0, 1, 2}
  {
    var live := map[0 := L.Orphan(stamp)];
    r := Claims(cfg, lim, w, 0, sub, now, 1, L.Row(L.Received, 1, Some(0)), live);
    var second := L.Attempt(2, now, now, None, false, false);
    assert r.work.Keys == {0, 1};
    r := FailsAndRetried(cfg, lim, w, 0, r, now, 2, L.Row(L.Received, 2, Some(now)), live[1 := second], 1);
    assert live[1 := second] - {1} == live;
    r := Claims(cfg, lim, w, 0, r, now, 2, L.ReceivedRow, live);
    r := Enters(cfg, lim, w, 0, r, now, 3, L.Row(L.Received, 1, Some(now)), live, 2);
  }

  // Attempt 0 has its copy and is rolled back; attempt 2 stores and loses the
  // document, and fails.
  lemma CopyRemoved(cfg: L.Config, lim: L.Limits) returns (r: Submission)
    requires cfg.Valid() && !L.SuitsRollbacks(cfg, lim)
    ensures At(cfg, lim, Nothing, 0, r) && L.WithinLimits(lim, r.lease) && Remembers(r, 0, Copied) && r.work.Keys == {0, 1, 2}
    ensures var stamp, now := cfg.retryDelayMs + 1, cfg.leaseMs + 1;
      Is(r, now, 3, L.Row(L.Received, 1, Some(now)), map[0 := L.Orphan(stamp), 2 := Claimed(now, true)])
  {
    var stamp, now := cfg.retryDelayMs + 1, cfg.leaseMs + 1;
    r := CopiedByFirst(cfg, lim);
    r := Orphaned(cfg, lim, OneCopy, r, stamp);
    var u := r;
    r := LeaseNext(cfg, lim, OneCopy, 0, u, L.Tick(cfg.leaseMs - cfg.retryDelayMs));
    assert Is(r, now, 1, L.Row(L.Received, 1, Some(0)), map[0 := L.Orphan(stamp)]) && r.work == u.work;
    r := StartsOver(cfg, lim, OneCopy, r, now, stamp);
    r := StoredAndRemoved(cfg, lim, r, now, 3, L.Row(L.Received, 1, Some(now)), map[0 := L.Orphan(stamp), 2 := Claimed(now, true)], 2);
  }

  // The row is back at the stamp of the rolled back transaction, and there is no
  // object at CopyA any more, which attempt 0 may still clean up.
  lemma OrphanOwnsAgain(cfg: L.Config, lim: L.Limits) returns (r: Submission)
    requires cfg.Valid() && !L.SuitsRollbacks(cfg, lim)
    ensures At(cfg, lim, Nothing, 0, r) && L.WithinLimits(lim, r.lease) && Remembers(r, 0, Copied)
    ensures var stamp := cfg.retryDelayMs + 1;
      Is(r, cfg.leaseMs + 1, 4, L.Row(L.Received, 1, Some(stamp)), map[0 := L.Orphan(stamp)])
  {
    var stamp, now := cfg.retryDelayMs + 1, cfg.leaseMs + 1;
    var live := map[0 := L.Orphan(stamp), 2 := Claimed(now, true)];
    r := CopyRemoved(cfg, lim);
    r := FailsAndRetried(cfg, lim, Nothing, 0, r, now, 3, L.Row(L.Received, 1, Some(now)), live, 2);
    assert live - {2} == map[0 := L.Orphan(stamp)];
    r := ClaimsAndPutsBack(cfg, lim, Nothing, 0, r, now, 3, map[0 := L.Orphan(stamp)]);
  }

  // Another submission of the client takes the free name.
  lemma OtherClaims(cfg: L.Config, lim: L.Limits, a: Submission, w: World) returns (b: Submission)
    requires cfg.Valid() && At(cfg, lim, Nothing, 0, a) && L.WithinLimits(lim, a.lease) && w == World(map[0 := a], map[], map[])
    ensures At(cfg, lim, w, 1, b) && b.sha == 8 && b.lease.row == L.Row(L.Received, 1, Some(0)) && b.lease.now == 0
    ensures b.lease.live == map[0 := Claimed(0, false)] && b.work == map[0 := FreshWork(None)]
  {
    assert Sys(Nothing, 0, a) == System(w.rest, w.docs, w.objects, {});
    b := SubmitNext(cfg, lim, Sys(Nothing, 0, a), w, 1, 8);
    b := LeaseNext(cfg, lim, w, 1, b, L.Claim);
    assert b.lease.live == map[0 := Claimed(0, false)];
  }

  lemma OtherStarts(cfg: L.Config, lim: L.Limits, a: Submission, w: World) returns (b: Submission)
    requires cfg.Valid() && At(cfg, lim, Nothing, 0, a) && L.WithinLimits(lim, a.lease) && w == World(map[0 := a], map[], map[])
    ensures At(cfg, lim, w, 1, b) && b.sha == 8 && b.lease.row == L.Row(L.Received, 1, Some(0)) && b.lease.now == 0
    ensures b.lease.live == map[0 := Claimed(0, true)] && b.work == map[0 := FreshWork(None)]
  {
    b := OtherClaims(cfg, lim, a, w);
    b := LeaseNext(cfg, lim, w, 1, b, L.Enter(0));
    assert b.lease.live == map[0 := Claimed(0, true)];
  }

  lemma NameTaken(cfg: L.Config, lim: L.Limits, a: Submission) returns (b: Submission)
    requires cfg.Valid() && At(cfg, lim, Nothing, 0, a) && L.WithinLimits(lim, a.lease)
    ensures At(cfg, lim, World(map[0 := a], map[], map[CopyA := 8]), 1, b) && L.WithinLimits(lim, b.lease)
    ensures b.sha == 8 && Owner(b, 0) && L.WithinLimits(lim, Renewed(b.lease, 0)) && Remembers(b, 0, Copied)
  {
    var w := World(map[0 := a], map[], map[]);
    b := OtherStarts(cfg, lim, a, w);
    b := CheckNext(cfg, lim, w, 1, b, 0, 1);
    var x: World;
    b, x := CopyNext(cfg, lim, w, 1, b, 0, CopyA);
    assert x == World(map[0 := a], map[], map[CopyA := 8]) && b.lease.live == map[0 := Claimed(0, true)];
  }

  // The late clean-up takes that submission's copy, which is stored then.
  lemma DanglingAfterRollback(cfg: L.Config, lim: L.Limits) returns (s: System)
    requires cfg.Valid() && !L.SuitsRollbacks(cfg, lim)
    ensures Reached(cfg, lim, s) && 101 in s.docs && s.docs[101].path == CopyA && s.objects == map[]
  {
    var a := OrphanOwnsAgain(cfg, lim);
    var b := NameTaken(cfg, lim, a);
    assert map[0 := a][1 := b] == map[1 := b][0 := a];
    var w := World(map[1 := b], map[], map[CopyA := 8]);
    assert Sys(World(map[0 := a], map[], map[CopyA := 8]), 1, b) == Sys(w, 0, a);
    var x := CleanUpNext(cfg, lim, w, 0, a, 0, CopyA);
    var c := SettledSub(a, 0);
    assert map[1 := b][0 := c] == map[0 := c][1 := b] && map[CopyA := 8] - {CopyA} == map[];
    var y := World(map[0 := c], map[], map[]);
    assert Sys(x, 0, c) == Sys(y, 1, b);
    y := InsertNext(cfg, lim, y, 1, b, 0, 1, CopyA, 101, false);
    s := Sys(y, 1, SettledSub(b, 0));
  }

  // ------------------------------------------------------------------ in one millisecond

  // Two attempts of one key: one cleans up the copy the other stores.
  lemma DanglingInOneMillisecond(cfg: L.Config, lim: L.Limits) returns (s: System)
    requires cfg.Valid() && !lim.apart
    ensures Reached(cfg, lim, s) && 101 in s.docs && s.docs[101].path == CopyA && s.objects == map[]
  {
    var now := cfg.leaseMs + 1;
    var row, live := L.Row(L.Received, 1, Some(now)), map[0 := L.Orphan(now), 2 := Claimed(now, true)];
    var r := CopiedByFirst(cfg, lim);
    r := Orphaned(cfg, lim, OneCopy, r, now);
    r := StartsOver(cfg, lim, OneCopy, r, now, now);
    r := CheckNext(cfg, lim, OneCopy, 0, r, 2, 1);
    r := ReuseNext(cfg, lim, OneCopy, 0, r, 2, CopyA);
    assert Is(r, now, 3, row, live) && live[0 := live[0].(startedAt := now)] == live && live[2 := live[2].(startedAt := now)] == live;
    var x := CleanUpNext(cfg, lim, OneCopy, 0, r, 0, CopyA);
    assert map[CopyA := 7] - {CopyA} == map[];
    r := SettledSub(r, 0);
    x := InsertNext(cfg, lim, x, 0, r, 2, 1, CopyA, 101, false);
    s := Sys(x, 0, SettledSub(r, 2));
  }

  // The rolled back attempt records FAILED, and after another retry two running
  // attempts have one key.
  lemma RetriedAtOnce(cfg: L.Config, lim: L.Limits) returns (r: Submission)
    requires cfg.Valid() && !lim.apart
    ensures At(cfg, lim, Nothing, 0, r) && L.WithinLimits(lim, r.lease) && r.placementPath.None?
    ensures Is(r, cfg.leaseMs + 1, 3, L.ReceivedRow, map[2 := Claimed(cfg.leaseMs + 1, true)])
    ensures r.work.Keys == {0, 1, 2} && r.work[2] == Work(None, Some((2, New)), None, false)
  {
    var now := cfg.leaseMs + 1;
    var row, live := L.Row(L.Received, 1, Some(now)), map[0 := L.Orphan(now), 2 := Claimed(now, true)];
    r := Entered(cfg, lim);
    r := Orphaned(cfg, lim, Nothing, r, now);
    r := StartsOver(cfg, lim, Nothing, r, now, now);
    r := CheckNext(cfg, lim, Nothing, 0, r, 2, 2);
    r := FailsAndRetried(cfg, lim, Nothing, 0, r, now, 3, row, live, 0);
    assert live - {0} == map[2 := Claimed(now, true)];
  }

  lemma TwoRun(cfg: L.Config, lim: L.Limits) returns (r: Submission)
    requires cfg.Valid() && !lim.apart
    ensures At(cfg, lim, Nothing, 0, r) && L.WithinLimits(lim, r.lease)
    ensures var now := cfg.leaseMs + 1;
      Is(r, now, 4, L.Row(L.Received, 1, Some(now)), map[2 := Claimed(now, true), 3 := Claimed(now, true)])
    ensures Remembers(r, 2, Work(None, Some((2, New)), None, false)) && Remembers(r, 3, FreshWork(None))
  {
    var now := cfg.leaseMs + 1;
    var live := map[2 := Claimed(now, true)];
    r := RetriedAtOnce(cfg, lim);
    r := Claims(cfg, lim, Nothing, 0, r, now, 3, L.ReceivedRow, live);
    r := Enters(cfg, lim, Nothing, 0, r, now, 4, L.Row(L.Received, 1, Some(now)), live, 3);
  }

  lemma StoredTwiceInOneMillisecond(cfg: L.Config, lim: L.Limits) returns (s: System)
    requires cfg.Valid() && !lim.apart
    ensures Reached(cfg, lim, s) && s.docs == map[101 := DocOfA, 100 := DocOfB]
  {
    var now, x := cfg.leaseMs + 1, Nothing;
    var live := map[2 := Claimed(now, true), 3 := Claimed(now, true)];
    assert live[2 := live[2].(startedAt := now)] == live && live[3 := live[3].(startedAt := now)] == live;
    var r := TwoRun(cfg, lim);
    r := CheckNext(cfg, lim, Nothing, 0, r, 3, 1);
    r, x := CopyNext(cfg, lim, Nothing, 0, r, 3, CopyA);
    x := InsertNext(cfg, lim, x, 0, r, 3, 1, CopyA, 101, false);
    r := SettledSub(r, 3);
    assert x.docs == map[101 := DocOfA] && r.lease.live == live;
    PathsDiffer();
    r, x := CopyNext(cfg, lim, x, 0, r, 2, CopyB);
    x := InsertNext(cfg, lim, x, 0, r, 2, 2, CopyB, 100, false);
    s := Sys(x, 0, SettledSub(r, 2));
  }

  // ------------------------------------------------------------------ exactly

  ghost predicate AlwaysExactlyOnce(cfg: L.Config, lim: L.Limits) {
    forall run: seq<Action> :: LimitedRun(cfg, lim, Empty, run) ==>
      match Exec(cfg, Empty, run) case None => true case Some(s) => ExactlyOnce(s)
  }

  ghost predicate AlwaysConsistent(cfg: L.Config, lim: L.Limits) {
    forall run: seq<Action> :: LimitedRun(cfg, lim, Empty, run) ==>
      match Exec(cfg, Empty, run) case None => true case Some(s) => Consistent(s)
  }

  lemma TwiceIsNotOnce(s: System)
    requires s.docs == map[100 := DocOfB, 101 := DocOfA]
    ensures !ExactlyOnce(s)
  {
    assert s.docs[100].submission == s.docs[101].submission;
  }

  // Main result: over all runs within the limits, the worker stores each
  // submission at most once exactly when the settings suit the releases and no
  // claim falls into the millisecond of a rolled back renewal.
  lemma ExactlyOnceIff(cfg: L.Config, lim: L.Limits)
    requires cfg.Valid()
    ensures AlwaysExactlyOnce(cfg, lim) <==> lim.apart && L.SuitsReleases(cfg, lim)
  {
    if lim.apart && L.SuitsReleases(cfg, lim) {
      forall run: seq<Action> | LimitedRun(cfg, lim, Empty, run)
        ensures match Exec(cfg, Empty, run) case None => true case Some(s) => ExactlyOnce(s)
      {
        LimitedRunIsSafe(cfg, lim, Empty, run, false);
        SafeRunStoresOnce(cfg, run, false);
      }
    } else {
      var s: System;
      if !lim.apart { s := StoredTwiceInOneMillisecond(cfg, lim); } else { s := StoredTwice(cfg, lim); }
      TwiceIsNotOnce(s);
      var run :| Leads(cfg, lim, Empty, run, s);
    }
  }

  // Main result: and the two stores agree exactly when they suit the rolled back
  // transactions as well.
  lemma ConsistentIff(cfg: L.Config, lim: L.Limits)
    requires cfg.Valid()
    ensures AlwaysConsistent(cfg, lim) <==> L.Suits(cfg, lim)
  {
    if L.Suits(cfg, lim) {
      forall run: seq<Action> | LimitedRun(cfg, lim, Empty, run)
        ensures match Exec(cfg, Empty, run) case None => true case Some(s) => Consistent(s)
      {
        LimitedRunIsSafe(cfg, lim, Empty, run, true);
        SafeRunIsConsistent(cfg, run);
      }
    } else {
      var s: System;
      if !lim.apart { s := DanglingInOneMillisecond(cfg, lim); }
      else if !L.SuitsReleases(cfg, lim) { s := DanglingAfterRelease(cfg, lim); }
      else { s := DanglingAfterRollback(cfg, lim); }
      assert s.docs[101].path !in s.objects && !Consistent(s);
      var run :| Leads(cfg, lim, Empty, run, s);
    }
  }

  // The program as shipped, with the default settings.
  lemma DefaultsAsShipped(after: nat)
    ensures AlwaysExactlyOnce(L.QUEUE_DEFAULTS, L.Limits(Some(L.SHUTDOWN_DEADLINE_MS), None, true))
    ensures AlwaysConsistent(L.QUEUE_DEFAULTS, L.Limits(Some(L.SHUTDOWN_DEADLINE_MS), Some(after), true)) <==> after < 540_000
    ensures !AlwaysExactlyOnce(L.QUEUE_DEFAULTS, L.Limits(None, Some(after), true))
  {
    ExactlyOnceIff(L.QUEUE_DEFAULTS, L.Limits(Some(L.SHUTDOWN_DEADLINE_MS), None, true));
    ConsistentIff(L.QUEUE_DEFAULTS, L.Limits(Some(L.SHUTDOWN_DEADLINE_MS), Some(after), true));
    ExactlyOnceIff(L.QUEUE_DEFAULTS, L.Limits(None, Some(after), true));
  }
}
