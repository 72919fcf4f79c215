/** What the worker's and the admins' steps of module Worker come to: what a
    checksum check answers, that a stored submission is recognised again, and
    that an undisturbed attempt does its work. */
module Filing {
  import opened Common
  import opened CopyLoop
  import L = Lease
  import opened Stores
  import opened Worker

  // ------------------------------------------------------------------ checksum outcomes

  ghost predicate ClientHas(docs: map<nat, Document>, client: nat, sha: nat) {
    exists d :: d in docs && docs[d].client == client && docs[d].sha == sha
  }

  ghost predicate ClientHasFrom(docs: map<nat, Document>, client: nat, sha: nat, t: nat) {
    exists d :: d in docs && docs[d].client == client && docs[d].sha == sha && docs[d].submission == Some(t)
  }

  ghost predicate SomebodyHas(docs: map<nat, Document>, sha: nat) {
    exists d :: d in docs && docs[d].sha == sha
  }

  // Which tables give which outcome.
  lemma ChecksumMeaning(docs: map<nat, Document>, client: nat, sha: nat, t: nat)
    ensures
      var outcome := CheckClientChecksum(docs, client, sha, t);
      && (outcome == AlreadyStored <==> ClientHasFrom(docs, client, sha, t))
      && (outcome == Duplicate <==> ClientHas(docs, client, sha) && !ClientHasFrom(docs, client, sha, t))
      && (outcome == CrossClientConflict <==> !ClientHas(docs, client, sha) && SomebodyHas(docs, sha))
      && (outcome == New <==> !SomebodyHas(docs, sha))
  {
  }

  // Document d is submission t, filed under a client.
  ghost predicate Filed(s: System, t: nat, d: nat, client: nat) {
    t in s.subs && d in s.docs && s.docs[d].client == client && s.docs[d].sha == s.subs[t].sha && s.docs[d].submission == Some(t)
  }

  predicate Unfiles(a: Action, t: nat, d: nat) {
    a == RemovePending(t) || a == RemoveDocument(d)
  }

  lemma StepKeepsFiled(cfg: L.Config, s: System, a: Action, t: nat, d: nat, client: nat)
    requires Filed(s, t, d, client) && !Unfiles(a, t, d) && Apply(cfg, s, a).Some?
    ensures Filed(Apply(cfg, s, a).value, t, d, client)
  {
  }

  lemma {:induction false} RunKeepsFiled(cfg: L.Config, s: System, actions: seq<Action>, t: nat, d: nat, client: nat)
    requires Filed(s, t, d, client) && forall i :: 0 <= i < |actions| ==> !Unfiles(actions[i], t, d)
    ensures Exec(cfg, s, actions).Some? ==> Filed(Exec(cfg, s, actions).value, t, d, client)
    decreases |actions|
  {
    if actions != [] && Apply(cfg, s, actions[0]).Some? {
      StepKeepsFiled(cfg, s, actions[0], t, d, client);
      RunKeepsFiled(cfg, Apply(cfg, s, actions[0]).value, actions[1..], t, d, client);
    }
  }

  lemma InsertFiles(cfg: L.Config, s: System, t: nat, id: nat, d: nat, reviewRequired: bool)
    requires StepInsert(cfg, s, t, id, d, reviewRequired).Some? && d in StepInsert(cfg, s, t, id, d, reviewRequired).value.docs
    ensures s.subs[t].work[id].checked.Some?
    ensures Filed(StepInsert(cfg, s, t, id, d, reviewRequired).value, t, d, s.subs[t].work[id].checked.value.0)
  {
  }

  // Main result: once the worker stored a submission for a client, whatever
  // happens afterwards, a later attempt that identifies the same client finds it
  // stored already, and one that identifies another client never finds it new,
  // as long as the document and the submission are not removed.
  lemma StoredIsRecognised(cfg: L.Config, s: System, t: nat, id: nat, d: nat, reviewRequired: bool, actions: seq<Action>, k: nat, client: nat)
    requires StepInsert(cfg, s, t, id, d, reviewRequired).Some? && d in StepInsert(cfg, s, t, id, d, reviewRequired).value.docs
    requires forall i :: 0 <= i < |actions| ==> !Unfiles(actions[i], t, d)
    requires Exec(cfg, StepInsert(cfg, s, t, id, d, reviewRequired).value, actions).Some?
    requires Apply(cfg, Exec(cfg, StepInsert(cfg, s, t, id, d, reviewRequired).value, actions).value, Check(t, k, client)).Some?
    ensures
      var first := s.subs[t].work[id].checked.value.0;
      var z := Apply(cfg, Exec(cfg, StepInsert(cfg, s, t, id, d, reviewRequired).value, actions).value, Check(t, k, client)).value;
      && t in z.subs && k in z.subs[t].work && z.subs[t].work[k].checked.Some? && z.subs[t].work[k].checked.value.0 == client
      && (client == first ==> z.subs[t].work[k].checked.value.1 == AlreadyStored)
      && (client != first ==> z.subs[t].work[k].checked.value.1 != New)
  {
    var first := s.subs[t].work[id].checked.value.0;
    var r := StepInsert(cfg, s, t, id, d, reviewRequired).value;
    InsertFiles(cfg, s, t, id, d, reviewRequired);
    RunKeepsFiled(cfg, r, actions, t, d, first);
    var y := Exec(cfg, r, actions).value;
    assert Filed(y, t, d, first);
    ChecksumMeaning(y.docs, client, y.subs[t].sha, t);
  }

  // ------------------------------------------------------------------ an undisturbed attempt

  // Only this submission is different.
  ghost predicate OnlySubmission(s: System, z: System, t: nat) {
    && t in s.subs && z.subs.Keys == s.subs.Keys && (forall u :: u in s.subs && u != t ==> z.subs[u] == s.subs[u])
    && z.subs[t].sha == s.subs[t].sha
  }

  ghost predicate CanStart(cfg: L.Config, s: System, t: nat) {
    && t in s.subs && L.Claimable(cfg, s.subs[t].lease.row, s.subs[t].lease.now)
    && s.subs[t].lease.row.attempts < cfg.maxAttempts
  }

  function Starting(t: nat, id: nat, client: nat, rest: seq<Action>): seq<Action> {
    [LeaseStep(t, L.Claim)] + ([LeaseStep(t, L.Enter(id))] + ([Check(t, id, client)] + rest))
  }

  // The attempt is in the pipeline and knows the outcome of its check.
  ghost predicate Started(s: System, u: System, t: nat, id: nat, client: nat, outcome: Checksum) {
    && OnlySubmission(s, u, t) && u.docs == s.docs && u.objects == s.objects && u.inFlight == s.inFlight
    && var a, b := s.subs[t], u.subs[t];
       && b.pendingPath == a.pendingPath && b.placementPath == a.placementPath
       && a.lease.row.status == L.Received && id == a.lease.nextId
       && b.lease.now == a.lease.now && b.lease.row == L.ClaimRow(a.lease.row, a.lease.now) && b.lease.nextId == id + 1
       && id in b.lease.live && b.lease.live[id] == L.Attempt(a.lease.row.attempts + 1, a.lease.now, a.lease.now, None, true, false)
       && id in b.work && b.work[id] == Work(a.placementPath, Some((client, outcome)), None, false)
  }

  lemma ExecCons(cfg: L.Config, s: System, a: Action, rest: seq<Action>)
    requires Apply(cfg, s, a).Some?
    ensures Exec(cfg, s, [a] + rest) == Exec(cfg, Apply(cfg, s, a).value, rest)
  {
    assert ([a] + rest)[1..] == rest;
  }

  lemma Claims(cfg: L.Config, s: System, t: nat)
    requires CanStart(cfg, s, t)
    ensures
      var x := Apply(cfg, s, LeaseStep(t, L.Claim));
      && x.Some? && OnlySubmission(s, x.value, t) && x.value == s.(subs := x.value.subs)
      && var a, b := s.subs[t], x.value.subs[t];
         && b.pendingPath == a.pendingPath && b.placementPath == a.placementPath
         && b.lease.now == a.lease.now && b.lease.row == L.ClaimRow(a.lease.row, a.lease.now) && b.lease.nextId == a.lease.nextId + 1
         && a.lease.nextId in b.lease.live && a.lease.nextId in b.work && b.work[a.lease.nextId] == Work(a.placementPath, None, None, false)
         && b.lease.live[a.lease.nextId] == L.Attempt(a.lease.row.attempts + 1, a.lease.now, a.lease.now, None, false, false)
  {
  }

  lemma Starts(cfg: L.Config, s: System, t: nat, client: nat, rest: seq<Action>) returns (u: System)
    requires CanStart(cfg, s, t)
    ensures Exec(cfg, s, Starting(t, s.subs[t].lease.nextId, client, rest)) == Exec(cfg, u, rest)
    ensures Started(s, u, t, s.subs[t].lease.nextId, client, CheckClientChecksum(s.docs, client, s.subs[t].sha, t))
  {
    var id := s.subs[t].lease.nextId;
    Claims(cfg, s, t);
    var s1 := Apply(cfg, s, LeaseStep(t, L.Claim)).value;
    ExecCons(cfg, s, LeaseStep(t, L.Claim), [LeaseStep(t, L.Enter(id))] + ([Check(t, id, client)] + rest));
    var s2 := Apply(cfg, s1, LeaseStep(t, L.Enter(id))).value;
    ExecCons(cfg, s1, LeaseStep(t, L.Enter(id)), [Check(t, id, client)] + rest);
    u := Apply(cfg, s2, Check(t, id, client)).value;
    ExecCons(cfg, s2, Check(t, id, client), rest);
  }

  // The copy exists under the recorded name.
  ghost predicate Copied(s: System, v: System, t: nat, id: nat, client: nat, outcome: Checksum, p: Path) {
    && OnlySubmission(s, v, t) && v.docs == s.docs && v.objects == s.objects[p := s.subs[t].sha] && v.inFlight == s.inFlight
    && var a, b := s.subs[t], v.subs[t];
       && b.pendingPath == a.pendingPath && b.placementPath == Some(p)
       && a.lease.row.status == L.Received && id == a.lease.nextId
       && b.lease.now == a.lease.now && b.lease.row == L.ClaimRow(a.lease.row, a.lease.now) && b.lease.nextId == id + 1
       && id in b.lease.live && b.lease.live[id] == L.Attempt(a.lease.row.attempts + 1, a.lease.now, a.lease.now, None, true, false)
       && id in b.work && b.work[id] == Work(a.placementPath, Some((client, outcome)), Some(p), false)
  }

  // The name the attempt settles on: the first that is free or its own.
  ghost predicate Settles(s: System, t: nat, candidates: seq<Path>, k: nat) {
    && t in s.subs && k < |candidates| && (candidates[k] !in s.objects || OwnBefore(s, t, candidates[k]))
    && forall j :: 0 <= j < k ==> candidates[j] in s.objects && !OwnBefore(s, t, candidates[j])
  }

  // An earlier attempt of the submission recorded the name and left its copy
  // there, and nothing refers to it.
  ghost predicate OwnBefore(s: System, t: nat, p: Path) {
    && t in s.subs && s.subs[t].placementPath == Some(p) && p in s.objects && s.objects[p] == s.subs[t].sha
    && (forall d :: d in s.docs ==> s.docs[d].path != p)
    && (forall u :: u in s.subs && u != t ==> s.subs[u].pendingPath != Some(p) && s.subs[u].placementPath != Some(p))
  }

  lemma OwnIsOwn(s: System, u: System, t: nat, id: nat, client: nat, outcome: Checksum, p: Path)
    requires Started(s, u, t, id, client, outcome)
    ensures IsOwnEarlierCopy(u, t, u.subs[t].work[id], p) <==> OwnBefore(s, t, p)
  {
    forall x | x in s.subs && x != t ensures u.subs[x] == s.subs[x] {}
    assert DocumentOn(u, p) <==> DocumentOn(s, p);
  }

  lemma ChoiceMeaning(s: System, u: System, t: nat, id: nat, client: nat, outcome: Checksum, candidates: seq<Path>, k: nat)
    requires Started(s, u, t, id, client, outcome) && Settles(s, t, candidates, k)
    ensures Running(u, t, id) && Choice(u, t, id, candidates) == Some(candidates[k])
  {
    var w := u.subs[t].work[id];
    forall j | 0 <= j <= k ensures IsOwnEarlierCopy(u, t, w, candidates[j]) <==> OwnBefore(s, t, candidates[j]) {
      OwnIsOwn(s, u, t, id, client, outcome, candidates[j]);
    }
    var own := if w.earlier.Some? && IsOwnEarlierCopy(u, t, w, w.earlier.value) then {w.earlier.value} else {};
    assert forall j :: 0 <= j <= k ==> (candidates[j] in own <==> OwnBefore(s, t, candidates[j]));
    FirstIs(u.objects.Keys, own, candidates, k);
  }

  lemma FirstIs(taken: set<Path>, own: set<Path>, names: seq<Path>, k: nat)
    requires k < |names| && (names[k] !in taken || names[k] in own)
    requires forall j :: 0 <= j < k ==> names[j] in taken && names[j] !in own
    ensures FirstUsable(taken, own, names) == Some(k)
  {
  }

  lemma Copies(cfg: L.Config, s: System, u: System, t: nat, id: nat, client: nat, outcome: Checksum, candidates: seq<Path>, k: nat,
               rest: seq<Action>)
    returns (v: System)
    requires Started(s, u, t, id, client, outcome) && Settles(s, t, candidates, k)
    ensures Exec(cfg, u, [Place(t, id, candidates)] + rest) == Exec(cfg, v, rest)
    ensures Copied(s, v, t, id, client, outcome, candidates[k])
  {
    ChoiceMeaning(s, u, t, id, client, outcome, candidates, k);
    v := Apply(cfg, u, Place(t, id, candidates)).value;
    ExecCons(cfg, u, Place(t, id, candidates), rest);
    if candidates[k] in s.objects { assert s.objects[candidates[k] := s.subs[t].sha] == s.objects; }
  }

  function Storing(t: nat, id: nat, d: nat, reviewRequired: bool, status: L.Status): seq<Action> {
    [Insert(t, id, d, reviewRequired)] + ([LeaseStep(t, L.Finish(id, status))] + [])
  }

  // The file has one copy, one document and one final status.
  ghost predicate Stored(s: System, z: System, t: nat, d: nat, client: nat, reviewRequired: bool, status: L.Status, p: Path) {
    && OnlySubmission(s, z, t) && z.inFlight == s.inFlight
    && z.objects == s.objects[p := s.subs[t].sha]
    && z.docs == s.docs[d := Document(client, s.subs[t].sha, p, reviewRequired, Some(t), true)]
    && z.subs[t].pendingPath == s.subs[t].pendingPath && z.subs[t].placementPath == Some(p)
    && z.subs[t].lease.row == L.ClaimRow(s.subs[t].lease.row, s.subs[t].lease.now).(status := status)
    && s.subs[t].lease.nextId !in z.subs[t].lease.live
  }

  lemma InsertsAndFinishes(cfg: L.Config, s: System, v: System, t: nat, id: nat, client: nat, p: Path, d: nat, reviewRequired: bool, status: L.Status)
    returns (z: System)
    requires t in s.subs && Copied(s, v, t, id, client, New, p) && p.area == ClientArea
    requires d !in s.docs && !ClientHas(s.docs, client, s.subs[t].sha) && status != L.Received
    ensures Exec(cfg, v, Storing(t, id, d, reviewRequired, status)) == Some(z)
    ensures Stored(s, z, t, d, client, reviewRequired, status, p)
  {
    var y := Apply(cfg, v, Insert(t, id, d, reviewRequired)).value;
    ExecCons(cfg, v, Insert(t, id, d, reviewRequired), [LeaseStep(t, L.Finish(id, status))] + []);
    z := Apply(cfg, y, LeaseStep(t, L.Finish(id, status))).value;
    ExecCons(cfg, y, LeaseStep(t, L.Finish(id, status)), []);
  }

  function Attempting(t: nat, id: nat, client: nat, candidates: seq<Path>, d: nat, reviewRequired: bool, status: L.Status): seq<Action> {
    Starting(t, id, client, [Place(t, id, candidates)] + Storing(t, id, d, reviewRequired, status))
  }

  // Main result: an attempt that nobody disturbs stores a new file: one copy
  // under the first name that is free or its own, one document, the final
  // status; everything else is as before.
  lemma UndisturbedFiling(cfg: L.Config, s: System, t: nat, client: nat, candidates: seq<Path>, k: nat, d: nat, reviewRequired: bool,
                          status: L.Status)
    returns (z: System)
    requires CanStart(cfg, s, t) && Settles(s, t, candidates, k) && candidates[k].area == ClientArea
    requires !SomebodyHas(s.docs, s.subs[t].sha) && d !in s.docs && status != L.Received
    ensures Exec(cfg, s, Attempting(t, s.subs[t].lease.nextId, client, candidates, d, reviewRequired, status)) == Some(z)
    ensures Stored(s, z, t, d, client, reviewRequired, status, candidates[k])
  {
    var id := s.subs[t].lease.nextId;
    ChecksumMeaning(s.docs, client, s.subs[t].sha, t);
    var u := Starts(cfg, s, t, client, [Place(t, id, candidates)] + Storing(t, id, d, reviewRequired, status));
    var v := Copies(cfg, s, u, t, id, client, New, candidates, k, Storing(t, id, d, reviewRequired, status));
    z := InsertsAndFinishes(cfg, s, v, t, id, client, candidates[k], d, reviewRequired, status);
  }

  // The attempt is gone, and its lease has run out.
  ghost predicate Interrupted(s: System, w: System, t: nat, p: Path) {
    && OnlySubmission(s, w, t) && w.docs == s.docs && w.objects == s.objects[p := s.subs[t].sha] && w.inFlight == s.inFlight
    && w.subs[t].pendingPath == s.subs[t].pendingPath && w.subs[t].placementPath == Some(p)
    && w.subs[t].lease.nextId == s.subs[t].lease.nextId + 1 && w.subs[t].lease.row.attempts == s.subs[t].lease.row.attempts + 1
  }

  lemma RunsOut(cfg: L.Config, s: System, v: System, t: nat, id: nat, client: nat, p: Path, ms: nat, rest: seq<Action>) returns (w: System)
    requires t in s.subs && Copied(s, v, t, id, client, New, p)
    requires s.subs[t].lease.row.attempts + 1 < cfg.maxAttempts && cfg.leaseMs < ms
    ensures Exec(cfg, v, [LeaseStep(t, L.Tick(ms))] + rest) == Exec(cfg, w, rest)
    ensures Interrupted(s, w, t, p) && CanStart(cfg, w, t)
  {
    w := Apply(cfg, v, LeaseStep(t, L.Tick(ms))).value;
    ExecCons(cfg, v, LeaseStep(t, L.Tick(ms)), rest);
  }

  lemma SettlesAgain(s: System, w: System, t: nat, candidates: seq<Path>, k: nat)
    requires k < |candidates| && Interrupted(s, w, t, candidates[k]) && candidates[k] !in s.objects
    requires forall j :: 0 <= j < k ==> candidates[j] in s.objects
    requires !DocumentOn(s, candidates[k]) && !OtherSubmissionAt(s, t, candidates[k])
    ensures Settles(w, t, candidates, k)
  {
    forall u | u in w.subs && u != t ensures w.subs[u].pendingPath != Some(candidates[k]) && w.subs[u].placementPath != Some(candidates[k]) {
      assert w.subs[u] == s.subs[u];
    }
    forall d | d in w.docs ensures w.docs[d].path != candidates[k] { assert s.docs[d] == w.docs[d]; }
    assert OwnBefore(w, t, candidates[k]);
  }

  ghost predicate FiledOnce(s: System, z: System, t: nat, d: nat, client: nat, reviewRequired: bool, status: L.Status, p: Path) {
    && OnlySubmission(s, z, t)
    && z.objects == s.objects[p := s.subs[t].sha]
    && z.docs == s.docs[d := Document(client, s.subs[t].sha, p, reviewRequired, Some(t), true)]
    && z.subs[t].lease.row.status == status && z.subs[t].lease.row.attempts == s.subs[t].lease.row.attempts + 2
  }

  lemma SameInTheEnd(s: System, w: System, z: System, t: nat, d: nat, client: nat, reviewRequired: bool, status: L.Status, p: Path)
    requires Interrupted(s, w, t, p) && Stored(w, z, t, d, client, reviewRequired, status, p)
    ensures FiledOnce(s, z, t, d, client, reviewRequired, status, p)
  {
  }

  // The first candidate that is free, or the submission's own; and this one is
  // free and nobody's.
  ghost predicate FreeName(s: System, t: nat, candidates: seq<Path>, k: nat) {
    && Settles(s, t, candidates, k) && candidates[k].area == ClientArea && candidates[k] !in s.objects
    && !DocumentOn(s, candidates[k]) && !OtherSubmissionAt(s, t, candidates[k])
  }

  ghost predicate Unknown(s: System, t: nat, d: nat) {
    t in s.subs && !SomebodyHas(s.docs, s.subs[t].sha) && d !in s.docs
  }

  function Dying(t: nat, id: nat, client: nat, candidates: seq<Path>, ms: nat): seq<Action> {
    Starting(t, id, client, [Place(t, id, candidates)] + ([LeaseStep(t, L.Tick(ms))] + []))
  }

  lemma Interrupts(cfg: L.Config, s: System, t: nat, client: nat, candidates: seq<Path>, k: nat, d: nat, ms: nat) returns (w: System)
    requires CanStart(cfg, s, t) && s.subs[t].lease.row.attempts + 1 < cfg.maxAttempts && cfg.leaseMs < ms
    requires FreeName(s, t, candidates, k) && Unknown(s, t, d)
    ensures Exec(cfg, s, Dying(t, s.subs[t].lease.nextId, client, candidates, ms)) == Some(w)
    ensures Interrupted(s, w, t, candidates[k]) && CanStart(cfg, w, t)
  {
    var id := s.subs[t].lease.nextId;
    ChecksumMeaning(s.docs, client, s.subs[t].sha, t);
    var u := Starts(cfg, s, t, client, [Place(t, id, candidates)] + ([LeaseStep(t, L.Tick(ms))] + []));
    var v := Copies(cfg, s, u, t, id, client, New, candidates, k, [LeaseStep(t, L.Tick(ms))] + []);
    w := RunsOut(cfg, s, v, t, id, client, candidates[k], ms, []);
  }

  lemma Resumes(cfg: L.Config, s: System, w: System, t: nat, client: nat, candidates: seq<Path>, k: nat, d: nat, reviewRequired: bool,
                status: L.Status)
    returns (z: System)
    requires FreeName(s, t, candidates, k) && Interrupted(s, w, t, candidates[k]) && CanStart(cfg, w, t)
    requires Unknown(s, t, d) && status != L.Received
    ensures Exec(cfg, w, Attempting(t, w.subs[t].lease.nextId, client, candidates, d, reviewRequired, status)) == Some(z)
    ensures FiledOnce(s, z, t, d, client, reviewRequired, status, candidates[k])
  {
    SettlesAgain(s, w, t, candidates, k);
    z := UndisturbedFiling(cfg, w, t, client, candidates, k, d, reviewRequired, status);
    SameInTheEnd(s, w, z, t, d, client, reviewRequired, status, candidates[k]);
  }

  // Main result: an attempt dies after its copy, and its lease runs out. The next
  // one files the submission under that same copy: together they create one
  // object and one document.
  lemma InterruptedFilingIsResumed(cfg: L.Config, s: System, t: nat, client: nat, candidates: seq<Path>, k: nat, ms: nat,
                                   d: nat, reviewRequired: bool, status: L.Status)
    returns (w: System, z: System)
    requires CanStart(cfg, s, t) && s.subs[t].lease.row.attempts + 1 < cfg.maxAttempts && cfg.leaseMs < ms
    requires FreeName(s, t, candidates, k) && Unknown(s, t, d) && status != L.Received
    ensures Exec(cfg, s, Dying(t, s.subs[t].lease.nextId, client, candidates, ms)) == Some(w) && t in w.subs
    ensures Exec(cfg, w, Attempting(t, w.subs[t].lease.nextId, client, candidates, d, reviewRequired, status)) == Some(z)
    ensures FiledOnce(s, z, t, d, client, reviewRequired, status, candidates[k])
  {
    w := Interrupts(cfg, s, t, client, candidates, k, d, ms);
    z := Resumes(cfg, s, w, t, client, candidates, k, d, reviewRequired, status);
  }

  // ------------------------------------------------------------------ a file that waits

  // The first free name.
  ghost predicate FirstFree(objects: map<Path, nat>, candidates: seq<Path>, k: nat) {
    k < |candidates| && candidates[k] !in objects && forall j :: 0 <= j < k ==> candidates[j] in objects
  }

  lemma FirstFreeMeaning(objects: map<Path, nat>, candidates: seq<Path>, k: nat)
    ensures FirstUsable(objects.Keys, {}, candidates) == Some(k) <==> FirstFree(objects, candidates, k)
  {
    if FirstFree(objects, candidates, k) { FirstIs(objects.Keys, {}, candidates, k); }
  }

  // The pipeline's last write records where the waiting file is.
  lemma FinishPendingMeaning(cfg: L.Config, s: System, t: nat, id: nat, status: L.Status)
    ensures
      var after := Apply(cfg, s, FinishPending(t, id, status));
      && (after.Some? <==>
            && Running(s, t, id) && OwnsRow(s, t, id) && status != L.Received
            && s.subs[t].work[id].placed.Some? && s.subs[t].work[id].placed.value.area == PendingArea)
      && (after.Some? ==>
            var z := after.value;
            && z == s.(subs := z.subs) && OnlySubmission(s, z, t)
            && z.subs[t].pendingPath == s.subs[t].work[id].placed && z.subs[t].placementPath == s.subs[t].placementPath
            && z.subs[t].lease.row == s.subs[t].lease.row.(status := status) && id !in z.subs[t].lease.live)
  {
  }

  // A waiting file becomes a document of the client.
  ghost predicate MovedIn(s: System, z: System, t: nat, client: nat, p: Path, d: nat, asVersion: bool)
    requires t in s.subs && s.subs[t].pendingPath.Some?
  {
    var from, sha := s.subs[t].pendingPath.value, s.subs[t].sha;
    && OnlySubmission(s, z, t) && z.inFlight == s.inFlight
    && z.docs.Keys == s.docs.Keys + {d} && (forall e :: e in s.docs ==> z.docs[e] == s.docs[e])
    && z.docs[d].client == client && z.docs[d].sha == sha && z.docs[d].path == p && z.docs[d].submission == Some(t)
    && z.docs[d].reviewRequired == asVersion && !z.docs[d].byWorker
    && p != from && z.objects.Keys == s.objects.Keys + {p} - {from} && z.objects[p] == sha
    && (forall q :: q in z.objects && q != p ==> z.objects[q] == s.objects[q])
    && z.subs[t].pendingPath.None? && z.subs[t].placementPath == s.subs[t].placementPath && z.subs[t].work == s.subs[t].work
    && z.subs[t].lease == s.subs[t].lease.(row := z.subs[t].lease.row)
    && z.subs[t].lease.row.attempts == s.subs[t].lease.row.attempts && z.subs[t].lease.row.startedAt == s.subs[t].lease.row.startedAt
    && z.subs[t].lease.row.status == (if asVersion then s.subs[t].lease.row.status else L.Processed)
  }

  ghost predicate CanMove(s: System, t: nat, client: nat, d: nat) {
    && t in s.subs && s.subs[t].pendingPath.Some? && d !in s.docs
    && s.subs[t].pendingPath.value in s.objects && s.objects[s.subs[t].pendingPath.value] == s.subs[t].sha
    && !ClientHas(s.docs, client, s.subs[t].sha)
  }

  lemma StorePendingMeaning(cfg: L.Config, s: System, t: nat, client: nat, candidates: seq<Path>, k: nat, d: nat, asVersion: bool)
    requires FirstFree(s.objects, candidates, k)
    ensures
      var after := Apply(cfg, s, StorePending(t, client, candidates, d, asVersion));
      && (after.Some? <==> CanMove(s, t, client, d) && candidates[k].area == ClientArea)
      && (after.Some? ==> MovedIn(s, after.value, t, client, candidates[k], d, asVersion))
  {
    FirstFreeMeaning(s.objects, candidates, k);
  }

  lemma StorePendingNeedsAName(cfg: L.Config, s: System, t: nat, client: nat, candidates: seq<Path>, d: nat, asVersion: bool)
    requires forall k: nat :: !FirstFree(s.objects, candidates, k)
    ensures Apply(cfg, s, StorePending(t, client, candidates, d, asVersion)).None?
  {
    if FirstUsable(s.objects.Keys, {}, candidates).Some? {
      FirstFreeMeaning(s.objects, candidates, FirstUsable(s.objects.Keys, {}, candidates).value);
    }
  }

  // The submission and its file are gone; documents only forget where they came from.
  lemma RemovePendingMeaning(cfg: L.Config, s: System, t: nat)
    ensures
      var after := Apply(cfg, s, RemovePending(t));
      && (after.Some? <==> t in s.subs && s.subs[t].pendingPath.Some?)
      && (after.Some? ==>
            var z := after.value;
            && z.subs.Keys == s.subs.Keys - {t} && (forall u :: u in z.subs ==> z.subs[u] == s.subs[u])
            && z.objects.Keys == s.objects.Keys - {s.subs[t].pendingPath.value} && (forall q :: q in z.objects ==> z.objects[q] == s.objects[q])
            && z.docs.Keys == s.docs.Keys && z.inFlight == s.inFlight
            && forall e :: e in s.docs ==>
                 && z.docs[e].(submission := None) == s.docs[e].(submission := None)
                 && z.docs[e].submission == if s.docs[e].submission == Some(t) then None else s.docs[e].submission)
  {
    if t in s.subs && s.subs[t].pendingPath.Some? {
      var z := StepRemovePending(s, t).value;
      forall e | e in s.docs ensures z.docs[e].(submission := None) == s.docs[e].(submission := None) {
        assert z.docs[e] == Forget(s.docs, t)[e];
      }
    }
  }

  // A stored document goes with its file, unless another document has it too.
  lemma RemoveDocumentMeaning(cfg: L.Config, s: System, d: nat)
    ensures
      var after := Apply(cfg, s, RemoveDocument(d));
      && (after.Some? <==> d in s.docs && s.docs[d].reviewRequired)
      && (after.Some? ==>
            var z := after.value;
            && z.subs == s.subs && z.inFlight == s.inFlight
            && z.docs.Keys == s.docs.Keys - {d} && (forall e :: e in z.docs ==> z.docs[e] == s.docs[e])
            && (forall q :: q in z.objects <==> q in s.objects && (q != s.docs[d].path || DocumentOn(z, q)))
            && (forall q :: q in z.objects ==> z.objects[q] == s.objects[q]))
  {
    if d in s.docs && s.docs[d].reviewRequired {
      var z := StepRemoveDocument(s, d).value;
      var p := s.docs[d].path;
      assert DocumentOn(z, p) <==> exists e :: e in s.docs && e != d && s.docs[e].path == p by {
        if e :| e in s.docs && e != d && s.docs[e].path == p { assert e in z.docs; }
        if DocumentOn(z, p) {
          var e :| e in z.docs && z.docs[e].path == p;
          assert e in s.docs && e != d;
        }
      }
    }
  }

  // ------------------------------------------------------------------ failures

  // The clean-up after a rolled back insert takes the attempt's copy away, if
  // the removal works and no document has it; whatever happens, the lease is
  // renewed and the attempt places nothing more.
  lemma CleanUpMeaning(cfg: L.Config, s: System, t: nat, id: nat, removed: bool)
    ensures
      var after := Apply(cfg, s, CleanUp(t, id, removed));
      && (after.Some? <==>
            && IsLive(s, t, id) && s.subs[t].lease.live[id].rolledBack && OwnsRow(s, t, id)
            && s.subs[t].work[id].placed.Some? && s.subs[t].work[id].placed.value.area == ClientArea)
      && (after.Some? ==>
            var z, p := after.value, s.subs[t].work[id].placed.value;
            && OnlySubmission(s, z, t) && z.docs == s.docs && z.inFlight == s.inFlight
            && (forall q :: q in z.objects <==> q in s.objects && !(q == p && removed && !DocumentOn(s, p)))
            && (forall q :: q in z.objects ==> z.objects[q] == s.objects[q])
            && IsLive(z, t, id) && z.subs[t].work[id].closed && z.subs[t].work[id].placed.None? && z.subs[t].work[id].checked.None?
            && z.subs[t].lease.row == s.subs[t].lease.row.(startedAt := Some(s.subs[t].lease.now)) && OwnsRow(z, t, id)
            && z.subs[t].placementPath == s.subs[t].placementPath && z.subs[t].pendingPath == s.subs[t].pendingPath)
  {
  }

  // A copy call that fails leaves the recorded path and, perhaps later, the
  // object; then nothing that is there already is overwritten.
  lemma CopyTimesOutMeaning(cfg: L.Config, s: System, u: System, t: nat, id: nat, client: nat, outcome: Checksum, candidates: seq<Path>, k: nat)
    requires Started(s, u, t, id, client, outcome) && Settles(s, t, candidates, k)
    ensures
      var after := Apply(cfg, u, CopyTimesOut(t, id, candidates));
      && (after.Some? <==> candidates[k] !in s.objects)
      && (after.Some? ==>
            var z := after.value;
            && OnlySubmission(s, z, t) && z.docs == s.docs && z.objects == s.objects
            && z.inFlight == s.inFlight + {(candidates[k], s.subs[t].sha)}
            && z.subs[t].placementPath == Some(candidates[k]) && z.subs[t].pendingPath == s.subs[t].pendingPath
            && z.subs[t].lease.row == u.subs[t].lease.row
            && IsLive(z, t, id) && z.subs[t].work[id].closed && z.subs[t].work[id].placed.None?)
  {
    ChoiceMeaning(s, u, t, id, client, outcome, candidates, k);
  }

  lemma LandsMeaning(cfg: L.Config, s: System, p: Path, sha: nat)
    ensures
      var after := Apply(cfg, s, Lands(p, sha));
      && (after.Some? <==> (p, sha) in s.inFlight)
      && (after.Some? ==>
            var z := after.value;
            && z.subs == s.subs && z.docs == s.docs && z.inFlight == s.inFlight - {(p, sha)}
            && z.objects.Keys == s.objects.Keys + {p} && (forall q :: q in s.objects ==> z.objects[q] == s.objects[q])
            && (p !in s.objects ==> z.objects[p] == sha))
  {
  }

  // An insert that fails, for whatever reason, changes nothing but the attempt's
  // own lease start; so does one that meets the same file.
  lemma InsertMeaning(cfg: L.Config, s: System, t: nat, id: nat, d: nat, reviewRequired: bool)
    requires CanInsert(s, t, id) && d !in s.docs
    ensures
      var after, fails := Apply(cfg, s, Insert(t, id, d, reviewRequired)), Apply(cfg, s, InsertFails(t, id));
      var client, sha := s.subs[t].work[id].checked.value.0, s.subs[t].sha;
      && after.Some? && fails.Some?
      && (d in after.value.docs <==> !ClientHas(s.docs, client, sha))
      && (ClientHas(s.docs, client, sha) ==> after == fails)
      && (d in after.value.docs ==>
            && after.value.docs == s.docs[d := Document(client, sha, s.subs[t].work[id].placed.value, reviewRequired, Some(t), true)]
            && after.value.objects == s.objects && after.value.inFlight == s.inFlight && OnlySubmission(s, after.value, t)
            && after.value.subs[t].work[id].closed && after.value.subs[t].work[id].placed.None?
            && after.value.subs[t].lease.row == s.subs[t].lease.row.(startedAt := Some(s.subs[t].lease.now)))
      && var z := fails.value;
         && z == s.(subs := z.subs) && OnlySubmission(s, z, t)
         && z.subs[t].lease.row == s.subs[t].lease.row && z.subs[t].work == s.subs[t].work
         && z.subs[t].pendingPath == s.subs[t].pendingPath && z.subs[t].placementPath == s.subs[t].placementPath
         && z.subs[t].lease.live[id].rolledBack && z.subs[t].lease.live[id].startedAt == s.subs[t].lease.now
  {
  }
}
