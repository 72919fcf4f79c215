/** What the review actions of module Review do: when each of them goes through,
    its whole effect, and what is left of it in every later state. */
module ReviewEffects {
  import opened Common
  import opened Review

  // ------------------------------------------------------------------ who holds what

  // The action has locked this row of temporary_data,
  predicate AtRow(me: Session, tid: nat) {
    (me.RowHeld? || me.ClientHeld? || me.Ready?) && me.tid == tid
  }

  // this client,
  predicate AtClient(me: Session, client: nat) {
    || ((me.ClientHeld? || me.Ready?) && me.row.client == Some(client))
    || (me.DocReady? && me.doc.client == client)
  }

  // this document.
  predicate AtDocument(me: Session, d: nat) {
    (me.Ready? && me.mode == Replace(d)) || ((me.DocHeld? || me.DocReady?) && me.d == d)
  }

  ghost predicate RowHeldBy(s: State, tid: nat, sid: nat) {
    sid in s.sessions && AtRow(s.sessions[sid], tid)
  }

  ghost predicate ClientHeldBy(s: State, client: nat, sid: nat) {
    sid in s.sessions && AtClient(s.sessions[sid], client)
  }

  ghost predicate DocumentHeldBy(s: State, d: nat, sid: nat) {
    sid in s.sessions && AtDocument(s.sessions[sid], d)
  }

  // Every lock is held by an action that is at it.
  ghost predicate LocksHeld(s: State) {
    && (forall t :: t in s.rowLocks ==> RowHeldBy(s, t, s.rowLocks[t]))
    && (forall c :: c in s.clientLocks ==> ClientHeldBy(s, c, s.clientLocks[c]))
    && (forall d :: d in s.docLocks ==> DocumentHeldBy(s, d, s.docLocks[d]))
  }

  ghost predicate Reached(s: State) {
    Inv(s) && LocksHeld(s)
  }

  ghost predicate RowFree(s: State, tid: nat) {
    forall sid :: !RowHeldBy(s, tid, sid)
  }

  ghost predicate ClientFree(s: State, client: nat) {
    forall sid :: !ClientHeldBy(s, client, sid)
  }

  ghost predicate DocumentFree(s: State, d: nat) {
    forall sid :: !DocumentHeldBy(s, d, sid)
  }

  lemma RowLockMeaning(s: State, tid: nat)
    requires Reached(s)
    ensures tid !in s.rowLocks <==> RowFree(s, tid)
  {
    forall sid | RowHeldBy(s, tid, sid) ensures tid in s.rowLocks { assert SessionOk(s, sid, s.sessions[sid]); }
    assert tid in s.rowLocks ==> RowHeldBy(s, tid, s.rowLocks[tid]);
  }

  lemma ClientLockMeaning(s: State, client: nat)
    requires Reached(s)
    ensures client !in s.clientLocks <==> ClientFree(s, client)
  {
    forall sid | ClientHeldBy(s, client, sid) ensures client in s.clientLocks { assert SessionOk(s, sid, s.sessions[sid]); }
    assert client in s.clientLocks ==> ClientHeldBy(s, client, s.clientLocks[client]);
  }

  lemma DocumentLockMeaning(s: State, d: nat)
    requires Reached(s)
    ensures d !in s.docLocks <==> DocumentFree(s, d)
  {
    forall sid | DocumentHeldBy(s, d, sid) ensures d in s.docLocks { assert SessionOk(s, sid, s.sessions[sid]); }
    assert d in s.docLocks ==> DocumentHeldBy(s, d, s.docLocks[d]);
  }

  // A session that ends or moves on keeps the others' locks.
  lemma OthersHold(s: State, r: State, sid: nat)
    requires LocksHeld(s)
    requires forall x :: x in s.sessions && x != sid ==> x in r.sessions && r.sessions[x] == s.sessions[x]
    requires forall t :: t in r.rowLocks ==> (t in s.rowLocks && r.rowLocks[t] == s.rowLocks[t] != sid) || RowHeldBy(r, t, r.rowLocks[t])
    requires forall c :: c in r.clientLocks ==>
               (c in s.clientLocks && r.clientLocks[c] == s.clientLocks[c] != sid) || ClientHeldBy(r, c, r.clientLocks[c])
    requires forall d :: d in r.docLocks ==> (d in s.docLocks && r.docLocks[d] == s.docLocks[d] != sid) || DocumentHeldBy(r, d, r.docLocks[d])
    ensures LocksHeld(r)
  {
    forall t | t in r.rowLocks ensures RowHeldBy(r, t, r.rowLocks[t]) { assert t in s.rowLocks ==> RowHeldBy(s, t, s.rowLocks[t]); }
    forall c | c in r.clientLocks ensures ClientHeldBy(r, c, r.clientLocks[c]) {
      assert c in s.clientLocks ==> ClientHeldBy(s, c, s.clientLocks[c]);
    }
    forall d | d in r.docLocks ensures DocumentHeldBy(r, d, r.docLocks[d]) {
      assert d in s.docLocks ==> DocumentHeldBy(s, d, s.docLocks[d]);
    }
  }

  lemma LocksClient(s: State, a: Step)
    requires LocksHeld(s) && Apply(s, a).Some? && a.LockClient?
    ensures LocksHeld(Apply(s, a).value)
  {
    var r, sid := Apply(s, a).value, a.sid;
    assert forall t :: t in s.rowLocks ==> RowHeldBy(s, t, s.rowLocks[t]);
    assert forall c :: c in s.clientLocks ==> ClientHeldBy(s, c, s.clientLocks[c]);
    assert forall d :: d in s.docLocks ==> DocumentHeldBy(s, d, s.docLocks[d]);
    OthersHold(s, r, sid);
  }

  lemma LocksTarget(s: State, a: Step)
    requires LocksHeld(s) && Apply(s, a).Some? && a.Recheck?
    ensures LocksHeld(Apply(s, a).value)
  {
    var r, sid := Apply(s, a).value, a.sid;
    assert forall t :: t in s.rowLocks ==> RowHeldBy(s, t, s.rowLocks[t]);
    assert forall c :: c in s.clientLocks ==> ClientHeldBy(s, c, s.clientLocks[c]);
    assert forall d :: d in s.docLocks ==> DocumentHeldBy(s, d, s.docLocks[d]);
    OthersHold(s, r, sid);
  }

  lemma LocksRow(s: State, a: Step)
    requires LocksHeld(s) && Apply(s, a).Some? && (a.Open? || a.LockRow?)
    ensures LocksHeld(Apply(s, a).value)
  {
    var r, sid := Apply(s, a).value, a.sid;
    assert forall t :: t in s.rowLocks ==> RowHeldBy(s, t, s.rowLocks[t]);
    assert forall c :: c in s.clientLocks ==> ClientHeldBy(s, c, s.clientLocks[c]);
    assert forall d :: d in s.docLocks ==> DocumentHeldBy(s, d, s.docLocks[d]);
    OthersHold(s, r, sid);
  }

  lemma LocksDocument(s: State, a: Step)
    requires LocksHeld(s) && Apply(s, a).Some?
    requires a.OpenDocument? || a.LockDocument? || a.RecheckDocument?
    ensures LocksHeld(Apply(s, a).value)
  {
    var r, sid := Apply(s, a).value, a.sid;
    assert forall t :: t in s.rowLocks ==> RowHeldBy(s, t, s.rowLocks[t]);
    assert forall c :: c in s.clientLocks ==> ClientHeldBy(s, c, s.clientLocks[c]);
    assert forall d :: d in s.docLocks ==> DocumentHeldBy(s, d, s.docLocks[d]);
    OthersHold(s, r, sid);
  }

  lemma ClosesOwn(s: State, after: Db, sid: nat)
    requires LocksHeld(s)
    ensures LocksHeld(Close(s.(db := after), sid))
  {
    OthersHold(s, Close(s.(db := after), sid), sid);
  }

  lemma StepKeepsReached(s: State, a: Step)
    requires Reached(s) && Apply(s, a).Some?
    ensures Reached(Apply(s, a).value)
  {
    StepKeepsInv(s, a);
    var r := Apply(s, a).value;
    match a
    case Open(_, _, _, _) => LocksRow(s, a);
    case LockRow(_) => LocksRow(s, a);
    case LockClient(_) => LocksClient(s, a);
    case Recheck(_) => LocksTarget(s, a);
    case OpenDocument(_, _, _) => LocksDocument(s, a);
    case LockDocument(_) => LocksDocument(s, a);
    case RecheckDocument(_) => LocksDocument(s, a);
    case Commit(sid) => ClosesOwn(s, r.db, sid);
    case CommitDocument(sid) => ClosesOwn(s, r.db, sid);
    case Abort(sid) => ClosesOwn(s, r.db, sid);
    case _ => SameLocks(s, r);
  }

  lemma SameLocks(s: State, r: State)
    requires LocksHeld(s) && r == s.(db := r.db)
    ensures LocksHeld(r)
  {
    forall t | t in r.rowLocks ensures RowHeldBy(r, t, r.rowLocks[t]) { assert RowHeldBy(s, t, s.rowLocks[t]); }
    forall c | c in r.clientLocks ensures ClientHeldBy(r, c, r.clientLocks[c]) { assert ClientHeldBy(s, c, s.clientLocks[c]); }
    forall d | d in r.docLocks ensures DocumentHeldBy(r, d, r.docLocks[d]) { assert DocumentHeldBy(s, d, s.docLocks[d]); }
  }

  lemma {:induction false} RunKeepsReached(s: State, steps: seq<Step>)
    requires Reached(s)
    ensures Exec(s, steps).Some? ==> Reached(Exec(s, steps).value)
    decreases |steps|
  {
    if steps != [] && Apply(s, steps[0]).Some? {
      StepKeepsReached(s, steps[0]);
      RunKeepsReached(Apply(s, steps[0]).value, steps[1..]);
    }
  }

  // Main result: in every run each lock belongs to an action that is still at
  // the row, client or document it locked.
  lemma NoLockIsLeft(clients: set<nat>, steps: seq<Step>)
    ensures Exec(Start(clients), steps).Some? ==> Reached(Exec(Start(clients), steps).value)
  {
    RunKeepsReached(Start(clients), steps);
  }

  // ------------------------------------------------------------------ no deadlock

  // The action's next step waits for a lock that another action holds.
  ghost predicate Blocked(s: State, sid: nat)
    requires sid in s.sessions
  {
    match s.sessions[sid]
    case Opened(tid, _, _, _, _) => !RowFree(s, tid)
    case RowHeld(_, _, _, _, row) => row.client.Some? && !ClientFree(s, row.client.value)
    case ClientHeld(_, mode, _, _, row) =>
      mode.Replace? && row.client.Some? && IsCurrent(s.db.docs, row.client.value, mode.target, row.kind) && !DocumentFree(s, mode.target)
    case DocOpened(d, _) => !DocumentFree(s, d)
    case DocHeld(_, _, doc) => !ClientFree(s, doc.client)
    case _ => false
  }

  // A current document is locked only by the replacement that holds its client.
  lemma CurrentIsFree(s: State, client: nat, d: nat, kind: Kind, sid: nat)
    requires SessionsOk(s) && IsCurrent(s.db.docs, client, d, kind) && DocumentHeldBy(s, d, sid)
    ensures s.sessions[sid].Ready? && HoldsClient(s, sid, client)
  {
    assert SessionOk(s, sid, s.sessions[sid]);
  }

  lemma TargetIsFree(s: State, client: nat, d: nat, kind: Kind)
    requires Reached(s) && IsCurrent(s.db.docs, client, d, kind)
    requires client in s.clientLocks ==> s.sessions[s.clientLocks[client]].ClientHeld?
    ensures DocumentFree(s, d)
  {
    forall sid | DocumentHeldBy(s, d, sid) ensures false {
      CurrentIsFree(s, client, d, kind, sid);
    }
  }

  lemma ClientHolderMoves(s: State, client: nat, sid: nat)
    requires Reached(s) && ClientHeldBy(s, client, sid)
    ensures !Blocked(s, sid)
  {
    var me := s.sessions[sid];
    assert SessionOk(s, sid, me);
    if me.ClientHeld? && me.mode.Replace? && IsCurrent(s.db.docs, client, me.mode.target, me.row.kind) {
      TargetIsFree(s, client, me.mode.target, me.row.kind);
    }
  }

  lemma RowHolderMoves(s: State, tid: nat, sid: nat) returns (x: nat)
    requires Reached(s) && RowHeldBy(s, tid, sid)
    ensures x in s.sessions && !Blocked(s, x)
  {
    var me := s.sessions[sid];
    x := sid;
    if me.RowHeld? {
      if Blocked(s, sid) {
        var g :| ClientHeldBy(s, me.row.client.value, g);
        ClientHolderMoves(s, me.row.client.value, g);
        x := g;
      }
    } else {
      assert SessionOk(s, sid, me);
      ClientHolderMoves(s, me.row.client.value, sid);
    }
  }

  lemma DocumentHolderMoves(s: State, d: nat, sid: nat) returns (x: nat)
    requires Reached(s) && DocumentHeldBy(s, d, sid)
    ensures x in s.sessions && !Blocked(s, x)
  {
    var me := s.sessions[sid];
    x := sid;
    if me.DocHeld? && Blocked(s, sid) {
      var g :| ClientHeldBy(s, me.doc.client, g);
      ClientHolderMoves(s, me.doc.client, g);
      x := g;
    }
  }

  // Main result: the actions never deadlock. In every reachable state with an
  // action under way, one of them waits for no lock.
  lemma SomebodyMoves(clients: set<nat>, steps: seq<Step>, sid: nat) returns (x: nat)
    requires Exec(Start(clients), steps).Some? && sid in Exec(Start(clients), steps).value.sessions
    ensures
      var s := Exec(Start(clients), steps).value;
      x in s.sessions && !Blocked(s, x)
  {
    NoLockIsLeft(clients, steps);
    var s := Exec(Start(clients), steps).value;
    var me := s.sessions[sid];
    x := sid;
    if Blocked(s, sid) {
      match me
      case Opened(tid, _, _, _, _) =>
        var g :| RowHeldBy(s, tid, g);
        x := RowHolderMoves(s, tid, g);
      case RowHeld(tid, _, _, _, _) => x := RowHolderMoves(s, tid, sid);
      case DocOpened(d, _) =>
        var g :| DocumentHeldBy(s, d, g);
        x := DocumentHolderMoves(s, d, g);
      case DocHeld(d, _, _) => x := DocumentHolderMoves(s, d, sid);
      case ClientHeld(_, _, _, _, row) =>
        assert SessionOk(s, sid, me);
        ClientHolderMoves(s, row.client.value, sid);
    }
  }

  // ------------------------------------------------------------------ a commit's effect

  ghost predicate OnlyRow(a: Db, b: Db, tid: nat) {
    b.rows.Keys == a.rows.Keys && forall t :: t in a.rows && t != tid ==> b.rows[t] == a.rows[t]
  }

  ghost predicate OnlyDocument(a: Db, b: Db, d: nat) {
    b.docs.Keys == a.docs.Keys && forall e :: e in a.docs && e != d ==> b.docs[e] == a.docs[e]
  }

  // The file waits no longer; a stored file is not failed and no duplicate.
  ghost predicate RowResolved(a: Db, b: Db, tid: nat, mode: Mode) {
    && tid in a.rows && OnlyRow(a, b, tid)
    && var (x, y) := (a.rows[tid], b.rows[tid]);
       && y.pendingPath.None? && y.client == x.client && y.kind == x.kind && y.sha == x.sha
       && (if mode.Version? then y.failed == x.failed && y.duplicate == x.duplicate else !y.failed && !y.duplicate)
  }

  ghost predicate Supersedes(a: Db, b: Db, t: nat) {
    t in a.docs && a.docs[t].status == Verified && t in b.docs && b.docs[t] == a.docs[t].(status := Superseded)
  }

  // Its document is the only new one, and the replacement's target the only
  // one that changed.
  ghost predicate DocumentAdded(a: Db, b: Db, row: Row, mode: Mode, date: Option<int>) {
    && a.nextDoc !in a.docs && b.docs.Keys == a.docs.Keys + {a.nextDoc} && b.nextDoc == a.nextDoc + 1
    && (forall d :: d in a.docs && mode != Replace(d) ==> b.docs[d] == a.docs[d])
    && (mode.Replace? ==> Supersedes(a, b, mode.target))
    && var doc := b.docs[a.nextDoc];
       && row.client == Some(doc.client) && doc.kind == row.kind && doc.sha == row.sha
       && (if mode.Version? then doc.status == ReviewRequired && doc.policeDate.None? else doc.status == Verified && doc.policeDate == date)
  }

  // The entry names the action, both documents, the client and the type.
  ghost predicate DecisionLogged(a: Db, b: Db, row: Row, mode: Mode) {
    && |b.audit| == |a.audit| + 1 && b.audit[..|a.audit|] == a.audit
    && var e := b.audit[|a.audit|];
       && e.document == Some(a.nextDoc) && e.client == row.client && e.kind == row.kind
       && match mode
          case Approve => e.action == APPROVE && e.previous.None?
          case Replace(t) => e.action == REPLACE_VERIFIED && e.previous == Some(t)
          case Version => e.action == KEEP_AS_VERSION && e.previous.None?
  }

  ghost predicate Resolved(a: Db, b: Db, tid: nat, mode: Mode, date: Option<int>) {
    && RowResolved(a, b, tid, mode) && DocumentAdded(a, b, a.rows[tid], mode, date) && DecisionLogged(a, b, a.rows[tid], mode)
    && b.clients == a.clients
  }

  // Only the locks of this action are gone.
  ghost predicate Freed(before: map<nat, nat>, after: map<nat, nat>, sid: nat) {
    && (forall k :: k in after <==> k in before && before[k] != sid)
    && (forall k :: k in after ==> after[k] == before[k])
  }

  // The action is over, and the others are where they were.
  ghost predicate Ended(s: State, t: State, sid: nat) {
    && t.sessions.Keys == s.sessions.Keys - {sid} && (forall x :: x in t.sessions ==> t.sessions[x] == s.sessions[x])
    && Freed(s.rowLocks, t.rowLocks, sid) && Freed(s.clientLocks, t.clientLocks, sid) && Freed(s.docLocks, t.docLocks, sid)
  }

  lemma CommitRow(s: State, sid: nat)
    requires Inv(s) && Apply(s, Commit(sid)).Some?
    ensures
      var me := s.sessions[sid];
      && me.tid in s.db.rows && s.db.rows[me.tid] == me.row
      && RowResolved(s.db, Apply(s, Commit(sid)).value.db, me.tid, me.mode)
  {
    assert SessionOk(s, sid, s.sessions[sid]);
  }

  lemma CommitAdds(s: State, sid: nat)
    requires Inv(s) && Apply(s, Commit(sid)).Some?
    ensures
      var me := s.sessions[sid];
      DocumentAdded(s.db, Apply(s, Commit(sid)).value.db, me.row, me.mode, me.date)
  {
    var me := s.sessions[sid];
    assert SessionOk(s, sid, me);
    var b := Apply(s, Commit(sid)).value.db;
    assert b.docs.Keys == s.db.docs.Keys + {s.db.nextDoc};
  }

  // Main result: all that a commit does.
  lemma CommitMeaning(s: State, sid: nat)
    requires Inv(s) && Apply(s, Commit(sid)).Some?
    ensures
      var me, t := s.sessions[sid], Apply(s, Commit(sid)).value;
      Resolved(s.db, t.db, me.tid, me.mode, me.date) && Ended(s, t, sid)
  {
    CommitRow(s, sid);
    CommitAdds(s, sid);
  }

  lemma AbortMeaning(s: State, sid: nat)
    ensures Apply(s, Abort(sid)).Some? <==> sid in s.sessions
    ensures sid in s.sessions ==> Apply(s, Abort(sid)).value.db == s.db && Ended(s, Apply(s, Abort(sid)).value, sid)
  {
  }

  // ------------------------------------------------------------------ an approval nobody disturbs

  ghost predicate Stored(db: Db, client: nat, kind: Kind) {
    exists d :: d in db.docs && db.docs[d].client == client && db.docs[d].kind == kind && db.docs[d].status == Verified
  }

  // The decision is right for what is stored and waiting.
  ghost predicate Approvable(db: Db, tid: nat, mode: Mode, given: Option<int>) {
    && tid in db.rows && db.rows[tid].pendingPath.Some? && db.rows[tid].client.Some?
    && var row, client := db.rows[tid], db.rows[tid].client.value;
       && client in db.clients && row.kind != Unknown
       && (forall d :: d in db.docs ==> !(db.docs[d].client == client && db.docs[d].sha == row.sha))
       && (mode.Version? || (given.Some? <==> row.kind == PoliceSlip))
       && match mode
          case Approve => !Stored(db, client, row.kind)
          case Replace(t) => t in db.docs && db.docs[t].client == client && db.docs[t].kind == row.kind && db.docs[t].status == Verified
          case Version => Stored(db, client, row.kind)
  }

  // What is refused before anything is locked.
  lemma OpenMeaning(s: State, sid: nat, tid: nat, mode: Mode, given: Option<int>)
    requires sid !in s.sessions
    ensures Apply(s, Open(sid, tid, mode, given)).Some? <==>
      && tid in s.db.rows && s.db.rows[tid].pendingPath.Some?
      && var row := s.db.rows[tid];
         && row.kind != Unknown && (mode.Version? || (given.Some? <==> row.kind == PoliceSlip))
         && !(row.duplicate && exists d :: d in s.db.docs && row.client == Some(s.db.docs[d].client) && s.db.docs[d].sha == row.sha)
         && (mode.Approve? ==> row.client.Some? && !Stored(s.db, row.client.value, row.kind))
         && (mode.Version? ==> row.client.Some? && Stored(s.db, row.client.value, row.kind))
  {
    if tid in s.db.rows && s.db.rows[tid].client.Some? {
      var client, kind := s.db.rows[tid].client.value, s.db.rows[tid].kind;
      assert Stored(s.db, client, kind) <==> HasVerified(s.db.docs, client, kind);
    }
  }

  function DateFor(mode: Mode, given: Option<int>): Option<int> {
    if mode.Version? then None else given
  }

  function Entering(sid: nat, tid: nat, mode: Mode, given: Option<int>, rest: seq<Step>): seq<Step> {
    [Open(sid, tid, mode, given)] + ([LockRow(sid)] + ([LockClient(sid)] + rest))
  }

  function Leaving(sid: nat): seq<Step> {
    [Recheck(sid)] + ([Commit(sid)] + [])
  }

  // What can be seen before the re-check.
  ghost predicate Admissible(db: Db, tid: nat, mode: Mode, given: Option<int>) {
    MayOpen(db, tid, mode, given) && db.rows[tid].client.Some? && db.rows[tid].client.value in db.clients
  }

  ghost predicate Entered(s: State, u: State, sid: nat, tid: nat, mode: Mode, given: Option<int>)
    requires tid in s.db.rows && s.db.rows[tid].client.Some?
  {
    var row := s.db.rows[tid];
    u == s.(sessions := s.sessions[sid := ClientHeld(tid, mode, row.kind, DateFor(mode, given), row)],
            rowLocks := s.rowLocks[tid := sid], clientLocks := s.clientLocks[row.client.value := sid])
  }

  lemma NoneNow(s: State, a: Step, rest: seq<Step>)
    requires Apply(s, a).None?
    ensures Exec(s, [a] + rest).None?
  {
  }

  lemma TwoSessions(sessions: map<nat, Session>, sid: nat, a: Session, b: Session)
    ensures sessions[sid := a][sid := b] == sessions[sid := b]
  {
  }

  lemma Enters(s: State, sid: nat, tid: nat, mode: Mode, given: Option<int>, rest: seq<Step>) returns (u: State)
    requires sid !in s.sessions && Admissible(s.db, tid, mode, given)
    requires tid !in s.rowLocks && s.db.rows[tid].client.value !in s.clientLocks
    ensures Exec(s, Entering(sid, tid, mode, given, rest)) == Exec(u, rest) && Entered(s, u, sid, tid, mode, given)
  {
    var row, date := s.db.rows[tid], DateFor(mode, given);
    var s1 := Apply(s, Open(sid, tid, mode, given)).value;
    ExecOne(s, Open(sid, tid, mode, given), [LockRow(sid)] + ([LockClient(sid)] + rest));
    assert s1.sessions == s.sessions[sid := Opened(tid, mode, row.kind, date, row.pendingPath.value)];
    var s2 := Apply(s1, LockRow(sid)).value;
    ExecOne(s1, LockRow(sid), [LockClient(sid)] + rest);
    TwoSessions(s.sessions, sid, s1.sessions[sid], RowHeld(tid, mode, row.kind, date, row));
    u := Apply(s2, LockClient(sid)).value;
    ExecOne(s2, LockClient(sid), rest);
    TwoSessions(s.sessions, sid, s2.sessions[sid], ClientHeld(tid, mode, row.kind, date, row));
  }

  lemma CannotEnter(s: State, sid: nat, tid: nat, mode: Mode, given: Option<int>, rest: seq<Step>)
    requires !Admissible(s.db, tid, mode, given)
    ensures Exec(s, Entering(sid, tid, mode, given, rest)).None?
  {
    if Apply(s, Open(sid, tid, mode, given)).None? {
      NoneNow(s, Open(sid, tid, mode, given), [LockRow(sid)] + ([LockClient(sid)] + rest));
    } else {
      var s1 := Apply(s, Open(sid, tid, mode, given)).value;
      ExecOne(s, Open(sid, tid, mode, given), [LockRow(sid)] + ([LockClient(sid)] + rest));
      if Apply(s1, LockRow(sid)).None? {
        NoneNow(s1, LockRow(sid), [LockClient(sid)] + rest);
      } else {
        ExecOne(s1, LockRow(sid), [LockClient(sid)] + rest);
        NoneNow(Apply(s1, LockRow(sid)).value, LockClient(sid), rest);
      }
    }
  }

  // The checks before the transaction and those under the locks together.
  lemma RecheckMeaning(s: State, u: State, sid: nat, tid: nat, mode: Mode, given: Option<int>)
    requires Reached(s) && Admissible(s.db, tid, mode, given) && Entered(s, u, sid, tid, mode, given)
    requires s.db.rows[tid].client.value !in s.clientLocks
    ensures PassesRecheck(u, mode, s.db.rows[tid]) <==> Approvable(s.db, tid, mode, given)
  {
    var row := s.db.rows[tid];
    if mode.Replace? && IsCurrent(s.db.docs, row.client.value, mode.target, row.kind) {
      TargetIsFree(s, row.client.value, mode.target, row.kind);
      DocumentLockMeaning(s, mode.target);
    }
  }

  lemma ApprovableIsAdmissible(db: Db, tid: nat, mode: Mode, given: Option<int>)
    requires Approvable(db, tid, mode, given)
    ensures Admissible(db, tid, mode, given)
  {
  }

  lemma Commits(s: State, u: State, sid: nat, tid: nat, mode: Mode, given: Option<int>) returns (w: State)
    requires tid in s.db.rows && s.db.rows[tid].client.Some? && Entered(s, u, sid, tid, mode, given)
    requires PassesRecheck(u, mode, s.db.rows[tid])
    ensures Exec(u, Leaving(sid)) == Apply(w, Commit(sid)) && Apply(w, Commit(sid)).Some?
    ensures Apply(u, Recheck(sid)) == Some(w) && w.db == s.db && w.rowLocks == u.rowLocks && w.clientLocks == u.clientLocks
    ensures w.docLocks == (if mode.Replace? then s.docLocks[mode.target := sid] else s.docLocks)
    ensures w.sessions == s.sessions[sid := Ready(tid, mode, s.db.rows[tid].kind, DateFor(mode, given), s.db.rows[tid])]
  {
    w := Apply(u, Recheck(sid)).value;
    ExecOne(u, Recheck(sid), [Commit(sid)] + []);
    ExecOne(w, Commit(sid), []);
    TwoSessions(s.sessions, sid, u.sessions[sid], w.sessions[sid]);
  }

  lemma CannotCommit(u: State, sid: nat)
    requires sid in u.sessions && u.sessions[sid].ClientHeld? && !PassesRecheck(u, u.sessions[sid].mode, u.sessions[sid].row)
    ensures Exec(u, Leaving(sid)).None?
  {
    NoneNow(u, Recheck(sid), [Commit(sid)] + []);
  }

  lemma LockedAndFreed(locks: map<nat, nat>, during: map<nat, nat>, after: map<nat, nat>, key: nat, sid: nat)
    requires forall k :: k in locks ==> locks[k] != sid
    requires during == locks || (key !in locks && during == locks[key := sid])
    requires Freed(during, after, sid)
    ensures after == locks
  {
  }

  lemma OnlyLiveLocks(s: State, sid: nat)
    requires LocksHeld(s) && sid !in s.sessions
    ensures forall k :: k in s.rowLocks ==> s.rowLocks[k] != sid
    ensures forall k :: k in s.clientLocks ==> s.clientLocks[k] != sid
    ensures forall k :: k in s.docLocks ==> s.docLocks[k] != sid
  {
    assert forall k :: k in s.rowLocks ==> RowHeldBy(s, k, s.rowLocks[k]);
    assert forall k :: k in s.clientLocks ==> ClientHeldBy(s, k, s.clientLocks[k]);
    assert forall k :: k in s.docLocks ==> DocumentHeldBy(s, k, s.docLocks[k]);
  }

  // Only the database is different afterwards.
  lemma LocksAsBefore(s: State, w: State, t: State, sid: nat, tid: nat, client: nat, d: nat, last: Session)
    requires LocksHeld(s) && sid !in s.sessions && Ended(w, t, sid) && w.sessions == s.sessions[sid := last]
    requires w.rowLocks == s.rowLocks || (tid !in s.rowLocks && w.rowLocks == s.rowLocks[tid := sid])
    requires w.clientLocks == s.clientLocks || (client !in s.clientLocks && w.clientLocks == s.clientLocks[client := sid])
    requires w.docLocks == s.docLocks || (d !in s.docLocks && w.docLocks == s.docLocks[d := sid])
    ensures t == s.(db := t.db)
  {
    OnlyLiveLocks(s, sid);
    LockedAndFreed(s.rowLocks, w.rowLocks, t.rowLocks, tid, sid);
    LockedAndFreed(s.clientLocks, w.clientLocks, t.clientLocks, client, sid);
    LockedAndFreed(s.docLocks, w.docLocks, t.docLocks, d, sid);
    assert t.sessions == s.sessions;
  }

  lemma EnteringIsReached(s: State, u: State, sid: nat, tid: nat, mode: Mode, given: Option<int>)
    requires Reached(s) && sid !in s.sessions && Admissible(s.db, tid, mode, given) && Entered(s, u, sid, tid, mode, given)
    requires tid !in s.rowLocks && s.db.rows[tid].client.value !in s.clientLocks
    ensures Reached(u)
  {
    var x := Enters(s, sid, tid, mode, given, []);
    RunKeepsReached(s, Entering(sid, tid, mode, given, []));
  }

  // Main result: in every reachable state, an action on a waiting file goes
  // through, its row and client being free, if and only if the decision is right
  // for what is stored and waiting; then all of its effect is there, and the
  // locks and the other actions are as before.
  lemma ApprovalMeaning(s: State, sid: nat, tid: nat, mode: Mode, given: Option<int>)
    requires Reached(s) && sid !in s.sessions && RowFree(s, tid)
    requires tid in s.db.rows && s.db.rows[tid].client.Some? ==> ClientFree(s, s.db.rows[tid].client.value)
    ensures
      var after := Exec(s, Entering(sid, tid, mode, given, Leaving(sid)));
      && (after.Some? <==> Approvable(s.db, tid, mode, given))
      && (after.Some? ==> after.value == s.(db := after.value.db) && Resolved(s.db, after.value.db, tid, mode, DateFor(mode, given)))
  {
    if !Admissible(s.db, tid, mode, given) {
      CannotEnter(s, sid, tid, mode, given, Leaving(sid));
      if Approvable(s.db, tid, mode, given) { ApprovableIsAdmissible(s.db, tid, mode, given); }
    } else {
      RowLockMeaning(s, tid);
      ClientLockMeaning(s, s.db.rows[tid].client.value);
      var u := Enters(s, sid, tid, mode, given, Leaving(sid));
      RecheckMeaning(s, u, sid, tid, mode, given);
      if Approvable(s.db, tid, mode, given) {
        EnteringIsReached(s, u, sid, tid, mode, given);
        Resolves(s, u, sid, tid, mode, given);
      } else {
        CannotCommit(u, sid);
      }
    }
  }

  lemma Resolves(s: State, u: State, sid: nat, tid: nat, mode: Mode, given: Option<int>)
    requires Reached(s) && sid !in s.sessions && Approvable(s.db, tid, mode, given) && Entered(s, u, sid, tid, mode, given)
    requires tid !in s.rowLocks && s.db.rows[tid].client.value !in s.clientLocks && PassesRecheck(u, mode, s.db.rows[tid])
    requires Reached(u)
    ensures
      var after := Exec(u, Leaving(sid));
      && after.Some? && after.value == s.(db := after.value.db)
      && Resolved(s.db, after.value.db, tid, mode, DateFor(mode, given))
  {
    var w := Commits(s, u, sid, tid, mode, given);
    StepKeepsReached(u, Recheck(sid));
    CommitMeaning(w, sid);
    LocksAsBefore(s, w, Apply(w, Commit(sid)).value, sid, tid, s.db.rows[tid].client.value,
                  if mode.Replace? then mode.target else 0, w.sessions[sid]);
  }

  // ------------------------------------------------------------------ approval of a stored document

  ghost predicate LoggedAs(a: Db, b: Db, action: Action, document: Option<nat>, client: Option<nat>, kind: Kind) {
    && |b.audit| == |a.audit| + 1 && b.audit[..|a.audit|] == a.audit
    && b.audit[|a.audit|] == Entry(action, document, None, client, kind)
  }

  // Rows, clients and the next ID are as before; of the documents only this
  // one changed, and only its status or date.
  ghost predicate DocumentRevised(a: Db, b: Db, d: nat, status: Status, date: Option<int>) {
    && b.rows == a.rows && b.clients == a.clients && b.nextDoc == a.nextDoc
    && d in a.docs && OnlyDocument(a, b, d)
    && b.docs[d].client == a.docs[d].client && b.docs[d].kind == a.docs[d].kind && b.docs[d].sha == a.docs[d].sha
    && b.docs[d].status == status && b.docs[d].policeDate == date
  }

  ghost predicate DocumentApproved(a: Db, b: Db, d: nat, given: Option<int>) {
    && d in a.docs && a.docs[d].status == ReviewRequired
    && DocumentRevised(a, b, d, Verified, if a.docs[d].policeDate.Some? then a.docs[d].policeDate else given)
    && LoggedAs(a, b, APPROVE, Some(d), Some(a.docs[d].client), a.docs[d].kind)
  }

  ghost predicate DocumentApprovable(db: Db, d: nat, given: Option<int>) {
    && d in db.docs && db.docs[d].status == ReviewRequired && db.docs[d].kind != Unknown
    && !Stored(db, db.docs[d].client, db.docs[d].kind)
    && (if db.docs[d].kind != PoliceSlip then given.None?
        else if db.docs[d].policeDate.Some? then given.None? || given == db.docs[d].policeDate else given.Some?)
  }

  lemma CommitDocumentMeaning(s: State, sid: nat)
    requires Inv(s) && Apply(s, CommitDocument(sid)).Some?
    ensures
      var me, t := s.sessions[sid], Apply(s, CommitDocument(sid)).value;
      && Ended(s, t, sid) && me.d in s.db.docs && s.db.docs[me.d].status == ReviewRequired
      && DocumentRevised(s.db, t.db, me.d, Verified, if me.newDate.Some? then me.newDate else s.db.docs[me.d].policeDate)
      && LoggedAs(s.db, t.db, APPROVE, Some(me.d), Some(s.db.docs[me.d].client), s.db.docs[me.d].kind)
  {
    assert SessionOk(s, sid, s.sessions[sid]);
  }

  function ApprovingDocument(sid: nat, d: nat, given: Option<int>): seq<Step> {
    [OpenDocument(sid, d, given)] + ([LockDocument(sid)] + ([RecheckDocument(sid)] + ([CommitDocument(sid)] + [])))
  }

  lemma DocumentIsHeld(s: State, sid: nat, d: nat, given: Option<int>, rest: seq<Step>) returns (u: State)
    requires sid !in s.sessions && d in s.db.docs && s.db.docs[d].status == ReviewRequired && d !in s.docLocks
    requires PoliceDateForApproval(s.db.docs[d].kind, s.db.docs[d].policeDate, given).Some?
    ensures Exec(s, [OpenDocument(sid, d, given)] + ([LockDocument(sid)] + rest)) == Exec(u, rest)
    ensures u == s.(sessions := s.sessions[sid := DocHeld(d, given, s.db.docs[d])], docLocks := s.docLocks[d := sid])
  {
    var s1 := Apply(s, OpenDocument(sid, d, given)).value;
    ExecOne(s, OpenDocument(sid, d, given), [LockDocument(sid)] + rest);
    u := Apply(s1, LockDocument(sid)).value;
    ExecOne(s1, LockDocument(sid), rest);
    TwoSessions(s.sessions, sid, s1.sessions[sid], DocHeld(d, given, s.db.docs[d]));
  }

  lemma CannotOpenDocument(s: State, sid: nat, d: nat, given: Option<int>)
    requires Apply(s, OpenDocument(sid, d, given)).None?
    ensures Exec(s, ApprovingDocument(sid, d, given)).None?
  {
    NoneNow(s, OpenDocument(sid, d, given), [LockDocument(sid)] + ([RecheckDocument(sid)] + ([CommitDocument(sid)] + [])));
  }

  lemma HeldIsReached(s: State, u: State, sid: nat, d: nat, given: Option<int>)
    requires Reached(s) && sid !in s.sessions && d in s.db.docs && s.db.docs[d].status == ReviewRequired && d !in s.docLocks
    requires PoliceDateForApproval(s.db.docs[d].kind, s.db.docs[d].policeDate, given).Some?
    requires u == s.(sessions := s.sessions[sid := DocHeld(d, given, s.db.docs[d])], docLocks := s.docLocks[d := sid])
    ensures Reached(u)
  {
    var x := DocumentIsHeld(s, sid, d, given, []);
    RunKeepsReached(s, [OpenDocument(sid, d, given)] + ([LockDocument(sid)] + []));
  }

  lemma CannotApproveDocument(s: State, u: State, sid: nat, d: nat, given: Option<int>)
    requires d in s.db.docs && s.db.docs[d].status == ReviewRequired && !DocumentApprovable(s.db, d, given)
    requires u == s.(sessions := s.sessions[sid := DocHeld(d, given, s.db.docs[d])], docLocks := s.docLocks[d := sid])
    ensures Exec(u, [RecheckDocument(sid)] + ([CommitDocument(sid)] + [])).None?
  {
    NoneNow(u, RecheckDocument(sid), [CommitDocument(sid)] + []);
  }

  lemma RechecksDocument(s: State, u: State, sid: nat, d: nat, given: Option<int>)
    returns (w: State, date: Option<int>)
    requires DocumentApprovable(s.db, d, given) && s.db.docs[d].client !in s.clientLocks
    requires u == s.(sessions := s.sessions[sid := DocHeld(d, given, s.db.docs[d])], docLocks := s.docLocks[d := sid])
    ensures Apply(u, RecheckDocument(sid)) == Some(w) && Apply(w, CommitDocument(sid)).Some?
    ensures Exec(u, [RecheckDocument(sid)] + ([CommitDocument(sid)] + [])) == Apply(w, CommitDocument(sid))
    ensures w.db == s.db && w.rowLocks == s.rowLocks && w.docLocks == s.docLocks[d := sid]
    ensures w.clientLocks == s.clientLocks[s.db.docs[d].client := sid]
    ensures w.sessions == s.sessions[sid := DocReady(d, s.db.docs[d], date)]
    ensures (if date.Some? then date else s.db.docs[d].policeDate) == if s.db.docs[d].policeDate.Some? then s.db.docs[d].policeDate else given
  {
    w := Apply(u, RecheckDocument(sid)).value;
    date := w.sessions[sid].newDate;
    ExecOne(u, RecheckDocument(sid), [CommitDocument(sid)] + []);
    ExecOne(w, CommitDocument(sid), []);
    TwoSessions(s.sessions, sid, u.sessions[sid], w.sessions[sid]);
  }

  lemma ApprovesDocument(s: State, u: State, sid: nat, d: nat, given: Option<int>)
    requires Reached(s) && Reached(u) && sid !in s.sessions && DocumentApprovable(s.db, d, given)
    requires d !in s.docLocks && s.db.docs[d].client !in s.clientLocks
    requires u == s.(sessions := s.sessions[sid := DocHeld(d, given, s.db.docs[d])], docLocks := s.docLocks[d := sid])
    ensures
      var after := Exec(u, [RecheckDocument(sid)] + ([CommitDocument(sid)] + []));
      after.Some? && after.value == s.(db := after.value.db) && DocumentApproved(s.db, after.value.db, d, given)
  {
    var w, date := RechecksDocument(s, u, sid, d, given);
    StepKeepsReached(u, RecheckDocument(sid));
    CommitDocumentMeaning(w, sid);
    LocksAsBefore(s, w, Apply(w, CommitDocument(sid)).value, sid, 0, s.db.docs[d].client, d, w.sessions[sid]);
  }

  // Main result: in every reachable state the approval of a stored document,
  // it and its client being free, goes through if and only if it is under
  // review and the client has no VERIFIED document of its type, and the date
  // fits; then that document's status is all that changes, and the date of a
  // slip that had none.
  lemma DocumentApprovalMeaning(s: State, sid: nat, d: nat, given: Option<int>)
    requires Reached(s) && sid !in s.sessions && DocumentFree(s, d)
    requires d in s.db.docs ==> ClientFree(s, s.db.docs[d].client)
    ensures
      var after := Exec(s, ApprovingDocument(sid, d, given));
      && (after.Some? <==> DocumentApprovable(s.db, d, given))
      && (after.Some? ==> after.value == s.(db := after.value.db) && DocumentApproved(s.db, after.value.db, d, given))
  {
    if Apply(s, OpenDocument(sid, d, given)).None? {
      CannotOpenDocument(s, sid, d, given);
    } else {
      DocumentLockMeaning(s, d);
      ClientLockMeaning(s, s.db.docs[d].client);
      var u := DocumentIsHeld(s, sid, d, given, [RecheckDocument(sid)] + ([CommitDocument(sid)] + []));
      if DocumentApprovable(s.db, d, given) {
        HeldIsReached(s, u, sid, d, given);
        ApprovesDocument(s, u, sid, d, given);
      } else {
        CannotApproveDocument(s, u, sid, d, given);
      }
    }
  }

  // ------------------------------------------------------------------ actions of one step

  // Only this row changed, if any did.
  ghost predicate RowRevised(a: Db, b: Db, tid: nat) {
    b.docs == a.docs && b.clients == a.clients && b.nextDoc == a.nextDoc && tid in a.rows && OnlyRow(a, b, tid)
  }

  ghost predicate InReview(db: Db, tid: nat) {
    tid in db.rows && db.rows[tid].pendingPath.Some?
  }

  ghost predicate UnderReview(db: Db, d: nat) {
    d in db.docs && db.docs[d].status == ReviewRequired
  }

  // Keeping a file pending is only noted.
  lemma KeepPendingMeaning(s: State, tid: nat)
    requires Reached(s)
    ensures
      var after := Apply(s, KeepPending(tid));
      && (after.Some? <==> InReview(s.db, tid) && RowFree(s, tid))
      && (after.Some? ==>
            && after.value == s.(db := after.value.db) && after.value.db == s.db.(audit := after.value.db.audit)
            && LoggedAs(s.db, after.value.db, KEEP_PENDING, None, s.db.rows[tid].client, s.db.rows[tid].kind))
  {
    RowLockMeaning(s, tid);
  }

  lemma KeepDocumentPendingMeaning(s: State, d: nat)
    requires Reached(s)
    ensures
      var after := Apply(s, KeepDocumentPending(d));
      && (after.Some? <==> UnderReview(s.db, d) && DocumentFree(s, d))
      && (after.Some? ==>
            && after.value == s.(db := after.value.db) && after.value.db == s.db.(audit := after.value.db.audit)
            && LoggedAs(s.db, after.value.db, KEEP_PENDING, Some(d), Some(s.db.docs[d].client), s.db.docs[d].kind))
  {
    DocumentLockMeaning(s, d);
  }

  // A removed file's row is gone, every other one as it was.
  lemma RemovePendingMeaning(s: State, tid: nat)
    requires Reached(s)
    ensures
      var after := Apply(s, RemovePending(tid));
      && (after.Some? <==> InReview(s.db, tid) && RowFree(s, tid))
      && (after.Some? ==>
            var b := after.value.db;
            && after.value == s.(db := b)
            && b.rows.Keys == s.db.rows.Keys - {tid} && (forall t :: t in b.rows ==> b.rows[t] == s.db.rows[t])
            && b.docs == s.db.docs && b.clients == s.db.clients && b.nextDoc == s.db.nextDoc
            && LoggedAs(s.db, b, REMOVE_FROM_REVIEW, None, s.db.rows[tid].client, s.db.rows[tid].kind))
  {
    RowLockMeaning(s, tid);
  }

  lemma RemoveDocumentMeaning(s: State, d: nat)
    requires Reached(s)
    ensures
      var after := Apply(s, RemoveDocument(d));
      && (after.Some? <==> UnderReview(s.db, d) && DocumentFree(s, d))
      && (after.Some? ==>
            var b := after.value.db;
            && after.value == s.(db := b)
            && b.docs.Keys == s.db.docs.Keys - {d} && (forall e :: e in b.docs ==> b.docs[e] == s.db.docs[e])
            && b.rows == s.db.rows && b.clients == s.db.clients && b.nextDoc == s.db.nextDoc
            && LoggedAs(s.db, b, REMOVE_FROM_REVIEW, Some(d), Some(s.db.docs[d].client), s.db.docs[d].kind))
  {
    DocumentLockMeaning(s, d);
  }

  // Everything else of the row is kept, so it goes on waiting, under its new type.
  lemma SetDocumentTypeMeaning(s: State, tid: nat, kind: Kind)
    requires Reached(s)
    ensures
      var after := Apply(s, SetDocumentType(tid, kind));
      && (after.Some? <==> InReview(s.db, tid) && RowFree(s, tid) && kind != Unknown && kind != s.db.rows[tid].kind)
      && (after.Some? ==>
            var b := after.value.db;
            && after.value == s.(db := b) && RowRevised(s.db, b, tid)
            && b.rows[tid].kind == kind && b.rows[tid].(kind := s.db.rows[tid].kind) == s.db.rows[tid]
            && LoggedAs(s.db, b, SET_DOCUMENT_TYPE, None, s.db.rows[tid].client, kind))
  {
    RowLockMeaning(s, tid);
  }

  lemma AssignClientMeaning(s: State, tid: nat, client: nat)
    requires Reached(s)
    ensures
      var after := Apply(s, AssignClient(tid, client));
      && (after.Some? <==> && InReview(s.db, tid) && RowFree(s, tid) && client in s.db.clients && ClientFree(s, client)
                           && s.db.rows[tid].client != Some(client))
      && (after.Some? ==>
            var b := after.value.db;
            && after.value == s.(db := b) && RowRevised(s.db, b, tid)
            && b.rows[tid].client == Some(client) && b.rows[tid].(client := s.db.rows[tid].client) == s.db.rows[tid]
            && LoggedAs(s.db, b, ASSIGN_CLIENT, None, Some(client), s.db.rows[tid].kind))
  {
    RowLockMeaning(s, tid);
    ClientLockMeaning(s, client);
  }

  // Any stored slip, whatever its status; the status stays.
  lemma SetPoliceDateMeaning(s: State, d: nat, date: int)
    requires Reached(s)
    ensures
      var after := Apply(s, SetPoliceDate(d, date));
      && (after.Some? <==> d in s.db.docs && DocumentFree(s, d) && s.db.docs[d].kind == PoliceSlip && s.db.docs[d].policeDate != Some(date))
      && (after.Some? ==>
            && after.value == s.(db := after.value.db)
            && DocumentRevised(s.db, after.value.db, d, s.db.docs[d].status, Some(date))
            && LoggedAs(s.db, after.value.db, SET_POLICE_DATE, Some(d), Some(s.db.docs[d].client), PoliceSlip))
  {
    DocumentLockMeaning(s, d);
  }

  // A failed submission starts afresh: what was found out about it is forgotten,
  // its file is kept.
  lemma RetryProcessingMeaning(s: State, tid: nat)
    requires Reached(s)
    ensures
      var after := Apply(s, RetryProcessing(tid));
      && (after.Some? <==> tid in s.db.rows && s.db.rows[tid].failed && !InReview(s.db, tid) && RowFree(s, tid))
      && (after.Some? ==>
            var b, row := after.value.db, after.value.db.rows[tid];
            && after.value == s.(db := b) && RowRevised(s.db, b, tid)
            && !row.failed && !row.duplicate && row.client.None? && row.kind == Unknown
            && row.sha == s.db.rows[tid].sha && row.pendingPath.None?
            && LoggedAs(s.db, b, RETRY_PROCESSING, None, s.db.rows[tid].client, s.db.rows[tid].kind))
  {
    RowLockMeaning(s, tid);
  }

  // The worker's result reaches a row that is not in review, and nothing else.
  lemma WorkerPendingMeaning(s: State, tid: nat, row: Row)
    requires Reached(s)
    ensures
      var after := Apply(s, WorkerPending(tid, row));
      && (after.Some? <==> !InReview(s.db, tid) && RowFree(s, tid))
      && (after.Some? ==>
            var b := after.value.db;
            && after.value == s.(db := b) && b == s.db.(rows := b.rows)
            && b.rows.Keys == s.db.rows.Keys + {tid} && b.rows[tid] == row
            && forall t :: t in s.db.rows && t != tid ==> b.rows[t] == s.db.rows[t])
  {
    RowLockMeaning(s, tid);
  }

  lemma WorkerStoreMeaning(s: State, client: nat, kind: Kind, sha: nat, clear: bool, date: int)
    requires Reached(s)
    ensures
      var after := Apply(s, WorkerStore(client, kind, sha, clear, date));
      && (after.Some? <==>
            && client in s.db.clients && ClientFree(s, client) && kind != Unknown && !Stored(s.db, client, kind)
            && forall d :: d in s.db.docs ==> !(s.db.docs[d].client == client && s.db.docs[d].sha == sha))
      && (after.Some? ==>
            var b, n := after.value.db, s.db.nextDoc;
            && after.value == s.(db := b) && b.rows == s.db.rows && b.clients == s.db.clients && b.audit == s.db.audit
            && n !in s.db.docs && b.docs.Keys == s.db.docs.Keys + {n} && b.nextDoc == n + 1
            && (forall d :: d in s.db.docs ==> b.docs[d] == s.db.docs[d])
            && b.docs[n].client == client && b.docs[n].kind == kind && b.docs[n].sha == sha
            && (b.docs[n].status == if clear then Verified else ReviewRequired)
            && (b.docs[n].policeDate == if kind == PoliceSlip then Some(date) else None))
  {
    ClientLockMeaning(s, client);
    assert Stored(s.db, client, kind) <==> HasVerified(s.db.docs, client, kind);
  }

  // ------------------------------------------------------------------ every file once

  function One(b: bool): nat {
    if b then 1 else 0
  }

  // The worker puts the row's file into review,
  predicate Arrives(a: Step, tid: nat) {
    a.WorkerPending? && a.tid == tid && a.row.pendingPath.Some?
  }

  // and a decision or a removal ends its review.
  predicate Leaves(s: State, a: Step, tid: nat) {
    || a == RemovePending(tid)
    || (a.Commit? && a.sid in s.sessions && s.sessions[a.sid].Ready? && s.sessions[a.sid].tid == tid)
  }

  function Arrivals(steps: seq<Step>, tid: nat): nat {
    if steps == [] then 0 else One(Arrives(steps[0], tid)) + Arrivals(steps[1..], tid)
  }

  function Departures(s: State, steps: seq<Step>, tid: nat): nat
    decreases |steps|
  {
    if steps == [] || Apply(s, steps[0]).None? then 0
    else One(Leaves(s, steps[0], tid)) + Departures(Apply(s, steps[0]).value, steps[1..], tid)
  }

  lemma CommitConservesFile(s: State, sid: nat, tid: nat)
    requires Inv(s) && Apply(s, Commit(sid)).Some?
    ensures One(Waiting(s.db, tid)) == One(Waiting(Apply(s, Commit(sid)).value.db, tid)) + One(Leaves(s, Commit(sid), tid))
  {
    CommitRow(s, sid);
    assert SessionOk(s, sid, s.sessions[sid]);
  }

  lemma StepConservesFile(s: State, a: Step, tid: nat)
    requires Inv(s) && Apply(s, a).Some?
    ensures One(Waiting(s.db, tid)) + One(Arrives(a, tid)) == One(Waiting(Apply(s, a).value.db, tid)) + One(Leaves(s, a, tid))
  {
    if a.Commit? {
      CommitConservesFile(s, a.sid, tid);
    } else if a.CommitDocument? || a.Abort? {
      assert Apply(s, a).value.db.rows == s.db.rows;
    }
  }

  lemma {:induction false} RunConservesFile(s: State, steps: seq<Step>, tid: nat)
    requires Inv(s) && Exec(s, steps).Some?
    ensures One(Waiting(s.db, tid)) + Arrivals(steps, tid) == One(Waiting(Exec(s, steps).value.db, tid)) + Departures(s, steps, tid)
    decreases |steps|
  {
    if steps != [] {
      StepConservesFile(s, steps[0], tid);
      StepKeepsInv(s, steps[0]);
      RunConservesFile(Apply(s, steps[0]).value, steps[1..], tid);
    }
  }

  // Main result: in every run, each time a row's file arrives in review it leaves
  // once, by one decision or one removal, or still waits; it is never decided
  // twice, and no other step ends its waiting.
  lemma FileIsDecidedOnce(clients: set<nat>, steps: seq<Step>, tid: nat)
    requires Exec(Start(clients), steps).Some?
    ensures Arrivals(steps, tid) == Departures(Start(clients), steps, tid) + One(Waiting(Exec(Start(clients), steps).value.db, tid))
  {
    RunConservesFile(Start(clients), steps, tid);
  }

  // ------------------------------------------------------------------ every document once

  predicate Creates(a: Step) {
    a.Commit? || a.WorkerStore?
  }

  function Count(steps: seq<Step>, which: Step -> bool): nat {
    if steps == [] then 0 else One(which(steps[0])) + Count(steps[1..], which)
  }

  lemma OneMore(a: map<nat, Document>, b: map<nat, Document>, n: nat)
    requires n !in a && b.Keys == a.Keys + {n}
    ensures |b| == |a| + 1
  {
    assert |b| == |b.Keys| && |a| == |a.Keys|;
  }

  lemma SameSize(a: map<nat, Document>, b: map<nat, Document>)
    requires b.Keys == a.Keys
    ensures |b| == |a|
  {
    assert |b| == |b.Keys| && |a| == |a.Keys|;
  }

  lemma StepConservesDocuments(s: State, a: Step)
    requires Inv(s) && Apply(s, a).Some?
    ensures |s.db.docs| + One(Creates(a)) == |Apply(s, a).value.db.docs| + One(a.RemoveDocument?)
  {
    var b := Apply(s, a).value.db;
    if Creates(a) {
      NewDocument(s, a);
      OneMore(s.db.docs, b.docs, s.db.nextDoc);
    } else if a.RemoveDocument? {
      assert b.docs.Keys + {a.d} == s.db.docs.Keys;
      OneMore(b.docs, s.db.docs, a.d);
    } else {
      OldDocuments(s, a);
      SameSize(s.db.docs, b.docs);
    }
  }

  lemma NewDocument(s: State, a: Step)
    requires Inv(s) && Apply(s, a).Some? && Creates(a)
    ensures s.db.nextDoc !in s.db.docs && Apply(s, a).value.db.docs.Keys == s.db.docs.Keys + {s.db.nextDoc}
  {
    if a.Commit? {
      CommitAdds(s, a.sid);
    }
  }

  lemma OldDocuments(s: State, a: Step)
    requires Inv(s) && Apply(s, a).Some? && !Creates(a) && !a.RemoveDocument?
    ensures Apply(s, a).value.db.docs.Keys == s.db.docs.Keys
  {
    if a.CommitDocument? {
      CommitDocumentMeaning(s, a.sid);
    }
  }

  lemma {:induction false} RunConservesDocuments(s: State, steps: seq<Step>)
    requires Inv(s) && Exec(s, steps).Some?
    ensures |s.db.docs| + Count(steps, Creates) == |Exec(s, steps).value.db.docs| + Count(steps, (a: Step) => a.RemoveDocument?)
    decreases |steps|
  {
    if steps != [] {
      StepConservesDocuments(s, steps[0]);
      StepKeepsInv(s, steps[0]);
      RunConservesDocuments(Apply(s, steps[0]).value, steps[1..]);
    }
  }

  // Main result: in every run a document is created by a commit or by the
  // worker, one each time, and disappears by a removal only.
  lemma DocumentsAreConserved(clients: set<nat>, steps: seq<Step>)
    requires Exec(Start(clients), steps).Some?
    ensures Count(steps, Creates) == |Exec(Start(clients), steps).value.db.docs| + Count(steps, (a: Step) => a.RemoveDocument?)
  {
    RunConservesDocuments(Start(clients), steps);
  }

  // ------------------------------------------------------------------ the log tells the truth

  // What an entry says about the documents it names.
  ghost predicate EntryTrue(db: Db, e: Entry) {
    && (e.document.Some? ==>
          && e.document.value < db.nextDoc
          && (e.document.value in db.docs ==>
                e.client == Some(db.docs[e.document.value].client) && e.kind == db.docs[e.document.value].kind))
    && (e.action in {APPROVE, REPLACE_VERIFIED} ==>
          e.document.Some? && e.document.value in db.docs && db.docs[e.document.value].status != ReviewRequired)
    && (e.action == REMOVE_FROM_REVIEW && e.document.Some? ==> e.document.value !in db.docs)
    && (e.previous.Some? <==> e.action == REPLACE_VERIFIED)
    && (e.previous.Some? ==>
          && e.previous.value in db.docs && db.docs[e.previous.value].status == Superseded
          && e.client == Some(db.docs[e.previous.value].client) && e.kind == db.docs[e.previous.value].kind)
  }

  ghost predicate LogTrue(db: Db) {
    forall i :: 0 <= i < |db.audit| ==> EntryTrue(db, db.audit[i])
  }

  lemma EntryStaysTrue(a: Db, b: Db, e: Entry)
    requires EntryTrue(a, e) && Forward(a, b)
    ensures EntryTrue(b, e)
  {
  }

  lemma LogStaysTrue(a: Db, b: Db, entries: seq<Entry>)
    requires LogTrue(a) && Forward(a, b) && b.audit == a.audit + entries
    requires forall e :: e in entries ==> EntryTrue(b, e)
    ensures LogTrue(b)
  {
    forall i | 0 <= i < |b.audit| ensures EntryTrue(b, b.audit[i]) {
      if i < |a.audit| {
        EntryStaysTrue(a, b, a.audit[i]);
      } else {
        assert b.audit[i] == entries[i - |a.audit|];
      }
    }
  }

  lemma CommitEntryTrue(s: State, sid: nat)
    requires Inv(s) && Apply(s, Commit(sid)).Some?
    ensures
      var a, b := s.db, Apply(s, Commit(sid)).value.db;
      |b.audit| == |a.audit| + 1 && b.audit[..|a.audit|] == a.audit && EntryTrue(b, b.audit[|a.audit|])
  {
    CommitMeaning(s, sid);
    var me := s.sessions[sid];
    assert SessionOk(s, sid, me);
  }

  // The entry of an action in one step.
  lemma NewEntryTrue(s: State, a: Step)
    requires Inv(s) && Apply(s, a).Some? && TakesEffect(a) && !a.Commit?
    ensures
      var b := Apply(s, a).value.db;
      |b.audit| == |s.db.audit| + 1 && b.audit[..|s.db.audit|] == s.db.audit && EntryTrue(b, b.audit[|s.db.audit|])
  {
    if a.CommitDocument? {
      CommitDocumentMeaning(s, a.sid);
    }
  }

  lemma StepKeepsLogTrue(s: State, a: Step)
    requires Inv(s) && LogTrue(s.db) && Apply(s, a).Some?
    ensures LogTrue(Apply(s, a).value.db)
  {
    StepKeepsInv(s, a);
    OneEntryPerAction(s, a);
    var b := Apply(s, a).value.db;
    if TakesEffect(a) {
      if a.Commit? { CommitEntryTrue(s, a.sid); } else { NewEntryTrue(s, a); }
      assert b.audit == s.db.audit + [b.audit[|s.db.audit|]];
      LogStaysTrue(s.db, b, [b.audit[|s.db.audit|]]);
    } else {
      LogStaysTrue(s.db, b, []);
    }
  }

  lemma {:induction false} RunKeepsLogTrue(s: State, steps: seq<Step>)
    requires Inv(s) && LogTrue(s.db)
    ensures Exec(s, steps).Some? ==> LogTrue(Exec(s, steps).value.db)
    decreases |steps|
  {
    if steps != [] && Apply(s, steps[0]).Some? {
      StepKeepsInv(s, steps[0]);
      StepKeepsLogTrue(s, steps[0]);
      RunKeepsLogTrue(Apply(s, steps[0]).value, steps[1..]);
    }
  }

  // Main result: in every run what the log says is true then and later: an
  // entry's client and type are those of the document it names, an approved
  // document is VERIFIED or was replaced, a replaced one is SUPERSEDED, and a
  // removed one never comes back.
  lemma LogIsTrueInEveryRun(clients: set<nat>, steps: seq<Step>)
    ensures Exec(Start(clients), steps).Some? ==> LogTrue(Exec(Start(clients), steps).value.db)
  {
    RunKeepsLogTrue(Start(clients), steps);
  }

  // ------------------------------------------------------------------ a requirement's status

  // A replaced document has a successor.
  ghost predicate SupersededHaveSuccessors(db: Db) {
    forall d :: d in db.docs && db.docs[d].status == Superseded ==> HasVerified(db.docs, db.docs[d].client, db.docs[d].kind)
  }

  lemma StepKeepsSuccessors(s: State, a: Step)
    requires Inv(s) && SupersededHaveSuccessors(s.db) && Apply(s, a).Some?
    ensures SupersededHaveSuccessors(Apply(s, a).value.db)
  {
    StepKeepsInv(s, a);
    var b := Apply(s, a).value.db;
    forall d | d in b.docs && b.docs[d].status == Superseded ensures HasVerified(b.docs, b.docs[d].client, b.docs[d].kind) {
      OnlyVerifiedAreReplaced(s, a, d);
      assert HasVerified(s.db.docs, s.db.docs[d].client, s.db.docs[d].kind);
    }
  }

  lemma OnlyVerifiedAreReplaced(s: State, a: Step, d: nat)
    requires Inv(s) && Apply(s, a).Some? && d in Apply(s, a).value.db.docs && Apply(s, a).value.db.docs[d].status == Superseded
    ensures d in s.db.docs && s.db.docs[d].status in {Superseded, Verified}
  {
    if a.Commit? {
      CommitAdds(s, a.sid);
    } else if a.CommitDocument? {
      CommitDocumentMeaning(s, a.sid);
    }
  }

  lemma {:induction false} RunKeepsSuccessors(s: State, steps: seq<Step>)
    requires Inv(s) && SupersededHaveSuccessors(s.db)
    ensures Exec(s, steps).Some? ==> SupersededHaveSuccessors(Exec(s, steps).value.db)
    decreases |steps|
  {
    if steps != [] && Apply(s, steps[0]).Some? {
      StepKeepsInv(s, steps[0]);
      StepKeepsSuccessors(s, steps[0]);
      RunKeepsSuccessors(Apply(s, steps[0]).value, steps[1..]);
    }
  }

  ghost predicate AnyStored(db: Db, client: nat, kind: Kind) {
    exists d :: d in db.docs && db.docs[d].client == client && db.docs[d].kind == kind
  }

  ghost predicate AnyWaiting(db: Db, client: nat, kind: Kind) {
    exists t :: t in db.rows && db.rows[t].client == Some(client) && db.rows[t].kind == kind && db.rows[t].pendingPath.Some?
  }

  lemma VerifiedCount(db: Db, client: nat, kind: Kind)
    ensures Stored(db, client, kind) <==>
      |set d | d in db.docs && db.docs[d].client == client && db.docs[d].kind == kind && db.docs[d].status == Verified| > 0
  {
    var verified := set d | d in db.docs && db.docs[d].client == client && db.docs[d].kind == kind && db.docs[d].status == Verified;
    if Stored(db, client, kind) {
      var d :| d in db.docs && db.docs[d].client == client && db.docs[d].kind == kind && db.docs[d].status == Verified;
      assert d in verified;
    } else {
      assert verified == {};
    }
  }

  lemma StoredCount(db: Db, client: nat, kind: Kind)
    ensures AnyStored(db, client, kind) <==> |set d | d in db.docs && db.docs[d].client == client && db.docs[d].kind == kind| > 0
  {
    var stored := set d | d in db.docs && db.docs[d].client == client && db.docs[d].kind == kind;
    if AnyStored(db, client, kind) {
      var d :| d in db.docs && db.docs[d].client == client && db.docs[d].kind == kind;
      assert d in stored;
    } else {
      assert stored == {};
    }
  }

  lemma WaitingCount(db: Db, client: nat, kind: Kind)
    ensures AnyWaiting(db, client, kind) <==>
      |set t | t in db.rows && db.rows[t].client == Some(client) && db.rows[t].kind == kind && db.rows[t].pendingPath.Some?| > 0
  {
    var pending := set t | t in db.rows && db.rows[t].client == Some(client) && db.rows[t].kind == kind && db.rows[t].pendingPath.Some?;
    if AnyWaiting(db, client, kind) {
      var t :| t in db.rows && db.rows[t].client == Some(client) && db.rows[t].kind == kind && db.rows[t].pendingPath.Some?;
      assert t in pending;
    } else {
      assert pending == {};
    }
  }

  lemma StatusByExistence(db: Db, client: nat, kind: Kind)
    ensures StatusOf(db, client, kind) ==
      if Stored(db, client, kind) then VERIFIED
      else if AnyStored(db, client, kind) then REVIEW_REQUIRED
      else if AnyWaiting(db, client, kind) then PENDING_REVIEW else MISSING
  {
    VerifiedCount(db, client, kind);
    StoredCount(db, client, kind);
    WaitingCount(db, client, kind);
  }

  ghost predicate StoredForReview(db: Db, client: nat, kind: Kind) {
    exists d :: d in db.docs && db.docs[d].client == client && db.docs[d].kind == kind && db.docs[d].status == ReviewRequired
  }

  // Main result: in every reachable state a requirement's status is what its
  // documentation says. REVIEW_REQUIRED means stored, but only as
  // REVIEW_REQUIRED, although the code counts SUPERSEDED documents as well.
  lemma RequirementMeaning(clients: set<nat>, steps: seq<Step>, client: nat, kind: Kind)
    requires Exec(Start(clients), steps).Some?
    ensures
      var db := Exec(Start(clients), steps).value.db;
      && (StatusOf(db, client, kind) == VERIFIED <==> Stored(db, client, kind))
      && (StatusOf(db, client, kind) == REVIEW_REQUIRED <==> !Stored(db, client, kind) && StoredForReview(db, client, kind))
      && (StatusOf(db, client, kind) == PENDING_REVIEW <==> !AnyStored(db, client, kind) && AnyWaiting(db, client, kind))
      && (StatusOf(db, client, kind) == MISSING <==> !AnyStored(db, client, kind) && !AnyWaiting(db, client, kind))
  {
    var db := Exec(Start(clients), steps).value.db;
    StatusByExistence(db, client, kind);
    RunKeepsSuccessors(Start(clients), steps);
    if AnyStored(db, client, kind) && !Stored(db, client, kind) {
      var d :| d in db.docs && db.docs[d].client == client && db.docs[d].kind == kind;
      assert db.docs[d].status == ReviewRequired;
    }
  }
}
