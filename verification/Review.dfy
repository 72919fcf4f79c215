/** The review actions of the admins (src/services/adminReviewActionService.js,
    src/services/adminCorrectionService.js), many of them at once. An action
    first reads outside any lock, then opens a transaction that locks its row,
    re-reads it, locks the client's users row, checks again and commits; the
    steps of different admins and of the worker interleave anywhere. */
module Review {
  import opened Common

  datatype Kind = Passport | PoliceSlip | PoliceReport | Medical | Unknown

  datatype Status = ReviewRequired | Verified | Superseded

  datatype Document = Document(client: nat, kind: Kind, status: Status, sha: nat, policeDate: Option<int>)

  // A temporary_data row, as far as review looks at it.
  datatype Row = Row(client: Option<nat>, kind: Kind, sha: nat, pendingPath: Option<nat>, failed: bool, duplicate: bool)

  datatype Action = APPROVE | REPLACE_VERIFIED | KEEP_AS_VERSION | KEEP_PENDING | REMOVE_FROM_REVIEW
                  | SET_DOCUMENT_TYPE | ASSIGN_CLIENT | SET_POLICE_DATE | RETRY_PROCESSING

  // An audit_logs entry; `previous` is the document a replacement superseded.
  datatype Entry = Entry(action: Action, document: Option<nat>, previous: Option<nat>, client: Option<nat>, kind: Kind)

  datatype Db = Db(rows: map<nat, Row>, docs: map<nat, Document>, clients: set<nat>, audit: seq<Entry>, nextDoc: nat)

  // What an action on a waiting file does.
  datatype Mode = Approve | Replace(target: nat) | Version

  // Where an admin's multi-step action stands. `before` is the row's type as it
  // was read before the transaction; `date` is the submitted date worked out from it.
  datatype Session =
    | Opened(tid: nat, mode: Mode, before: Kind, date: Option<int>, path: nat)
    | RowHeld(tid: nat, mode: Mode, before: Kind, date: Option<int>, row: Row)
    | ClientHeld(tid: nat, mode: Mode, before: Kind, date: Option<int>, row: Row)
    | Ready(tid: nat, mode: Mode, before: Kind, date: Option<int>, row: Row)
    | DocOpened(d: nat, given: Option<int>)
    | DocHeld(d: nat, given: Option<int>, doc: Document)
    | DocReady(d: nat, doc: Document, newDate: Option<int>)

  datatype State = State(
    db: Db, sessions: map<nat, Session>,
    rowLocks: map<nat, nat>, docLocks: map<nat, nat>, clientLocks: map<nat, nat>)

  datatype Step =
    // an action on a waiting file
    | Open(sid: nat, tid: nat, mode: Mode, given: Option<int>)
    | LockRow(sid: nat)
    | LockClient(sid: nat)
    | Recheck(sid: nat)
    | Commit(sid: nat)
    // approval of a stored document
    | OpenDocument(sid: nat, d: nat, given: Option<int>)
    | LockDocument(sid: nat)
    | RecheckDocument(sid: nat)
    | CommitDocument(sid: nat)
    | Abort(sid: nat)
    // actions that lock one row and commit
    | KeepPending(tid: nat)
    | KeepDocumentPending(d: nat)
    | RemovePending(tid: nat)
    | RemoveDocument(d: nat)
    | SetDocumentType(tid: nat, kind: Kind)
    | AssignClient(tid: nat, client: nat)
    | SetPoliceDate(d: nat, date: int)
    | RetryProcessing(tid: nat)
    // the worker
    | WorkerPending(tid: nat, row: Row)
    | WorkerStore(client: nat, kind: Kind, sha: nat, clear: bool, date: int)

  // ------------------------------------------------------------------ reads

  predicate HasFolder(kind: Kind) {
    kind != Unknown
  }

  // The client's current documents: the VERIFIED ones, with their types.
  function Current(docs: map<nat, Document>, client: nat): map<nat, Kind> {
    map d | d in docs && docs[d].client == client && docs[d].status == Verified :: docs[d].kind
  }

  predicate IsCurrent(docs: map<nat, Document>, client: nat, t: nat, kind: Kind) {
    t in Current(docs, client) && Current(docs, client)[t] == kind
  }

  // findVerifiedOfType
  predicate HasVerified(docs: map<nat, Document>, client: nat, kind: Kind) {
    exists d :: d in docs && docs[d].client == client && docs[d].status == Verified && docs[d].kind == kind
  }

  predicate HasFile(docs: map<nat, Document>, client: nat, sha: nat) {
    exists d :: d in docs && docs[d].client == client && docs[d].sha == sha
  }

  // policeDateForApproval: None is a refusal.
  function PoliceDateForApproval(kind: Kind, stored: Option<int>, given: Option<int>): Option<Option<int>> {
    if kind != PoliceSlip then (if given.Some? then None else Some(None))
    else if stored.Some? then (if given.Some? && given != stored then None else Some(stored))
    else if given.None? then None
    else Some(given)
  }

  predicate Waiting(db: Db, tid: nat) {
    tid in db.rows && db.rows[tid].pendingPath.Some?
  }

  // The checks an action makes before its transaction, on what it reads then.
  predicate MayOpen(db: Db, tid: nat, mode: Mode, given: Option<int>) {
    && Waiting(db, tid)
    && var row := db.rows[tid];
       && HasFolder(row.kind)
       && !(row.duplicate && row.client.Some? && HasFile(db.docs, row.client.value, row.sha))
       && (mode.Version? || PoliceDateForApproval(row.kind, None, given).Some?)
       && (mode.Approve? ==> row.client.Some? && !HasVerified(db.docs, row.client.value, row.kind))
       && (mode.Version? ==> row.client.Some? && HasVerified(db.docs, row.client.value, row.kind))
  }

  // The checks repeated while the row and the client are locked.
  predicate PassesRecheck(s: State, mode: Mode, row: Row) {
    && row.client.Some? && HasFolder(row.kind) && !HasFile(s.db.docs, row.client.value, row.sha)
    && match mode
       case Approve => !HasVerified(s.db.docs, row.client.value, row.kind)
       case Replace(t) => t !in s.docLocks && IsCurrent(s.db.docs, row.client.value, t, row.kind)
       case Version => HasVerified(s.db.docs, row.client.value, row.kind)
  }

  // ------------------------------------------------------------------ writes

  function Without(locks: map<nat, nat>, sid: nat): map<nat, nat> {
    map k | k in locks && locks[k] != sid :: locks[k]
  }

  // The transaction ends: its locks are gone, the action is over.
  function Close(s: State, sid: nat): State {
    s.(sessions := s.sessions - {sid},
       rowLocks := Without(s.rowLocks, sid), docLocks := Without(s.docLocks, sid), clientLocks := Without(s.clientLocks, sid))
  }

  function ActionOf(mode: Mode): Action {
    match mode case Approve => APPROVE case Replace(_) => REPLACE_VERIFIED case Version => KEEP_AS_VERSION
  }

  function CommitDb(db: Db, tid: nat, mode: Mode, date: Option<int>, row: Row, client: nat): Db {
    var stored := if mode.Version? then Document(client, row.kind, ReviewRequired, row.sha, None)
                  else Document(client, row.kind, Verified, row.sha, date);
    var kept := match mode
      case Replace(t) => if t in db.docs then db.docs[t := db.docs[t].(status := Superseded)] else db.docs
      case _ => db.docs;
    var previous := if mode.Replace? then Some(mode.target) else None;
    db.(rows := db.rows[tid := row.(pendingPath := None, failed := mode.Version? && row.failed,
                                    duplicate := mode.Version? && row.duplicate)],
        docs := kept[db.nextDoc := stored],
        audit := db.audit + [Entry(ActionOf(mode), Some(db.nextDoc), previous, Some(client), row.kind)],
        nextDoc := db.nextDoc + 1)
  }

  function Note(db: Db, action: Action, document: Option<nat>, client: Option<nat>, kind: Kind): Db {
    db.(audit := db.audit + [Entry(action, document, None, client, kind)])
  }

  function Apply(s: State, a: Step): Option<State> {
    match a
    case Open(sid, tid, mode, given) =>
      if sid in s.sessions || !MayOpen(s.db, tid, mode, given) then None
      else
        var row := s.db.rows[tid];
        var date := if mode.Version? then None else PoliceDateForApproval(row.kind, None, given).value;
        Some(s.(sessions := s.sessions[sid := Opened(tid, mode, row.kind, date, row.pendingPath.value)]))
    case LockRow(sid) =>
      if sid !in s.sessions || !s.sessions[sid].Opened? then None
      else
        var me := s.sessions[sid];
        if me.tid in s.rowLocks || !Waiting(s.db, me.tid) || s.db.rows[me.tid].pendingPath != Some(me.path) then None
        else Some(s.(sessions := s.sessions[sid := RowHeld(me.tid, me.mode, me.before, me.date, s.db.rows[me.tid])],
                     rowLocks := s.rowLocks[me.tid := sid]))
    case LockClient(sid) =>
      if sid !in s.sessions || !s.sessions[sid].RowHeld? then None
      else
        var me := s.sessions[sid];
        if me.row.client.None? || me.row.client.value !in s.db.clients || me.row.client.value in s.clientLocks then None
        else Some(s.(sessions := s.sessions[sid := ClientHeld(me.tid, me.mode, me.before, me.date, me.row)],
                     clientLocks := s.clientLocks[me.row.client.value := sid]))
    case Recheck(sid) =>
      if sid !in s.sessions || !s.sessions[sid].ClientHeld? || !PassesRecheck(s, s.sessions[sid].mode, s.sessions[sid].row) then None
      else
        var me := s.sessions[sid];
        Some(s.(sessions := s.sessions[sid := Ready(me.tid, me.mode, me.before, me.date, me.row)],
                docLocks := if me.mode.Replace? then s.docLocks[me.mode.target := sid] else s.docLocks))
    case Commit(sid) =>
      if sid !in s.sessions || !s.sessions[sid].Ready? || s.sessions[sid].row.client.None? then None
      else
        var me := s.sessions[sid];
        if HasFile(s.db.docs, me.row.client.value, me.row.sha) then None  // unique (client, checksum)
        else Some(Close(s.(db := CommitDb(s.db, me.tid, me.mode, me.date, me.row, me.row.client.value)), sid))
    case OpenDocument(sid, d, given) =>
      if sid in s.sessions || d !in s.db.docs || s.db.docs[d].status != ReviewRequired
         || PoliceDateForApproval(s.db.docs[d].kind, s.db.docs[d].policeDate, given).None? then None
      else Some(s.(sessions := s.sessions[sid := DocOpened(d, given)]))
    case LockDocument(sid) =>
      if sid !in s.sessions || !s.sessions[sid].DocOpened? then None
      else
        var me := s.sessions[sid];
        if me.d in s.docLocks || me.d !in s.db.docs || s.db.docs[me.d].status != ReviewRequired then None
        else Some(s.(sessions := s.sessions[sid := DocHeld(me.d, me.given, s.db.docs[me.d])], docLocks := s.docLocks[me.d := sid]))
    case RecheckDocument(sid) =>
      if sid !in s.sessions || !s.sessions[sid].DocHeld? then None
      else
        var me := s.sessions[sid];
        var date := PoliceDateForApproval(me.doc.kind, me.doc.policeDate, me.given);
        if me.doc.client in s.clientLocks || HasVerified(s.db.docs, me.doc.client, me.doc.kind)
           || !HasFolder(me.doc.kind) || date.None? then None
        else Some(s.(sessions := s.sessions[sid := DocReady(me.d, me.doc, date.value)],
                     clientLocks := s.clientLocks[me.doc.client := sid]))
    case CommitDocument(sid) =>
      if sid !in s.sessions || !s.sessions[sid].DocReady? then None
      else
        var me := s.sessions[sid];
        var doc := me.doc.(status := Verified, policeDate := if me.newDate.Some? then me.newDate else me.doc.policeDate);
        Some(Close(s.(db := Note(s.db.(docs := s.db.docs[me.d := doc]), APPROVE, Some(me.d), Some(doc.client), doc.kind)), sid))
    case Abort(sid) =>
      if sid !in s.sessions then None else Some(Close(s, sid))
    case KeepPending(tid) =>
      if tid in s.rowLocks || !Waiting(s.db, tid) then None
      else Some(s.(db := Note(s.db, KEEP_PENDING, None, s.db.rows[tid].client, s.db.rows[tid].kind)))
    case KeepDocumentPending(d) =>
      if d in s.docLocks || d !in s.db.docs || s.db.docs[d].status != ReviewRequired then None
      else Some(s.(db := Note(s.db, KEEP_PENDING, Some(d), Some(s.db.docs[d].client), s.db.docs[d].kind)))
    case RemovePending(tid) =>
      if tid in s.rowLocks || !Waiting(s.db, tid) then None
      else
        var row := s.db.rows[tid];
        Some(s.(db := Note(s.db.(rows := s.db.rows - {tid}), REMOVE_FROM_REVIEW, None, row.client, row.kind)))
    case RemoveDocument(d) =>
      if d in s.docLocks || d !in s.db.docs || s.db.docs[d].status != ReviewRequired then None
      else
        var doc := s.db.docs[d];
        Some(s.(db := Note(s.db.(docs := s.db.docs - {d}), REMOVE_FROM_REVIEW, Some(d), Some(doc.client), doc.kind)))
    case SetDocumentType(tid, kind) =>
      if tid in s.rowLocks || !Waiting(s.db, tid) || s.db.rows[tid].kind == kind || kind == Unknown then None
      else
        var row := s.db.rows[tid].(kind := kind);
        Some(s.(db := Note(s.db.(rows := s.db.rows[tid := row]), SET_DOCUMENT_TYPE, None, row.client, kind)))
    case AssignClient(tid, client) =>
      if tid in s.rowLocks || !Waiting(s.db, tid) || s.db.rows[tid].client == Some(client)
         || client !in s.db.clients || client in s.clientLocks then None
      else
        var row := s.db.rows[tid].(client := Some(client));
        Some(s.(db := Note(s.db.(rows := s.db.rows[tid := row]), ASSIGN_CLIENT, None, row.client, row.kind)))
    case SetPoliceDate(d, date) =>
      if d in s.docLocks || d !in s.db.docs || s.db.docs[d].kind != PoliceSlip || s.db.docs[d].policeDate == Some(date) then None
      else
        var doc := s.db.docs[d].(policeDate := Some(date));
        Some(s.(db := Note(s.db.(docs := s.db.docs[d := doc]), SET_POLICE_DATE, Some(d), Some(doc.client), PoliceSlip)))
    case RetryProcessing(tid) =>
      if tid in s.rowLocks || tid !in s.db.rows || !s.db.rows[tid].failed || s.db.rows[tid].pendingPath.Some? then None
      else
        var row := s.db.rows[tid];
        var again := row.(failed := false, duplicate := false, client := None, kind := Unknown);
        Some(s.(db := Note(s.db.(rows := s.db.rows[tid := again]), RETRY_PROCESSING, None, row.client, row.kind)))
    case WorkerPending(tid, row) =>
      // The worker writes its result on a row that is not (or no longer) in review.
      if tid in s.rowLocks || Waiting(s.db, tid) then None
      else Some(s.(db := s.db.(rows := s.db.rows[tid := row])))
    case WorkerStore(client, kind, sha, clear, date) =>
      // A documents insert waits for the client's row (foreign key). The check
      // for a VERIFIED document of the type and the insert are one step.
      if client !in s.db.clients || client in s.clientLocks || !HasFolder(kind)
         || HasFile(s.db.docs, client, sha) || HasVerified(s.db.docs, client, kind) then None
      else
        var doc := Document(client, kind, if clear then Verified else ReviewRequired, sha, if kind == PoliceSlip then Some(date) else None);
        Some(s.(db := s.db.(docs := s.db.docs[s.db.nextDoc := doc], nextDoc := s.db.nextDoc + 1)))
  }

  function Exec(s: State, steps: seq<Step>): Option<State>
    decreases |steps|
  {
    if steps == [] then Some(s)
    else match Apply(s, steps[0])
      case None => None
      case Some(next) => Exec(next, steps[1..])
  }

  function Start(clients: set<nat>): State {
    State(Db(map[], map[], clients, [], 0), map[], map[], map[], map[])
  }

  // ------------------------------------------------------------------ properties

  // Never two VERIFIED documents of one type for one client.
  ghost predicate Single(docs: map<nat, Document>) {
    forall d, e ::
      (d in docs && e in docs && docs[d].status == Verified && docs[e].status == Verified
       && docs[d].client == docs[e].client && docs[d].kind == docs[e].kind) ==> d == e
  }

  ghost predicate OneCurrent(db: Db) {
    Single(db.docs)
  }

  // At most one approval ever wins for a client and type, and at most one
  // replacement for each document that was current.
  ghost predicate OneWinner(db: Db) {
    && (forall i, j ::
          (0 <= i < j < |db.audit| && db.audit[i].action == APPROVE && db.audit[j].action == APPROVE
           && db.audit[i].client == db.audit[j].client) ==> db.audit[i].kind != db.audit[j].kind)
    && (forall i, j ::
          (0 <= i < j < |db.audit| && db.audit[i].previous.Some?) ==> db.audit[i].previous != db.audit[j].previous)
  }

  // An approved type stays VERIFIED; a replaced document stays SUPERSEDED.
  ghost predicate AuditTrue(db: Db) {
    && (forall i :: 0 <= i < |db.audit| && db.audit[i].action == APPROVE ==>
          db.audit[i].client.Some? && HasVerified(db.docs, db.audit[i].client.value, db.audit[i].kind))
    && (forall i :: 0 <= i < |db.audit| && db.audit[i].previous.Some? ==>
          db.audit[i].previous.value in db.docs && db.docs[db.audit[i].previous.value].status == Superseded)
  }

  function Rank(status: Status): nat {
    match status case ReviewRequired => 0 case Verified => 1 case Superseded => 2
  }

  // What one step may do to the documents: statuses only move forward, only
  // REVIEW_REQUIRED rows disappear, and a VERIFIED type stays VERIFIED.
  ghost predicate Forward(before: Db, after: Db) {
    && (forall d :: d in before.docs && d !in after.docs ==> before.docs[d].status == ReviewRequired)
    && (forall d :: d in before.docs && d in after.docs ==>
          && Rank(before.docs[d].status) <= Rank(after.docs[d].status)
          && after.docs[d].client == before.docs[d].client && after.docs[d].kind == before.docs[d].kind)
    && (forall client, kind :: HasVerified(before.docs, client, kind) ==> HasVerified(after.docs, client, kind))
    && before.nextDoc <= after.nextDoc
    && (forall d :: d in after.docs && d !in before.docs ==> before.nextDoc <= d)
  }

  // ------------------------------------------------------------------ invariant

  ghost predicate HoldsRow(s: State, sid: nat, tid: nat, row: Row) {
    tid in s.rowLocks && s.rowLocks[tid] == sid && tid in s.db.rows && s.db.rows[tid] == row && row.pendingPath.Some?
  }

  ghost predicate HoldsClient(s: State, sid: nat, client: nat) {
    client in s.clientLocks && s.clientLocks[client] == sid
  }

  ghost predicate HoldsDocument(s: State, sid: nat, d: nat) {
    d in s.docLocks && s.docLocks[d] == sid
  }

  // The date belongs to the type that was read: a slip has one, nothing else does.
  ghost predicate DateKnown(mode: Mode, before: Kind, date: Option<int>) {
    mode.Version? || (date.Some? <==> before == PoliceSlip)
  }

  ghost predicate SessionOk(s: State, sid: nat, me: Session) {
    match me
    case Opened(_, mode, before, date, _) => DateKnown(mode, before, date)
    case RowHeld(tid, mode, before, date, row) => DateKnown(mode, before, date) && HoldsRow(s, sid, tid, row)
    case ClientHeld(tid, mode, before, date, row) =>
      && DateKnown(mode, before, date) && HoldsRow(s, sid, tid, row) && row.client.Some? && HoldsClient(s, sid, row.client.value)
    case Ready(tid, mode, before, date, row) =>
      && DateKnown(mode, before, date) && HoldsRow(s, sid, tid, row) && row.client.Some? && HoldsClient(s, sid, row.client.value)
      && (match mode
          case Approve => row.kind !in Current(s.db.docs, row.client.value).Values
          case Replace(t) => HoldsDocument(s, sid, t) && IsCurrent(s.db.docs, row.client.value, t, row.kind)
          case Version => true)
    case DocOpened(_, _) => true
    case DocHeld(d, _, doc) => HoldsDocument(s, sid, d) && d in s.db.docs && s.db.docs[d] == doc && doc.status == ReviewRequired
    case DocReady(d, doc, newDate) =>
      && (doc.kind == PoliceSlip <==> newDate.Some?)
      && HoldsDocument(s, sid, d) && d in s.db.docs && s.db.docs[d] == doc && doc.status == ReviewRequired
      && HoldsClient(s, sid, doc.client) && doc.kind !in Current(s.db.docs, doc.client).Values
  }

  ghost predicate SessionsOk(s: State) {
    forall sid :: sid in s.sessions ==> SessionOk(s, sid, s.sessions[sid])
  }

  ghost predicate DbOk(db: Db) {
    && OneCurrent(db) && OneWinner(db) && AuditTrue(db)
    && (forall d :: d in db.docs ==> d < db.nextDoc)
  }

  ghost predicate Inv(s: State) {
    SessionsOk(s) && DbOk(s.db)
  }

  lemma CurrentValues(docs: map<nat, Document>, client: nat, kind: Kind)
    ensures HasVerified(docs, client, kind) <==> kind in Current(docs, client).Values
  {
    if HasVerified(docs, client, kind) {
      var d :| d in docs && docs[d].client == client && docs[d].status == Verified && docs[d].kind == kind;
      assert d in Current(docs, client);
    }
  }

  // A change of the database leaves every session's knowledge true when it
  // respects the locks of all sessions but `except`.
  ghost predicate Respects(s: State, after: Db, except: Option<nat>) {
    && (forall t :: t in s.rowLocks && Some(s.rowLocks[t]) != except && t in s.db.rows ==> t in after.rows && after.rows[t] == s.db.rows[t])
    && (forall d :: d in s.docLocks && Some(s.docLocks[d]) != except && d in s.db.docs ==> d in after.docs && after.docs[d] == s.db.docs[d])
    && (forall c :: c in s.clientLocks && Some(s.clientLocks[c]) != except ==> Current(after.docs, c) == Current(s.db.docs, c))
  }

  lemma ChangeKeepsSessions(s: State, after: Db)
    requires SessionsOk(s) && Respects(s, after, None)
    ensures SessionsOk(s.(db := after))
  {
    forall sid | sid in s.sessions ensures SessionOk(s.(db := after), sid, s.sessions[sid]) {
      assert SessionOk(s, sid, s.sessions[sid]);
    }
  }

  lemma CloseKeepsSessions(s: State, after: Db, me: nat)
    requires SessionsOk(s) && Respects(s, after, Some(me))
    ensures SessionsOk(Close(s.(db := after), me))
  {
    var r := Close(s.(db := after), me);
    forall sid | sid in r.sessions ensures SessionOk(r, sid, r.sessions[sid]) {
      assert SessionOk(s, sid, s.sessions[sid]);
    }
  }

  // ------------------------------------------------------------------ each step

  // A session moves on, taking locks nobody holds: the others know what they knew.
  lemma OthersKnow(s: State, r: State, sid: nat)
    requires SessionsOk(s) && r.db == s.db
    requires r.sessions.Keys <= s.sessions.Keys + {sid} && (forall k :: k in r.sessions && k != sid ==> r.sessions[k] == s.sessions[k])
    requires forall t :: t in s.rowLocks ==> t in r.rowLocks && r.rowLocks[t] == s.rowLocks[t]
    requires forall d :: d in s.docLocks ==> d in r.docLocks && r.docLocks[d] == s.docLocks[d]
    requires forall c :: c in s.clientLocks ==> c in r.clientLocks && r.clientLocks[c] == s.clientLocks[c]
    requires sid in r.sessions ==> SessionOk(r, sid, r.sessions[sid])
    ensures SessionsOk(r)
  {
    forall k | k in r.sessions && k != sid ensures SessionOk(r, k, r.sessions[k]) {
      assert SessionOk(s, k, s.sessions[k]);
    }
  }

  lemma LockingKeepsInv(s: State, a: Step)
    requires Inv(s) && Apply(s, a).Some?
    requires a.Open? || a.LockRow? || a.LockClient? || a.OpenDocument? || a.LockDocument? || a.Abort?
    ensures Inv(Apply(s, a).value) && Apply(s, a).value.db == s.db
  {
    if a.Abort? {
      CloseKeepsSessions(s, s.db, a.sid);
    } else {
      var r := Apply(s, a).value;
      if !a.Open? && !a.OpenDocument? { assert SessionOk(s, a.sid, s.sessions[a.sid]); }
      OthersKnow(s, r, a.sid);
    }
  }

  lemma RecheckKeepsInv(s: State, a: Step)
    requires Inv(s) && Apply(s, a).Some? && (a.Recheck? || a.RecheckDocument?)
    ensures Inv(Apply(s, a).value) && Apply(s, a).value.db == s.db
  {
    assert SessionOk(s, a.sid, s.sessions[a.sid]);
    if a.Recheck? {
      CurrentValues(s.db.docs, s.sessions[a.sid].row.client.value, s.sessions[a.sid].row.kind);
    } else {
      CurrentValues(s.db.docs, s.sessions[a.sid].doc.client, s.sessions[a.sid].doc.kind);
    }
    OthersKnow(s, Apply(s, a).value, a.sid);
  }

  // A database change that only moves documents forward and appends one entry
  // that says what it did.
  lemma AppendKeepsDb(db: Db, after: Db, entry: Entry)
    requires DbOk(db) && Forward(db, after) && OneCurrent(after) && after.audit == db.audit + [entry]
    requires forall d :: d in after.docs ==> d < after.nextDoc
    requires entry.action == APPROVE ==>
               entry.client.Some? && HasVerified(after.docs, entry.client.value, entry.kind) && !HasVerified(db.docs, entry.client.value, entry.kind)
    requires entry.previous.Some? ==>
               var t := entry.previous.value;
               t in db.docs && db.docs[t].status == Verified && t in after.docs && after.docs[t].status == Superseded
    ensures DbOk(after)
  {
    var n := |db.audit|;
    forall i | 0 <= i < |after.audit|
      ensures after.audit[i] == if i < n then db.audit[i] else entry
    {}
    forall i | 0 <= i < n && db.audit[i].previous.Some?
      ensures db.audit[i].previous != entry.previous
      ensures db.audit[i].previous.value in after.docs && after.docs[db.audit[i].previous.value].status == Superseded
    {}
    forall i | 0 <= i < n && db.audit[i].action == APPROVE && entry.action == APPROVE && db.audit[i].client == entry.client
      ensures db.audit[i].kind != entry.kind
    {}
  }

  // The same documents and rows of other kinds: only the audit log grows.
  lemma NoteKeepsDb(db: Db, after: Db, entry: Entry)
    requires DbOk(db) && after.docs == db.docs && after.nextDoc == db.nextDoc && after.audit == db.audit + [entry]
    requires entry.action != APPROVE && entry.previous.None?
    ensures DbOk(after) && Forward(db, after)
  {
    AppendKeepsDb(db, after, entry);
  }

  lemma RowStepKeepsInv(s: State, a: Step)
    requires Inv(s) && Apply(s, a).Some?
    requires a.KeepPending? || a.KeepDocumentPending? || a.RemovePending? || a.SetDocumentType? || a.AssignClient? || a.RetryProcessing?
    ensures Inv(Apply(s, a).value) && Forward(s.db, Apply(s, a).value.db)
    ensures |Apply(s, a).value.db.audit| == |s.db.audit| + 1
  {
    var after := Apply(s, a).value.db;
    ChangeKeepsSessions(s, after);
    NoteKeepsDb(s.db, after, after.audit[|s.db.audit|]);
  }

  lemma WorkerPendingKeepsInv(s: State, a: Step)
    requires Inv(s) && Apply(s, a).Some? && a.WorkerPending?
    ensures Inv(Apply(s, a).value) && Forward(s.db, Apply(s, a).value.db)
  {
    ChangeKeepsSessions(s, Apply(s, a).value.db);
  }

  lemma RemoveDocumentKeepsInv(s: State, d: nat)
    requires Inv(s) && Apply(s, RemoveDocument(d)).Some?
    ensures Inv(Apply(s, RemoveDocument(d)).value) && Forward(s.db, Apply(s, RemoveDocument(d)).value.db)
  {
    var after := Apply(s, RemoveDocument(d)).value.db;
    forall c ensures Current(after.docs, c) == Current(s.db.docs, c) {}
    ChangeKeepsSessions(s, after);
    forall c, k | HasVerified(s.db.docs, c, k) ensures HasVerified(after.docs, c, k) {
      var e :| e in s.db.docs && s.db.docs[e].client == c && s.db.docs[e].status == Verified && s.db.docs[e].kind == k;
      assert e in after.docs;
    }
    AppendKeepsDb(s.db, after, after.audit[|s.db.audit|]);
  }

  // Another submitted date on one document.
  lemma DatedDocument(docs: map<nat, Document>, d: nat, date: int)
    requires d in docs
    ensures forall c :: Current(docs[d := docs[d].(policeDate := Some(date))], c) == Current(docs, c)
    ensures forall c, k :: HasVerified(docs, c, k) ==> HasVerified(docs[d := docs[d].(policeDate := Some(date))], c, k)
  {
    var after := docs[d := docs[d].(policeDate := Some(date))];
    forall c ensures Current(after, c) == Current(docs, c) {
      assert forall e :: e in Current(after, c) <==> e in Current(docs, c);
    }
    forall c, k | HasVerified(docs, c, k) ensures HasVerified(after, c, k) {
      CurrentValues(docs, c, k);
      CurrentValues(after, c, k);
    }
  }

  lemma SetPoliceDateKeepsInv(s: State, d: nat, date: int)
    requires Inv(s) && Apply(s, SetPoliceDate(d, date)).Some?
    ensures Inv(Apply(s, SetPoliceDate(d, date)).value) && Forward(s.db, Apply(s, SetPoliceDate(d, date)).value.db)
  {
    var after := Apply(s, SetPoliceDate(d, date)).value.db;
    DatedDocument(s.db.docs, d, date);
    ChangeKeepsSessions(s, after);
    assert OneCurrent(after);
    AppendKeepsDb(s.db, after, after.audit[|s.db.audit|]);
  }

  // One more document, at a new id.
  lemma AddedDocument(docs: map<nat, Document>, n: nat, doc: Document)
    requires n !in docs
    ensures forall c :: c != doc.client || doc.status != Verified ==> Current(docs[n := doc], c) == Current(docs, c)
    ensures forall c, k :: HasVerified(docs, c, k) ==> HasVerified(docs[n := doc], c, k)
    ensures doc.status == Verified ==> HasVerified(docs[n := doc], doc.client, doc.kind)
    ensures Single(docs) && (doc.status == Verified ==> !HasVerified(docs, doc.client, doc.kind)) ==> Single(docs[n := doc])
  {
    var after := docs[n := doc];
    assert n in after && after[n] == doc;
    forall c, k | HasVerified(docs, c, k) ensures HasVerified(after, c, k) {
      var e :| e in docs && docs[e].client == c && docs[e].status == Verified && docs[e].kind == k;
      assert e in after && after[e] == docs[e];
    }
    forall c | c != doc.client || doc.status != Verified ensures Current(after, c) == Current(docs, c) {
      assert forall d :: d in Current(after, c) <==> d in Current(docs, c);
    }
  }

  lemma WorkerStoreKeepsInv(s: State, a: Step)
    requires Inv(s) && Apply(s, a).Some? && a.WorkerStore?
    ensures Inv(Apply(s, a).value) && Forward(s.db, Apply(s, a).value.db)
  {
    var after := Apply(s, a).value.db;
    assert s.db.nextDoc !in s.db.docs;
    AddedDocument(s.db.docs, s.db.nextDoc, after.docs[s.db.nextDoc]);
    ChangeKeepsSessions(s, after);
    assert Forward(s.db, after);
    assert OneCurrent(after);
  }

  // A REVIEW_REQUIRED document becomes the current one of its type.
  lemma VerifiedDocument(docs: map<nat, Document>, d: nat, doc: Document)
    requires d in docs && docs[d].status == ReviewRequired && doc.status == Verified
    requires doc.client == docs[d].client && doc.kind == docs[d].kind && Single(docs) && !HasVerified(docs, doc.client, doc.kind)
    ensures Single(docs[d := doc]) && HasVerified(docs[d := doc], doc.client, doc.kind)
    ensures forall c :: c != doc.client ==> Current(docs[d := doc], c) == Current(docs, c)
    ensures forall c, k :: HasVerified(docs, c, k) ==> HasVerified(docs[d := doc], c, k)
  {
    var after := docs[d := doc];
    assert d in after && after[d] == doc;
    forall c | c != doc.client ensures Current(after, c) == Current(docs, c) {
      assert forall e :: e in Current(after, c) <==> e in Current(docs, c);
    }
    forall c, k | HasVerified(docs, c, k) ensures HasVerified(after, c, k) {
      var e :| e in docs && docs[e].client == c && docs[e].status == Verified && docs[e].kind == k;
      assert e in after && after[e] == docs[e];
    }
  }

  lemma CommitDocumentKeepsInv(s: State, sid: nat)
    requires Inv(s) && Apply(s, CommitDocument(sid)).Some?
    ensures Inv(Apply(s, CommitDocument(sid)).value) && Forward(s.db, Apply(s, CommitDocument(sid)).value.db)
  {
    var me := s.sessions[sid];
    assert SessionOk(s, sid, me);
    var after := Apply(s, CommitDocument(sid)).value.db;
    CurrentValues(s.db.docs, me.doc.client, me.doc.kind);
    VerifiedDocument(s.db.docs, me.d, after.docs[me.d]);
    CloseKeepsSessions(s, after, sid);
    AppendKeepsDb(s.db, after, after.audit[|s.db.audit|]);
  }

  // Superseding the current document of a type and adding the new one.
  lemma ReplacedDocument(docs: map<nat, Document>, t: nat, n: nat, doc: Document)
    requires t in docs && n !in docs && doc.status == Verified && Single(docs)
    requires docs[t].status == Verified && docs[t].client == doc.client && docs[t].kind == doc.kind
    ensures
      var after := docs[t := docs[t].(status := Superseded)][n := doc];
      && Single(after)
      && (forall c :: c != doc.client ==> Current(after, c) == Current(docs, c))
      && (forall c, k :: HasVerified(docs, c, k) ==> HasVerified(after, c, k))
  {
    var after := docs[t := docs[t].(status := Superseded)][n := doc];
    assert n in after && after[n] == doc && after[t].status == Superseded;
    forall c | c != doc.client ensures Current(after, c) == Current(docs, c) {
      assert forall d :: d in Current(after, c) <==> d in Current(docs, c);
    }
    forall c, k | HasVerified(docs, c, k) ensures HasVerified(after, c, k) {
      var e :| e in docs && docs[e].client == c && docs[e].status == Verified && docs[e].kind == k;
      if e != t { assert e in after && after[e] == docs[e]; }
    }
  }

  // The documents after a commit: nothing of another client changes.
  lemma CommitDocs(s: State, sid: nat)
    requires Inv(s) && Apply(s, Commit(sid)).Some?
    ensures
      var me := s.sessions[sid];
      var client := me.row.client.value;
      var after := CommitDb(s.db, me.tid, me.mode, me.date, me.row, client);
      && (forall c :: c != client ==> Current(after.docs, c) == Current(s.db.docs, c))
      && Forward(s.db, after) && OneCurrent(after)
      && (me.mode.Approve? ==> HasVerified(after.docs, client, me.row.kind) && !HasVerified(s.db.docs, client, me.row.kind))
  {
    var me := s.sessions[sid];
    assert SessionOk(s, sid, me);
    var client := me.row.client.value;
    var after := CommitDb(s.db, me.tid, me.mode, me.date, me.row, client);
    var n := s.db.nextDoc;
    assert n !in s.db.docs;
    CurrentValues(s.db.docs, client, me.row.kind);
    if me.mode.Replace? {
      ReplacedDocument(s.db.docs, me.mode.target, n, after.docs[n]);
    } else {
      AddedDocument(s.db.docs, n, after.docs[n]);
    }
  }

  // Other sessions hold neither its row nor its target ...
  lemma CommitTouches(db: Db, tid: nat, mode: Mode, date: Option<int>, row: Row, client: nat)
    requires forall d :: d in db.docs ==> d < db.nextDoc
    ensures
      var after := CommitDb(db, tid, mode, date, row, client);
      && (forall t :: t in db.rows && t != tid ==> t in after.rows && after.rows[t] == db.rows[t])
      && (forall d :: d in db.docs && !(mode.Replace? && d == mode.target) ==> d in after.docs && after.docs[d] == db.docs[d])
  {
  }

  // ... nor its client.
  lemma CommitRespects(s: State, sid: nat)
    requires Inv(s) && Apply(s, Commit(sid)).Some?
    ensures Respects(s, Apply(s, Commit(sid)).value.db, Some(sid))
  {
    var me := s.sessions[sid];
    assert SessionOk(s, sid, me);
    CommitTouches(s.db, me.tid, me.mode, me.date, me.row, me.row.client.value);
    CommitDocs(s, sid);
    assert s.rowLocks[me.tid] == sid && s.clientLocks[me.row.client.value] == sid;
  }

  lemma CommitKeepsDb(s: State, sid: nat)
    requires Inv(s) && Apply(s, Commit(sid)).Some?
    ensures DbOk(Apply(s, Commit(sid)).value.db) && Forward(s.db, Apply(s, Commit(sid)).value.db)
  {
    assert SessionOk(s, sid, s.sessions[sid]);
    CommitDocs(s, sid);
    var after := Apply(s, Commit(sid)).value.db;
    AppendKeepsDb(s.db, after, after.audit[|s.db.audit|]);
  }

  lemma CommitKeepsInv(s: State, sid: nat)
    requires Inv(s) && Apply(s, Commit(sid)).Some?
    ensures Inv(Apply(s, Commit(sid)).value) && Forward(s.db, Apply(s, Commit(sid)).value.db)
  {
    CommitRespects(s, sid);
    CommitKeepsDb(s, sid);
    CloseKeepsSessions(s, Apply(s, Commit(sid)).value.db, sid);
  }

  lemma StepKeepsInv(s: State, a: Step)
    requires Inv(s) && Apply(s, a).Some?
    ensures Inv(Apply(s, a).value) && Forward(s.db, Apply(s, a).value.db)
  {
    match a
    case Recheck(_) => RecheckKeepsInv(s, a);
    case RecheckDocument(_) => RecheckKeepsInv(s, a);
    case Commit(sid) => CommitKeepsInv(s, sid);
    case CommitDocument(sid) => CommitDocumentKeepsInv(s, sid);
    case RemoveDocument(d) => RemoveDocumentKeepsInv(s, d);
    case SetPoliceDate(d, date) => SetPoliceDateKeepsInv(s, d, date);
    case WorkerPending(_, _) => WorkerPendingKeepsInv(s, a);
    case WorkerStore(_, _, _, _, _) => WorkerStoreKeepsInv(s, a);
    case KeepPending(_) => RowStepKeepsInv(s, a);
    case KeepDocumentPending(_) => RowStepKeepsInv(s, a);
    case RemovePending(_) => RowStepKeepsInv(s, a);
    case SetDocumentType(_, _) => RowStepKeepsInv(s, a);
    case AssignClient(_, _) => RowStepKeepsInv(s, a);
    case RetryProcessing(_) => RowStepKeepsInv(s, a);
    case _ => LockingKeepsInv(s, a);
  }

  // ------------------------------------------------------------------ theorems

  lemma ForwardTransitive(a: Db, b: Db, c: Db)
    requires Forward(a, b) && Forward(b, c)
    requires forall d :: d in a.docs ==> d < a.nextDoc
    ensures Forward(a, c)
  {
    forall d | d in a.docs && d !in c.docs ensures a.docs[d].status == ReviewRequired {
      if d in b.docs { assert b.docs[d].status == ReviewRequired; }
    }
    forall d | d in a.docs && d in c.docs ensures d in b.docs {}
  }

  lemma {:induction false} RunKeepsInv(s: State, steps: seq<Step>)
    requires Inv(s)
    ensures Exec(s, steps).Some? ==> Inv(Exec(s, steps).value) && Forward(s.db, Exec(s, steps).value.db)
    decreases |steps|
  {
    if steps != [] && Apply(s, steps[0]).Some? {
      StepKeepsInv(s, steps[0]);
      var next := Apply(s, steps[0]).value;
      RunKeepsInv(next, steps[1..]);
      if Exec(next, steps[1..]).Some? {
        ForwardTransitive(s.db, next.db, Exec(next, steps[1..]).value.db);
      }
    }
  }

  // Main result: under every interleaving no client ever has two VERIFIED
  // documents of one type, and of rival approvals or replacements one wins.
  lemma OneCurrentInEveryRun(clients: set<nat>, steps: seq<Step>)
    ensures Exec(Start(clients), steps).Some? ==>
              OneCurrent(Exec(Start(clients), steps).value.db) && OneWinner(Exec(Start(clients), steps).value.db)
  {
    RunKeepsInv(Start(clients), steps);
  }

  // Main result: VERIFIED is absorbing. From any reachable state on, statuses
  // only move forward and a type that is VERIFIED stays VERIFIED.
  lemma VerifiedIsAbsorbing(clients: set<nat>, earlier: seq<Step>, later: seq<Step>)
    requires Exec(Start(clients), earlier).Some? && Exec(Exec(Start(clients), earlier).value, later).Some?
    ensures
      var s := Exec(Start(clients), earlier).value;
      Forward(s.db, Exec(s, later).value.db)
  {
    RunKeepsInv(Start(clients), earlier);
    RunKeepsInv(Exec(Start(clients), earlier).value, later);
  }

  // The steps that take effect: an action commits (opening, locking,
  // re-checking and giving up do not, and the worker is no admin).
  predicate TakesEffect(a: Step) {
    !(a.WorkerPending? || a.WorkerStore? || a.Open? || a.LockRow? || a.LockClient? || a.Recheck?
      || a.OpenDocument? || a.LockDocument? || a.RecheckDocument? || a.Abort?)
  }

  // Every step that takes effect in review appends exactly one entry; opening,
  // locking, re-checking, giving up and the worker leave the log as it is, and
  // what is not committed changes nothing in the database.
  lemma OneEntryPerAction(s: State, a: Step)
    requires Apply(s, a).Some?
    ensures
      var after := Apply(s, a).value.db;
      if a.WorkerPending? || a.WorkerStore? then after.audit == s.db.audit
      else if !TakesEffect(a) then after == s.db
      else |after.audit| == |s.db.audit| + 1 && after.audit[..|s.db.audit|] == s.db.audit
  {
  }

  function Effects(steps: seq<Step>): nat {
    if steps == [] then 0 else (if TakesEffect(steps[0]) then 1 else 0) + Effects(steps[1..])
  }

  // Over any run the log only grows, by exactly one entry per action that took effect.
  lemma {:induction false} AuditCountsActions(s: State, steps: seq<Step>)
    requires Exec(s, steps).Some?
    ensures
      var audit := Exec(s, steps).value.db.audit;
      |audit| == |s.db.audit| + Effects(steps) && audit[..|s.db.audit|] == s.db.audit
    decreases |steps|
  {
    if steps != [] {
      OneEntryPerAction(s, steps[0]);
      var next := Apply(s, steps[0]).value;
      AuditCountsActions(next, steps[1..]);
      PrefixOfPrefix(s.db.audit, next.db.audit, Exec(s, steps).value.db.audit);
    }
  }

  lemma PrefixOfPrefix(a: seq<Entry>, b: seq<Entry>, c: seq<Entry>)
    requires |a| <= |b| <= |c| && b[..|a|] == a && c[..|b|] == b
    ensures c[..|a|] == a
  {
    assert c[..|b|][..|a|] == c[..|a|];
  }

  // ------------------------------------------------------------------ completeness (adminClientService.js)

  datatype Requirement = VERIFIED | REVIEW_REQUIRED | PENDING_REVIEW | MISSING

  function RequirementStatus(verified: nat, stored: nat, pending: nat): Requirement {
    if verified > 0 then VERIFIED else if stored > 0 then REVIEW_REQUIRED else if pending > 0 then PENDING_REVIEW else MISSING
  }

  function StatusOf(db: Db, client: nat, kind: Kind): Requirement {
    RequirementStatus(
      |set d | d in db.docs && db.docs[d].client == client && db.docs[d].kind == kind && db.docs[d].status == Verified|,
      |set d | d in db.docs && db.docs[d].client == client && db.docs[d].kind == kind|,
      |set t | t in db.rows && db.rows[t].client == Some(client) && db.rows[t].kind == kind && db.rows[t].pendingPath.Some?|)
  }

  predicate Complete(db: Db, client: nat, required: seq<Kind>) {
    forall i :: 0 <= i < |required| ==> StatusOf(db, client, required[i]) == VERIFIED
  }

  lemma VerifiedMeaning(db: Db, client: nat, kind: Kind)
    ensures StatusOf(db, client, kind) == VERIFIED <==> HasVerified(db.docs, client, kind)
  {
    var verified := set d | d in db.docs && db.docs[d].client == client && db.docs[d].kind == kind && db.docs[d].status == Verified;
    if HasVerified(db.docs, client, kind) {
      var d :| d in db.docs && db.docs[d].client == client && db.docs[d].status == Verified && db.docs[d].kind == kind;
      assert d in verified;
    } else {
      assert verified == {};
    }
  }

  lemma MissingMeaning(db: Db, client: nat, kind: Kind)
    ensures StatusOf(db, client, kind) == MISSING <==>
              && (forall d :: d in db.docs ==> !(db.docs[d].client == client && db.docs[d].kind == kind))
              && (forall t :: t in db.rows ==> !(db.rows[t].client == Some(client) && db.rows[t].kind == kind && db.rows[t].pendingPath.Some?))
  {
    var verified := set d | d in db.docs && db.docs[d].client == client && db.docs[d].kind == kind && db.docs[d].status == Verified;
    var stored := set d | d in db.docs && db.docs[d].client == client && db.docs[d].kind == kind;
    var pending := set t | t in db.rows && db.rows[t].client == Some(client) && db.rows[t].kind == kind && db.rows[t].pendingPath.Some?;
    assert StatusOf(db, client, kind) == RequirementStatus(|verified|, |stored|, |pending|);
    assert verified <= stored;
    assert StatusOf(db, client, kind) == MISSING <==> stored == {} && pending == {};
    if stored == {} && pending == {} {
      forall d | d in db.docs ensures !(db.docs[d].client == client && db.docs[d].kind == kind) { assert d !in stored; }
      forall t | t in db.rows ensures !(db.rows[t].client == Some(client) && db.rows[t].kind == kind && db.rows[t].pendingPath.Some?) {
        assert t !in pending;
      }
    }
  }

  // A COMPLETE client stays COMPLETE in every later state.
  lemma CompleteStaysComplete(clients: set<nat>, earlier: seq<Step>, later: seq<Step>, client: nat, required: seq<Kind>)
    requires Exec(Start(clients), earlier).Some? && Exec(Exec(Start(clients), earlier).value, later).Some?
    requires Complete(Exec(Start(clients), earlier).value.db, client, required)
    ensures Complete(Exec(Exec(Start(clients), earlier).value, later).value.db, client, required)
  {
    var s := Exec(Start(clients), earlier).value;
    var t := Exec(s, later).value;
    VerifiedIsAbsorbing(clients, earlier, later);
    forall i | 0 <= i < |required| ensures StatusOf(t.db, client, required[i]) == VERIFIED {
      VerifiedMeaning(s.db, client, required[i]);
      VerifiedMeaning(t.db, client, required[i]);
    }
  }

  // ------------------------------------------------------------------ where the code falls short

  // The worker's insert without its check in the same step (the check is made
  // before the insert's transaction): exactly then two documents are VERIFIED.
  lemma UncheckedInsertIff(db: Db, client: nat, kind: Kind, sha: nat, date: Option<int>)
    requires DbOk(db)
    ensures
      var after := db.(docs := db.docs[db.nextDoc := Document(client, kind, Verified, sha, date)], nextDoc := db.nextDoc + 1);
      OneCurrent(after) <==> !HasVerified(db.docs, client, kind)
  {
    var doc := Document(client, kind, Verified, sha, date);
    var after := db.docs[db.nextDoc := doc];
    if HasVerified(db.docs, client, kind) {
      var d :| d in db.docs && db.docs[d].client == client && db.docs[d].status == Verified && db.docs[d].kind == kind;
      assert d in after && db.nextDoc in after && after[d] == db.docs[d] && after[db.nextDoc] == doc;
    }
  }

  // Every VERIFIED police slip has its submitted date.
  ghost predicate SlipsDated(db: Db) {
    forall d :: d in db.docs && db.docs[d].status == Verified && db.docs[d].kind == PoliceSlip ==> db.docs[d].policeDate.Some?
  }

  // The one commit that loses it: the type became POLICE_SLIP between the read
  // the date was worked out from and the lock.
  predicate RetypedToSlip(me: Session)
    requires me.Ready?
  {
    !me.mode.Version? && me.row.kind == PoliceSlip && me.before != PoliceSlip
  }

  lemma CommitKeepsSlipsDatedIff(s: State, sid: nat)
    requires Inv(s) && SlipsDated(s.db) && Apply(s, Commit(sid)).Some?
    ensures SlipsDated(Apply(s, Commit(sid)).value.db) <==> !RetypedToSlip(s.sessions[sid])
  {
    var me := s.sessions[sid];
    assert SessionOk(s, sid, me);
    var after := Apply(s, Commit(sid)).value.db;
    assert s.db.nextDoc in after.docs;
    if !RetypedToSlip(me) {
      forall d | d in after.docs && after.docs[d].status == Verified && after.docs[d].kind == PoliceSlip
        ensures after.docs[d].policeDate.Some?
      {
        if d != s.db.nextDoc { assert after.docs[d] == s.db.docs[d]; }
      }
    }
  }

  lemma OtherStepsKeepSlipsDated(s: State, a: Step)
    requires Inv(s) && SlipsDated(s.db) && Apply(s, a).Some? && !a.Commit?
    ensures SlipsDated(Apply(s, a).value.db)
  {
    if a.CommitDocument? { assert SessionOk(s, a.sid, s.sessions[a.sid]); }
  }

  // And nothing but a police slip has a submitted date.
  ghost predicate OnlySlipsDated(db: Db) {
    forall d :: d in db.docs && db.docs[d].policeDate.Some? ==> db.docs[d].kind == PoliceSlip
  }

  // The one commit that gives another document a date: the type was POLICE_SLIP
  // when the date was worked out, and something else under the lock.
  predicate RetypedFromSlip(me: Session)
    requires me.Ready?
  {
    !me.mode.Version? && me.before == PoliceSlip && me.row.kind != PoliceSlip
  }

  lemma CommitKeepsOnlySlipsDatedIff(s: State, sid: nat)
    requires Inv(s) && OnlySlipsDated(s.db) && Apply(s, Commit(sid)).Some?
    ensures OnlySlipsDated(Apply(s, Commit(sid)).value.db) <==> !RetypedFromSlip(s.sessions[sid])
  {
    var me := s.sessions[sid];
    assert SessionOk(s, sid, me);
    var after := Apply(s, Commit(sid)).value.db;
    assert s.db.nextDoc in after.docs;
    if !RetypedFromSlip(me) {
      forall d | d in after.docs && after.docs[d].policeDate.Some? ensures after.docs[d].kind == PoliceSlip {
        if d != s.db.nextDoc { assert after.docs[d].policeDate == s.db.docs[d].policeDate && after.docs[d].kind == s.db.docs[d].kind; }
      }
    }
  }

  lemma OtherStepsKeepOnlySlipsDated(s: State, a: Step)
    requires Inv(s) && OnlySlipsDated(s.db) && Apply(s, a).Some? && !a.Commit?
    ensures OnlySlipsDated(Apply(s, a).value.db)
  {
    if a.CommitDocument? { assert SessionOk(s, a.sid, s.sessions[a.sid]); }
  }

  // Such runs exist: an admin approves a file as one type, another corrects the
  // type in between.
  function Reading(before: Kind, given: Option<int>, after: Kind): seq<Step> {
    [WorkerPending(0, Row(Some(1), before, 5, Some(0), false, false)), Open(9, 0, Approve, given), SetDocumentType(0, after), LockRow(9)]
  }

  const Committing := [LockClient(9), Recheck(9), Commit(9)]

  predicate Retyping(before: Kind, given: Option<int>, after: Kind) {
    before != after && before != Unknown && after != Unknown && (given.Some? <==> before == PoliceSlip)
  }

  lemma ExecOne(s: State, a: Step, rest: seq<Step>)
    requires Apply(s, a).Some?
    ensures Exec(s, [a] + rest) == Exec(Apply(s, a).value, rest)
  {
    assert ([a] + rest)[1..] == rest;
  }

  lemma ExecFour(s: State, a: Step, b: Step, c: Step, d: Step, s1: State, s2: State, s3: State, s4: State, rest: seq<Step>)
    requires Apply(s, a) == Some(s1) && Apply(s1, b) == Some(s2) && Apply(s2, c) == Some(s3) && Apply(s3, d) == Some(s4)
    ensures Exec(s, [a, b, c, d] + rest) == Exec(s4, rest)
  {
    assert [a, b, c, d] + rest == [a] + ([b] + ([c] + ([d] + rest)));
    ExecOne(s, a, [b] + ([c] + ([d] + rest)));
    ExecOne(s1, b, [c] + ([d] + rest));
    ExecOne(s2, c, [d] + rest);
    ExecOne(s3, d, rest);
  }

  lemma RunReading(before: Kind, given: Option<int>, after: Kind) returns (s: State)
    requires Retyping(before, given, after)
    ensures forall rest :: Exec(Start({1}), Reading(before, given, after) + rest) == Exec(s, rest)
    ensures s.sessions == map[9 := RowHeld(0, Approve, before, given, Row(Some(1), after, 5, Some(0), false, false))]
    ensures s.db.docs == map[] && s.db.clients == {1} && s.db.nextDoc == 0 && s.clientLocks == map[]
  {
    var steps := Reading(before, given, after);
    var s0 := Start({1});
    var s1 := Apply(s0, steps[0]).value;
    var s2 := Apply(s1, steps[1]).value;
    assert s2.sessions == map[9 := Opened(0, Approve, before, given, 0)];
    var s3 := Apply(s2, steps[2]).value;
    assert s3.db.rows == map[0 := Row(Some(1), after, 5, Some(0), false, false)];
    s := Apply(s3, steps[3]).value;
    forall rest ensures Exec(s0, steps + rest) == Exec(s, rest) {
      ExecFour(s0, steps[0], steps[1], steps[2], steps[3], s1, s2, s3, s, rest);
    }
  }

  lemma RunCommitting(s: State, before: Kind, given: Option<int>, after: Kind) returns (r: State)
    requires Retyping(before, given, after)
    requires s.sessions == map[9 := RowHeld(0, Approve, before, given, Row(Some(1), after, 5, Some(0), false, false))]
    requires s.db.docs == map[] && s.db.clients == {1} && s.db.nextDoc == 0 && s.clientLocks == map[]
    ensures Exec(s, Committing) == Some(r) && r.db.docs == map[0 := Document(1, after, Verified, 5, given)]
  {
    var s1 := Apply(s, LockClient(9)).value;
    var s2 := Apply(s1, Recheck(9)).value;
    assert s2.sessions[9] == Ready(0, Approve, before, given, Row(Some(1), after, 5, Some(0), false, false));
    r := Apply(s2, Commit(9)).value;
    assert Committing == [LockClient(9)] + ([Recheck(9)] + ([Commit(9)] + []));
    ExecOne(s, LockClient(9), [Recheck(9)] + ([Commit(9)] + []));
    ExecOne(s1, Recheck(9), [Commit(9)] + []);
    ExecOne(s2, Commit(9), []);
  }

  // A file approved while its type changes is stored with the date of the type
  // it had before.
  lemma RetypingKeepsTheOldDate(before: Kind, given: Option<int>, after: Kind)
    requires Retyping(before, given, after)
    ensures exists steps ::
      Exec(Start({1}), steps).Some? && Exec(Start({1}), steps).value.db.docs == map[0 := Document(1, after, Verified, 5, given)]
  {
    var s := RunReading(before, given, after);
    var r := RunCommitting(s, before, given, after);
    assert Exec(Start({1}), Reading(before, given, after) + Committing) == Some(r);
  }

  lemma RetypingBreaksBoth()
    ensures exists steps :: Exec(Start({1}), steps).Some? && !SlipsDated(Exec(Start({1}), steps).value.db)
    ensures exists steps :: Exec(Start({1}), steps).Some? && !OnlySlipsDated(Exec(Start({1}), steps).value.db)
  {
    RetypingKeepsTheOldDate(Passport, None, PoliceSlip);
    var undated :| Exec(Start({1}), undated).Some? && Exec(Start({1}), undated).value.db.docs == map[0 := Document(1, PoliceSlip, Verified, 5, None)];
    assert 0 in Exec(Start({1}), undated).value.db.docs;
    RetypingKeepsTheOldDate(PoliceSlip, Some(700_000), Passport);
    var dated :| Exec(Start({1}), dated).Some?
      && Exec(Start({1}), dated).value.db.docs == map[0 := Document(1, Passport, Verified, 5, Some(700_000))];
    assert 0 in Exec(Start({1}), dated).value.db.docs;
  }
}
