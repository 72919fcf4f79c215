/** How webhook deliveries are acknowledged (src/routes/whatsapp.js): every
    process of the application, each with its message cache and running
    handlers, beside the shared temporary_data table and temporary/ files.

    The cache is the one of module MessageCache while nothing expires or is
    evicted from it (CacheRefinesIdeal and MapStepIsIdealStep there). WhatsApp gives a message ID
    to one message only: `isMedia` says which IDs are document or photo messages. */
module Webhook {
  import opened Common
  import opened MessageCache

  datatype Key = Key(process: nat, id: nat)

  // Where a running handler is. `file` is its uploaded temporary object.
  datatype Pc =
    | Downloading
    | Uploading
    | Inserting(file: nat)
    | DroppingDuplicate(file: nat)
    | DroppingFailed(file: nat)
    | DroppingRecorded(file: nat)   // the insert was committed although it reported an error
    | Concluding(ok: bool)      // about to complete or release its claim
    | Finished(ok: bool)

  datatype Handler = Handler(key: Key, pc: Pc)

  datatype Message = Message(id: Option<nat>, hasSender: bool)

  datatype Delivery = Delivery(
    process: nat, messages: seq<Message>, index: nat, allHandled: bool,
    awaiting: Option<nat>, answer: Option<bool>)

  datatype Cause = RemovalFailed | UploadFailedButLanded | ProcessEnded

  datatype State = State(
    cache: map<Key, MessageState>,
    inFlight: set<Key>,
    handlers: map<nat, Handler>,
    deliveries: map<nat, Delivery>,
    records: map<nat, nat>,        // temporary_data: unique message ID -> file
    refused: set<nat>,             // refused on purpose
    files: set<nat>,               // objects under temporary/
    leftovers: map<nat, Cause>,    // objects nobody will remove any more
    lost: set<nat>)                // objects removed although a record names them

  const Start := State.State(map[], {}, map[], map[], map[], {}, {}, map[], {})

  datatype Event =
    | Refused | Downloaded | DownloadFails
    | Uploaded(file: nat) | UploadFails(landed: Option<nat>)
    | Inserted | InsertedUnreported | FoundDuplicate | InsertFails
    | Removed | RemovalFails
    | Conclude

  datatype Action =
    | Deliver(d: nat, process: nat, messages: seq<Message>)
    | Ignore(d: nat)
    | ClaimMessage(d: nat, h: nat)
    | SkipProcessed(d: nat)
    | StopWaiting(d: nat, timedOut: bool)
    | HandlerStep(h: nat, event: Event)
    | Resume(d: nat)
    | Answer(d: nat)
    | Restart(process: nat)

  // ------------------------------------------------------------------ steps

  predicate Attributable(m: Message) {
    m.id.Some? && m.hasSender
  }

  predicate AtMessage(s: State, d: nat) {
    d in s.deliveries && s.deliveries[d].awaiting.None? && s.deliveries[d].index < |s.deliveries[d].messages|
  }

  function Current(v: Delivery): Message
    requires v.index < |v.messages|
  {
    v.messages[v.index]
  }

  function KeyOf(v: Delivery): Key
    requires v.index < |v.messages| && Attributable(Current(v))
  {
    Key(v.process, Current(v).id.value)
  }

  // The next message of a delivery, after handleMessage returned `handled`.
  function Advance(v: Delivery, handled: bool): Delivery {
    v.(index := v.index + 1, allHandled := v.allHandled && handled, awaiting := None)
  }

  predicate CacheIs(s: State, k: Key, state: MessageState) {
    k in s.cache && s.cache[k] == state
  }

  function StepIgnore(s: State, d: nat): Option<State> {
    if !AtMessage(s, d) || Attributable(Current(s.deliveries[d])) then None
    else Some(s.(deliveries := s.deliveries[d := Advance(s.deliveries[d], true)]))
  }

  // Claim, start the handler and enter it in inFlight: one turn of the event
  // loop. A message that is not media is handled at once.
  function StepClaim(isMedia: nat -> bool, s: State, d: nat, h: nat): Option<State> {
    if !AtMessage(s, d) || !Attributable(Current(s.deliveries[d])) || h in s.handlers then None
    else
      var v := s.deliveries[d];
      var k := KeyOf(v);
      if k in s.cache then None
      else Some(s.(cache := s.cache[k := InProgress], inFlight := s.inFlight + {k},
                   handlers := s.handlers[h := Handler(k, if isMedia(k.id) then Downloading else Concluding(true))],
                   deliveries := s.deliveries[d := v.(awaiting := Some(h))]))
  }

  function StepSkipProcessed(s: State, d: nat): Option<State> {
    if !AtMessage(s, d) || !Attributable(Current(s.deliveries[d])) || !CacheIs(s, KeyOf(s.deliveries[d]), Processed) then None
    else Some(s.(deliveries := s.deliveries[d := Advance(s.deliveries[d], true)]))
  }

  // Another delivery of this process is handling the message. (Waiting for it
  // and looking again needs no step of its own.)
  function StepStopWaiting(s: State, d: nat, timedOut: bool): Option<State> {
    if !AtMessage(s, d) || !Attributable(Current(s.deliveries[d])) then None
    else
      var k := KeyOf(s.deliveries[d]);
      if !CacheIs(s, k, InProgress) || (k in s.inFlight && !timedOut) then None
      else Some(s.(deliveries := s.deliveries[d := Advance(s.deliveries[d], false)]))
  }

  function At(s: State, h: nat, pc: Pc): State
    requires h in s.handlers
  {
    s.(handlers := s.handlers[h := s.handlers[h].(pc := pc)])
  }

  function StepHandler(s: State, h: nat, e: Event): Option<State> {
    if h !in s.handlers then None
    else
      var id := s.handlers[h].key.id;
      match (s.handlers[h].pc, e)
      case (Downloading, Refused) => Some(At(s, h, Concluding(true)).(refused := s.refused + {id}))
      case (Downloading, Downloaded) => Some(At(s, h, Uploading))
      case (Downloading, DownloadFails) => Some(At(s, h, Concluding(false)))
      case (Uploading, Uploaded(f)) =>
        if f in s.files || f in s.lost then None  // names are never used twice
        else Some(At(s, h, Inserting(f)).(files := s.files + {f}))
      case (Uploading, UploadFails(landed)) =>
        if landed.None? then Some(At(s, h, Concluding(false)))
        else if landed.value in s.files || landed.value in s.lost then None
        else Some(At(s, h, Concluding(false)).(files := s.files + {landed.value},
                  leftovers := s.leftovers[landed.value := UploadFailedButLanded]))
      case (Inserting(f), Inserted) =>
        if id in s.records then None else Some(At(s, h, Concluding(true)).(records := s.records[id := f]))
      case (Inserting(f), InsertedUnreported) =>
        if id in s.records then None else Some(At(s, h, DroppingRecorded(f)).(records := s.records[id := f]))
      case (Inserting(f), FoundDuplicate) =>
        if id !in s.records then None else Some(At(s, h, DroppingDuplicate(f)))
      case (Inserting(f), InsertFails) => Some(At(s, h, DroppingFailed(f)))
      case (DroppingDuplicate(f), Removed) => Some(At(s, h, Concluding(true)).(files := s.files - {f}))
      case (DroppingDuplicate(f), RemovalFails) => Some(At(s, h, Concluding(true)).(leftovers := s.leftovers[f := RemovalFailed]))
      case (DroppingFailed(f), Removed) => Some(At(s, h, Concluding(false)).(files := s.files - {f}))
      case (DroppingFailed(f), RemovalFails) => Some(At(s, h, Concluding(false)).(leftovers := s.leftovers[f := RemovalFailed]))
      case (DroppingRecorded(f), Removed) =>
        Some(At(s, h, Concluding(false)).(files := s.files - {f}, lost := s.lost + {f}))
      case (DroppingRecorded(f), RemovalFails) => Some(At(s, h, Concluding(false)))
      case (Concluding(ok), Conclude) =>
        var k := s.handlers[h].key;
        Some(At(s, h, Finished(ok)).(cache := if ok then s.cache[k := Processed] else s.cache - {k}))
      case _ => None
  }

  // The delivery whose handler finished goes on, taking it out of inFlight.
  function StepResume(s: State, d: nat): Option<State> {
    if d !in s.deliveries || s.deliveries[d].awaiting.None? then None
    else
      var h := s.deliveries[d].awaiting.value;
      if h !in s.handlers || !s.handlers[h].pc.Finished? then None
      else Some(s.(inFlight := s.inFlight - {s.handlers[h].key},
                   deliveries := s.deliveries[d := Advance(s.deliveries[d], s.handlers[h].pc.ok)]))
  }

  function StepAnswer(s: State, d: nat): Option<State> {
    if d !in s.deliveries || s.deliveries[d].awaiting.Some? || s.deliveries[d].index < |s.deliveries[d].messages|
       || s.deliveries[d].answer.Some? then None
    else Some(s.(deliveries := s.deliveries[d := s.deliveries[d].(answer := Some(s.deliveries[d].allHandled))]))
  }

  function Held(pc: Pc): set<nat> {
    if pc.Inserting? || pc.DroppingDuplicate? || pc.DroppingFailed? then {pc.file} else {}
  }

  // A process dies: its cache, handlers and unanswered deliveries are gone.
  function StepRestart(s: State, p: nat): State {
    var lost := set h, f | h in s.handlers && s.handlers[h].key.process == p && f in Held(s.handlers[h].pc) :: f;
    s.(cache := map k | k in s.cache && k.process != p :: s.cache[k],
       inFlight := (set k | k in s.inFlight && k.process != p),
       handlers := map h | h in s.handlers && s.handlers[h].key.process != p :: s.handlers[h],
       deliveries := map d | d in s.deliveries && (s.deliveries[d].process != p || s.deliveries[d].answer.Some?) :: s.deliveries[d],
       leftovers := s.leftovers + map f | f in lost :: ProcessEnded)
  }

  function Apply(isMedia: nat -> bool, s: State, a: Action): Option<State> {
    match a
    case Deliver(d, p, messages) =>
      if d in s.deliveries then None
      else Some(s.(deliveries := s.deliveries[d := Delivery(p, messages, 0, true, None, None)]))
    case Ignore(d) => StepIgnore(s, d)
    case ClaimMessage(d, h) => StepClaim(isMedia, s, d, h)
    case SkipProcessed(d) => StepSkipProcessed(s, d)
    case StopWaiting(d, timedOut) => StepStopWaiting(s, d, timedOut)
    case HandlerStep(h, e) => StepHandler(s, h, e)
    case Resume(d) => StepResume(s, d)
    case Answer(d) => StepAnswer(s, d)
    case Restart(p) => Some(StepRestart(s, p))
  }

  function Exec(isMedia: nat -> bool, s: State, actions: seq<Action>): Option<State>
    decreases |actions|
  {
    if actions == [] then Some(s)
    else match Apply(isMedia, s, actions[0])
      case None => None
      case Some(next) => Exec(isMedia, next, actions[1..])
  }

  // ------------------------------------------------------------------ promises

  // Nothing is left to do for this message: it is no file, was recorded
  // durably, or was refused on purpose.
  predicate Settled(isMedia: nat -> bool, s: State, id: nat) {
    !isMedia(id) || id in s.records || id in s.refused
  }

  predicate IsRunning(s: State, h: nat) {
    h in s.handlers && !s.handlers[h].pc.Finished?
  }

  ghost predicate OneHandlerPerMessage(s: State) {
    forall g, h :: IsRunning(s, g) && IsRunning(s, h) && s.handlers[g].key == s.handlers[h].key ==> g == h
  }

  ghost predicate AnsweredMeansSettled(isMedia: nat -> bool, s: State) {
    forall d, j :: d in s.deliveries && s.deliveries[d].answer == Some(true) && 0 <= j < |s.deliveries[d].messages| ==>
      Attributable(s.deliveries[d].messages[j]) ==> Settled(isMedia, s, s.deliveries[d].messages[j].id.value)
  }

  // Exactly the lost files are missing.
  ghost predicate RecordsHaveFiles(s: State) {
    && (forall id, f :: RecordedAs(s, id, f) ==> (f in s.files <==> f !in s.lost))
    && (forall f :: f in s.lost ==> f !in s.files && exists id :: RecordedAs(s, id, f))
    && (forall a, b, f :: RecordedAs(s, a, f) && RecordedAs(s, b, f) ==> a == b)
  }

  predicate HeldBy(s: State, h: nat, f: nat) {
    h in s.handlers && f in Held(s.handlers[h].pc)
  }

  predicate RecordedAs(s: State, id: nat, f: nat) {
    id in s.records && s.records[id] == f
  }

  ghost predicate Accounted(s: State, f: nat) {
    (exists id :: RecordedAs(s, id, f)) || (exists h :: HeldBy(s, h, f)) || f in s.leftovers
  }

  ghost predicate NoStrayFiles(s: State) {
    forall f :: f in s.files ==> Accounted(s, f)
  }

  // ------------------------------------------------------------------ invariant

  ghost predicate HandlerOk(isMedia: nat -> bool, s: State, h: nat)
    requires h in s.handlers
  {
    var x := s.handlers[h];
    && (!x.pc.Finished? ==> CacheIs(s, x.key, InProgress))
    && (x.pc in {Concluding(true), Finished(true)} ==> Settled(isMedia, s, x.key.id))
    && (x.pc.DroppingDuplicate? ==> x.key.id in s.records)
  }

  ghost predicate HandlersInv(isMedia: nat -> bool, s: State) {
    && OneHandlerPerMessage(s)
    && (forall h :: h in s.handlers ==> HandlerOk(isMedia, s, h))
    && (forall k :: CacheIs(s, k, Processed) ==> Settled(isMedia, s, k.id))
  }

  ghost predicate DeliveryOk(isMedia: nat -> bool, s: State, v: Delivery) {
    && v.index <= |v.messages|
    && (v.awaiting.Some? ==>
          && v.index < |v.messages| && Attributable(Current(v))
          && v.awaiting.value in s.handlers && s.handlers[v.awaiting.value].key == KeyOf(v))
    && (v.allHandled ==> forall j :: 0 <= j < v.index && Attributable(v.messages[j]) ==> Settled(isMedia, s, v.messages[j].id.value))
    && (v.answer.Some? ==> v.index == |v.messages| && v.awaiting.None? && v.answer.value == v.allHandled)
  }

  ghost predicate DeliveriesInv(isMedia: nat -> bool, s: State) {
    forall d :: d in s.deliveries ==> DeliveryOk(isMedia, s, s.deliveries[d])
  }

  ghost predicate FilesInv(s: State) {
    && RecordsHaveFiles(s)
    && (forall h, f :: HeldBy(s, h, f) ==> f in s.files && forall id :: !RecordedAs(s, id, f))
    && (forall g, h, f :: HeldBy(s, g, f) && HeldBy(s, h, f) ==> g == h)
    && (forall h :: h in s.handlers && s.handlers[h].pc.DroppingRecorded? ==> RecordedAs(s, s.handlers[h].key.id, s.handlers[h].pc.file))
    && NoStrayFiles(s)
  }

  ghost predicate Inv(isMedia: nat -> bool, s: State) {
    HandlersInv(isMedia, s) && DeliveriesInv(isMedia, s) && FilesInv(s)
  }

  lemma ConcludeKeepsHandlers(isMedia: nat -> bool, s: State, h: nat)
    requires HandlersInv(isMedia, s) && StepHandler(s, h, Conclude).Some?
    ensures HandlersInv(isMedia, StepHandler(s, h, Conclude).value)
  {
    var t := StepHandler(s, h, Conclude).value;
    assert HandlerOk(isMedia, s, h);
    forall g | g in t.handlers && g != h ensures HandlerOk(isMedia, t, g) {
      assert HandlerOk(isMedia, s, g) && t.handlers[g] == s.handlers[g];
      assert IsRunning(s, h) && (IsRunning(s, g) ==> s.handlers[g].key != s.handlers[h].key);
    }
    forall k | CacheIs(t, k, Processed) ensures Settled(isMedia, t, k.id) {
      assert CacheIs(s, k, Processed) || (k == s.handlers[h].key && s.handlers[h].pc == Concluding(true));
    }
    assert forall g :: IsRunning(t, g) ==> IsRunning(s, g) && t.handlers[g].key == s.handlers[g].key;
  }

  // What every step but the last does to its handler.
  lemma WorkEffect(isMedia: nat -> bool, s: State, h: nat, e: Event)
    requires StepHandler(s, h, e).Some? && e != Conclude && HandlerOk(isMedia, s, h)
    ensures
      var t := StepHandler(s, h, e).value;
      && t.cache == s.cache && h in t.handlers && t.handlers == s.handlers[h := t.handlers[h]]
      && t.handlers[h].key == s.handlers[h].key
      && IsRunning(s, h) && IsRunning(t, h) && HandlerOk(isMedia, t, h)
      && s.records.Keys <= t.records.Keys && s.refused <= t.refused
  {
  }

  lemma WorkKeepsHandlers(isMedia: nat -> bool, s: State, t: State, h: nat)
    requires HandlersInv(isMedia, s)
    requires t.cache == s.cache && h in t.handlers && t.handlers == s.handlers[h := t.handlers[h]]
    requires IsRunning(s, h) && IsRunning(t, h) && t.handlers[h].key == s.handlers[h].key && HandlerOk(isMedia, t, h)
    requires s.records.Keys <= t.records.Keys && s.refused <= t.refused
    ensures HandlersInv(isMedia, t)
  {
    forall g | g in t.handlers && g != h ensures HandlerOk(isMedia, t, g) {
      assert HandlerOk(isMedia, s, g);
    }
    forall k | CacheIs(t, k, Processed) ensures Settled(isMedia, t, k.id) { assert CacheIs(s, k, Processed); }
    assert forall g :: IsRunning(t, g) ==> IsRunning(s, g) && t.handlers[g].key == s.handlers[g].key;
  }

  lemma ClaimKeepsHandlers(isMedia: nat -> bool, s: State, d: nat, h: nat)
    requires HandlersInv(isMedia, s) && StepClaim(isMedia, s, d, h).Some?
    ensures HandlersInv(isMedia, StepClaim(isMedia, s, d, h).value)
  {
    var t := StepClaim(isMedia, s, d, h).value;
    forall g | g in t.handlers && g != h ensures HandlerOk(isMedia, t, g) {
      assert HandlerOk(isMedia, s, g) && t.handlers[g] == s.handlers[g];
    }
    forall k | CacheIs(t, k, Processed) ensures Settled(isMedia, t, k.id) { assert CacheIs(s, k, Processed); }
    forall g | IsRunning(t, g) && g != h ensures t.handlers[g].key != t.handlers[h].key {
      assert HandlerOk(isMedia, s, g) && t.handlers[g] == s.handlers[g];
    }
    assert forall g :: IsRunning(t, g) && g != h ==> IsRunning(s, g) && t.handlers[g].key == s.handlers[g].key;
  }

  lemma RestartKeepsHandlers(isMedia: nat -> bool, s: State, p: nat)
    requires HandlersInv(isMedia, s)
    ensures HandlersInv(isMedia, StepRestart(s, p))
  {
    var t := StepRestart(s, p);
    forall g | g in t.handlers ensures HandlerOk(isMedia, t, g) { assert HandlerOk(isMedia, s, g); }
    forall k | CacheIs(t, k, Processed) ensures Settled(isMedia, t, k.id) { assert CacheIs(s, k, Processed); }
    assert forall g :: IsRunning(t, g) ==> IsRunning(s, g) && t.handlers[g].key == s.handlers[g].key;
  }

  // The other actions of a delivery leave cache, handlers and records alone.
  lemma DeliveryKeepsHandlers(isMedia: nat -> bool, s: State, t: State)
    requires HandlersInv(isMedia, s)
    requires t.cache == s.cache && t.handlers == s.handlers && t.records == s.records && t.refused == s.refused
    ensures HandlersInv(isMedia, t)
  {
    forall g | g in t.handlers ensures HandlerOk(isMedia, t, g) { assert HandlerOk(isMedia, s, g); }
    forall k | CacheIs(t, k, Processed) ensures Settled(isMedia, t, k.id) { assert CacheIs(s, k, Processed); }
    assert forall g :: IsRunning(t, g) <==> IsRunning(s, g);
  }

  lemma HandlerStepKeepsHandlers(isMedia: nat -> bool, s: State, h: nat, e: Event)
    requires HandlersInv(isMedia, s) && StepHandler(s, h, e).Some?
    ensures HandlersInv(isMedia, StepHandler(s, h, e).value)
  {
    if e == Conclude {
      ConcludeKeepsHandlers(isMedia, s, h);
    } else {
      assert HandlerOk(isMedia, s, h);
      WorkEffect(isMedia, s, h, e);
      WorkKeepsHandlers(isMedia, s, StepHandler(s, h, e).value, h);
    }
  }

  lemma StepKeepsHandlers(isMedia: nat -> bool, s: State, a: Action)
    requires HandlersInv(isMedia, s) && Apply(isMedia, s, a).Some?
    ensures HandlersInv(isMedia, Apply(isMedia, s, a).value)
  {
    match a
    case HandlerStep(h, e) => HandlerStepKeepsHandlers(isMedia, s, h, e);
    case ClaimMessage(d, h) => ClaimKeepsHandlers(isMedia, s, d, h);
    case Restart(p) => RestartKeepsHandlers(isMedia, s, p);
    case _ => DeliveryKeepsHandlers(isMedia, s, Apply(isMedia, s, a).value);
  }

  // The events that leave an object behind.
  predicate Leaves(a: Action) {
    || a.Restart?
    || (a.HandlerStep? && (a.event.RemovalFails? || (a.event.UploadFails? && a.event.landed.Some?)))
  }

  // Records and refusals only grow, and a record keeps its file.
  ghost predicate KnowsMore(s: State, t: State) {
    s.refused <= t.refused && forall id :: id in s.records ==> id in t.records && t.records[id] == s.records[id]
  }

  lemma HandlerKnowledge(s: State, h: nat, e: Event)
    requires StepHandler(s, h, e).Some?
    ensures KnowsMore(s, StepHandler(s, h, e).value)
    ensures !Leaves(HandlerStep(h, e)) ==> StepHandler(s, h, e).value.leftovers == s.leftovers
  {
  }

  lemma StepKnowledge(isMedia: nat -> bool, s: State, a: Action)
    requires Apply(isMedia, s, a).Some?
    ensures KnowsMore(s, Apply(isMedia, s, a).value)
    ensures !Leaves(a) ==> Apply(isMedia, s, a).value.leftovers == s.leftovers
  {
    if a.HandlerStep? { HandlerKnowledge(s, a.h, a.event); }
  }

  lemma SettledStays(isMedia: nat -> bool, s: State, a: Action, id: nat)
    requires Apply(isMedia, s, a).Some? && Settled(isMedia, s, id)
    ensures Settled(isMedia, Apply(isMedia, s, a).value, id)
  {
    StepKnowledge(isMedia, s, a);
  }

  lemma DeliveryStays(isMedia: nat -> bool, s: State, t: State, v: Delivery)
    requires DeliveryOk(isMedia, s, v)
    requires forall id :: Settled(isMedia, s, id) ==> Settled(isMedia, t, id)
    requires v.awaiting.Some? ==> v.awaiting.value in t.handlers && t.handlers[v.awaiting.value].key == s.handlers[v.awaiting.value].key
    ensures DeliveryOk(isMedia, t, v)
  {
  }

  lemma AdvanceIsOk(isMedia: nat -> bool, s: State, v: Delivery, handled: bool)
    requires DeliveryOk(isMedia, s, v) && v.index < |v.messages| && v.answer.None?
    requires handled && Attributable(Current(v)) ==> Settled(isMedia, s, Current(v).id.value)
    ensures DeliveryOk(isMedia, s, Advance(v, handled))
  {
  }

  predicate Moves(a: Action) {
    a.Ignore? || a.ClaimMessage? || a.SkipProcessed? || a.StopWaiting? || a.Resume? || a.Answer?
  }

  // The delivery an action moves on.
  lemma OwnDeliveryIsOk(isMedia: nat -> bool, s: State, a: Action)
    requires HandlersInv(isMedia, s) && DeliveriesInv(isMedia, s) && Apply(isMedia, s, a).Some?
    requires Moves(a)
    ensures
      var t := Apply(isMedia, s, a).value;
      a.d in t.deliveries && DeliveryOk(isMedia, t, t.deliveries[a.d])
  {
    var t := Apply(isMedia, s, a).value;
    var v := s.deliveries[a.d];
    assert DeliveryOk(isMedia, s, v);
    match a
    case Ignore(_) => AdvanceIsOk(isMedia, s, v, true); DeliveryStays(isMedia, s, t, Advance(v, true));
    case SkipProcessed(_) => AdvanceIsOk(isMedia, s, v, true); DeliveryStays(isMedia, s, t, Advance(v, true));
    case StopWaiting(_, _) => AdvanceIsOk(isMedia, s, v, false); DeliveryStays(isMedia, s, t, Advance(v, false));
    case Resume(_) =>
      var ok := s.handlers[v.awaiting.value].pc.ok;
      assert HandlerOk(isMedia, s, v.awaiting.value);
      AdvanceIsOk(isMedia, s, v, ok);
      DeliveryStays(isMedia, s, t, Advance(v, ok));
    case ClaimMessage(_, _) => DeliveryStays(isMedia, s, t, v);
    case Answer(_) =>
  }

  lemma HandlerFrame(s: State, h: nat, e: Event)
    requires StepHandler(s, h, e).Some?
    ensures
      var t := StepHandler(s, h, e).value;
      && t.deliveries == s.deliveries && h in s.handlers && h in t.handlers
      && t.handlers == s.handlers[h := t.handlers[h]] && t.handlers[h].key == s.handlers[h].key
  {
  }

  // An action leaves the other deliveries and the handlers they wait for.
  lemma OthersUntouched(isMedia: nat -> bool, s: State, a: Action, d: nat)
    requires Apply(isMedia, s, a).Some? && d in Apply(isMedia, s, a).value.deliveries
    requires !(Moves(a) && d == a.d) && !(a.Deliver? && d == a.d)
    ensures
      var t := Apply(isMedia, s, a).value;
      && d in s.deliveries && t.deliveries[d] == s.deliveries[d]
      && (!a.Restart? ==> forall h :: h in s.handlers ==> h in t.handlers && t.handlers[h].key == s.handlers[h].key)
      && (a.Restart? ==> s.deliveries[d].process != a.process || s.deliveries[d].answer.Some?)
  {
    if a.HandlerStep? { HandlerFrame(s, a.h, a.event); }
  }

  lemma OtherDeliveryIsOk(isMedia: nat -> bool, s: State, a: Action, d: nat)
    requires DeliveriesInv(isMedia, s) && Apply(isMedia, s, a).Some? && d in Apply(isMedia, s, a).value.deliveries
    requires !(Moves(a) && d == a.d) && !(a.Deliver? && d == a.d)
    ensures DeliveryOk(isMedia, Apply(isMedia, s, a).value, Apply(isMedia, s, a).value.deliveries[d])
  {
    var t := Apply(isMedia, s, a).value;
    OthersUntouched(isMedia, s, a, d);
    assert DeliveryOk(isMedia, s, s.deliveries[d]);
    forall id | Settled(isMedia, s, id) ensures Settled(isMedia, t, id) { SettledStays(isMedia, s, a, id); }
    DeliveryStays(isMedia, s, t, s.deliveries[d]);
  }

  lemma StepKeepsDeliveries(isMedia: nat -> bool, s: State, a: Action)
    requires HandlersInv(isMedia, s) && DeliveriesInv(isMedia, s) && Apply(isMedia, s, a).Some?
    ensures DeliveriesInv(isMedia, Apply(isMedia, s, a).value)
  {
    var t := Apply(isMedia, s, a).value;
    if Moves(a) { OwnDeliveryIsOk(isMedia, s, a); }
    forall d | d in t.deliveries ensures DeliveryOk(isMedia, t, t.deliveries[d]) {
      if !(Moves(a) && d == a.d) && !(a.Deliver? && d == a.d) { OtherDeliveryIsOk(isMedia, s, a, d); }
    }
  }

  lemma StepKeepsFiles(isMedia: nat -> bool, s: State, a: Action)
    requires FilesInv(s) && Apply(isMedia, s, a).Some?
    ensures FilesInv(Apply(isMedia, s, a).value)
  {
    var t := Apply(isMedia, s, a).value;
    match a
    case HandlerStep(h, e) => HandlerStepKeepsFiles(s, h, e);
    case Restart(p) => RestartKeepsFiles(s, p);
    case _ =>
      assert forall h, f :: HeldBy(t, h, f) <==> HeldBy(s, h, f);
      assert forall id, f :: RecordedAs(t, id, f) <==> RecordedAs(s, id, f);
      forall f | f in t.files ensures Accounted(t, f) { assert Accounted(s, f); }
  }

  lemma RestartKeepsFiles(s: State, p: nat)
    requires FilesInv(s)
    ensures FilesInv(StepRestart(s, p))
  {
    var t := StepRestart(s, p);
    assert forall h, f :: HeldBy(t, h, f) ==> HeldBy(s, h, f);
    assert forall id, f :: RecordedAs(t, id, f) <==> RecordedAs(s, id, f);
    forall f | f in t.files ensures Accounted(t, f) {
      assert Accounted(s, f);
      if h :| HeldBy(s, h, f) {
        if s.handlers[h].key.process != p { assert HeldBy(t, h, f); }
      } else if id :| RecordedAs(s, id, f) {
        assert RecordedAs(t, id, f);
      }
    }
  }

  // The files a step adds to or takes from the store, the records and the
  // leftovers, with what the stepping handler holds before and after.
  lemma FilesEffect(s: State, h: nat, e: Event)
    requires StepHandler(s, h, e).Some?
    ensures
      var t := StepHandler(s, h, e).value;
      var before, after := Held(s.handlers[h].pc), Held(t.handlers[h].pc);
      var id := s.handlers[h].key.id;
      match e
      case Uploaded(f) => f !in s.files + s.lost && before == {} && after == {f} && SameBut(s, t, s.files + {f}, s.records, s.leftovers, s.lost)
      case UploadFails(None) => before == after == {} && SameBut(s, t, s.files, s.records, s.leftovers, s.lost)
      case UploadFails(Some(f)) =>
        && f !in s.files + s.lost && before == after == {}
        && SameBut(s, t, s.files + {f}, s.records, s.leftovers[f := UploadFailedButLanded], s.lost)
      case Inserted => exists f :: before == {f} && after == {} && id !in s.records
                                   && SameBut(s, t, s.files, s.records[id := f], s.leftovers, s.lost)
      case InsertedUnreported => exists f :: before == {f} && after == {} && id !in s.records && t.handlers[h].pc == DroppingRecorded(f)
                                   && SameBut(s, t, s.files, s.records[id := f], s.leftovers, s.lost)
      case Removed =>
        if s.handlers[h].pc.DroppingRecorded? then
          var f := s.handlers[h].pc.file;
          before == after == {} && SameBut(s, t, s.files - {f}, s.records, s.leftovers, s.lost + {f})
        else exists f :: before == {f} && after == {} && SameBut(s, t, s.files - {f}, s.records, s.leftovers, s.lost)
      case RemovalFails =>
        if s.handlers[h].pc.DroppingRecorded? then before == after == {} && SameBut(s, t, s.files, s.records, s.leftovers, s.lost)
        else exists f :: before == {f} && after == {} && SameBut(s, t, s.files, s.records, s.leftovers[f := RemovalFailed], s.lost)
      case _ => before == after && SameBut(s, t, s.files, s.records, s.leftovers, s.lost)
    ensures e != InsertedUnreported ==> !StepHandler(s, h, e).value.handlers[h].pc.DroppingRecorded?
  {
    if Held(s.handlers[h].pc) != {} {
      assert Held(s.handlers[h].pc) == {s.handlers[h].pc.file};
    }
  }

  predicate SameBut(s: State, t: State, files: set<nat>, records: map<nat, nat>, leftovers: map<nat, Cause>, lost: set<nat>) {
    t.files == files && t.records == records && t.leftovers == leftovers && t.lost == lost
  }

  // Reassigning one handler's file: it gives up `before` and takes `after`.
  lemma FilesStayAccounted(s: State, t: State, h: nat, before: set<nat>, after: set<nat>)
    requires NoStrayFiles(s)
    requires forall g, f :: g != h && HeldBy(s, g, f) ==> HeldBy(t, g, f)
    requires forall f :: HeldBy(s, h, f) ==> f in before
    requires forall f :: f in after ==> HeldBy(t, h, f)
    requires forall id, f :: RecordedAs(s, id, f) ==> RecordedAs(t, id, f)
    requires s.leftovers.Keys <= t.leftovers.Keys
    requires forall f :: f in t.files ==> f in s.files || f in after || f in t.leftovers
    requires forall f :: f in before && f in t.files ==> f in after || f in t.leftovers || exists id :: RecordedAs(t, id, f)
    ensures NoStrayFiles(t)
  {
    forall f | f in t.files ensures Accounted(t, f) {
      if f in s.files && f !in after && f !in t.leftovers {
        assert Accounted(s, f);
        if g :| HeldBy(s, g, f) {
          if g != h { assert HeldBy(t, g, f); }
        } else {
          var i :| RecordedAs(s, i, f);
          assert RecordedAs(t, i, f);
        }
      } else if f in after {
        assert HeldBy(t, h, f);
      }
    }
  }

  lemma HeldFilesStay(s: State, t: State, h: nat, e: Event)
    requires FilesInv(s) && StepHandler(s, h, e) == Some(t) && !s.handlers[h].pc.DroppingRecorded?
    ensures RecordsHaveFiles(t)
    ensures forall g, f :: HeldBy(t, g, f) ==> f in t.files && forall i :: !RecordedAs(t, i, f)
    ensures forall g, k, f :: HeldBy(t, g, f) && HeldBy(t, k, f) ==> g == k
  {
    HandlerFrame(s, h, e);
    FilesEffect(s, h, e);
    assert t.lost == s.lost;
    assert forall g, f :: g != h ==> (HeldBy(t, g, f) <==> HeldBy(s, g, f));
    assert forall f :: HeldBy(t, h, f) ==> HeldBy(s, h, f) || f !in s.files + s.lost;
    assert forall i, f :: RecordedAs(t, i, f) ==> RecordedAs(s, i, f) || (HeldBy(s, h, f) && !HeldBy(t, h, f) && i == s.handlers[h].key.id);
    assert forall i, f :: RecordedAs(s, i, f) ==> RecordedAs(t, i, f);
    assert forall f :: f in s.files && f !in t.files ==> HeldBy(s, h, f) && !HeldBy(t, h, f);
    forall i, f | RecordedAs(t, i, f) ensures f in t.files <==> f !in t.lost {
      if RecordedAs(s, i, f) { assert !HeldBy(s, h, f); }
    }
    forall g, f | HeldBy(t, g, f) ensures f in t.files && forall i :: !RecordedAs(t, i, f) {
      if g != h {
        assert HeldBy(s, g, f) && !HeldBy(s, h, f);
      } else {
        assert HeldBy(s, h, f) || f !in s.files;
      }
    }
  }

  lemma DropsStayRecorded(s: State, t: State, h: nat, e: Event)
    requires FilesInv(s) && StepHandler(s, h, e) == Some(t)
    ensures forall g :: g in t.handlers && t.handlers[g].pc.DroppingRecorded? ==> RecordedAs(t, t.handlers[g].key.id, t.handlers[g].pc.file)
  {
    HandlerFrame(s, h, e);
    FilesEffect(s, h, e);
    HandlerKnowledge(s, h, e);
    forall g | g in t.handlers && t.handlers[g].pc.DroppingRecorded?
      ensures RecordedAs(t, t.handlers[g].key.id, t.handlers[g].pc.file)
    {
      if g != h { assert RecordedAs(s, s.handlers[g].key.id, s.handlers[g].pc.file); }
    }
  }

  // The removal of an object that a record names.
  lemma RecordedDropKeepsFiles(s: State, h: nat, e: Event)
    requires FilesInv(s) && StepHandler(s, h, e).Some? && s.handlers[h].pc.DroppingRecorded?
    ensures FilesInv(StepHandler(s, h, e).value)
  {
    var t, f := StepHandler(s, h, e).value, s.handlers[h].pc.file;
    HandlerFrame(s, h, e);
    FilesEffect(s, h, e);
    DropsStayRecorded(s, t, h, e);
    assert RecordedAs(s, s.handlers[h].key.id, f);
    assert forall g, x :: HeldBy(t, g, x) <==> HeldBy(s, g, x);
    assert forall i, x :: RecordedAs(t, i, x) <==> RecordedAs(s, i, x);
    FilesStayAccounted(s, t, h, {}, {});
  }

  lemma HandlerStepKeepsFiles(s: State, h: nat, e: Event)
    requires FilesInv(s) && StepHandler(s, h, e).Some?
    ensures FilesInv(StepHandler(s, h, e).value)
  {
    if s.handlers[h].pc.DroppingRecorded? {
      RecordedDropKeepsFiles(s, h, e);
    } else {
      var t := StepHandler(s, h, e).value;
      HeldFilesStay(s, t, h, e);
      DropsStayRecorded(s, t, h, e);
      HandlerFrame(s, h, e);
      FilesEffect(s, h, e);
      var id := s.handlers[h].key.id;
      assert e == Inserted || e == InsertedUnreported ==> forall f :: f in Held(s.handlers[h].pc) ==> RecordedAs(t, id, f);
      FilesStayAccounted(s, t, h, Held(s.handlers[h].pc), Held(t.handlers[h].pc));
    }
  }

  lemma StepKeepsInv(isMedia: nat -> bool, s: State, a: Action)
    requires Inv(isMedia, s) && Apply(isMedia, s, a).Some?
    ensures Inv(isMedia, Apply(isMedia, s, a).value)
  {
    StepKeepsHandlers(isMedia, s, a);
    StepKeepsDeliveries(isMedia, s, a);
    StepKeepsFiles(isMedia, s, a);
  }

  lemma {:induction false} RunKeepsInv(isMedia: nat -> bool, s: State, actions: seq<Action>)
    requires Inv(isMedia, s)
    ensures Exec(isMedia, s, actions).Some? ==> Inv(isMedia, Exec(isMedia, s, actions).value)
    decreases |actions|
  {
    if actions != [] && Apply(isMedia, s, actions[0]).Some? {
      StepKeepsInv(isMedia, s, actions[0]);
      RunKeepsInv(isMedia, Apply(isMedia, s, actions[0]).value, actions[1..]);
    }
  }

  // Main result: over any deliveries, repeated and concurrent, in any number of
  // processes that may die at any time.
  lemma AcknowledgedMeansSettled(isMedia: nat -> bool, actions: seq<Action>)
    ensures
      match Exec(isMedia, Start, actions)
      case None => true
      case Some(s) => OneHandlerPerMessage(s) && AnsweredMeansSettled(isMedia, s) && RecordsHaveFiles(s) && NoStrayFiles(s)
  {
    RunKeepsInv(isMedia, Start, actions);
    if Exec(isMedia, Start, actions).Some? {
      var s := Exec(isMedia, Start, actions).value;
      forall d, j | d in s.deliveries && s.deliveries[d].answer == Some(true) && 0 <= j < |s.deliveries[d].messages|
                    && Attributable(s.deliveries[d].messages[j])
        ensures Settled(isMedia, s, s.deliveries[d].messages[j].id.value)
      {
        assert DeliveryOk(isMedia, s, s.deliveries[d]);
      }
    }
  }

  // ------------------------------------------------------------------ what stays

  lemma {:induction false} LeftoversOnlyFrom(isMedia: nat -> bool, s: State, actions: seq<Action>)
    requires forall i :: 0 <= i < |actions| ==> !Leaves(actions[i])
    ensures Exec(isMedia, s, actions).Some? ==> Exec(isMedia, s, actions).value.leftovers == s.leftovers
    decreases |actions|
  {
    if actions != [] && Apply(isMedia, s, actions[0]).Some? {
      StepKnowledge(isMedia, s, actions[0]);
      LeftoversOnlyFrom(isMedia, Apply(isMedia, s, actions[0]).value, actions[1..]);
    }
  }

  // Unless a removal fails, an upload lands although it reported an error, or a
  // process dies, every uploaded file is recorded or still being handled.
  lemma UnrecordedUploadsAreRemoved(isMedia: nat -> bool, actions: seq<Action>, f: nat)
    requires forall i :: 0 <= i < |actions| ==> !Leaves(actions[i])
    requires Exec(isMedia, Start, actions).Some? && f in Exec(isMedia, Start, actions).value.files
    ensures
      var s := Exec(isMedia, Start, actions).value;
      (exists id :: RecordedAs(s, id, f)) || (exists h :: HeldBy(s, h, f))
  {
    RunKeepsInv(isMedia, Start, actions);
    LeftoversOnlyFrom(isMedia, Start, actions);
    assert Accounted(Exec(isMedia, Start, actions).value, f);
  }

  // A recorded message keeps its first file, whatever is delivered again.
  lemma {:induction false} RecordsAreStable(isMedia: nat -> bool, s: State, actions: seq<Action>, id: nat)
    requires id in s.records
    ensures
      match Exec(isMedia, s, actions)
      case None => true
      case Some(t) => id in t.records && t.records[id] == s.records[id]
    decreases |actions|
  {
    if actions != [] && Apply(isMedia, s, actions[0]).Some? {
      StepKnowledge(isMedia, s, actions[0]);
      RecordsAreStable(isMedia, Apply(isMedia, s, actions[0]).value, actions[1..], id);
    }
  }

  // ------------------------------------------------------------------ what is lost

  // An insert that was committed but reported an error.
  predicate Unreported(a: Action) {
    a.HandlerStep? && a.event == InsertedUnreported
  }

  ghost predicate NothingLost(s: State) {
    s.lost == {} && forall h :: h in s.handlers ==> !s.handlers[h].pc.DroppingRecorded?
  }

  lemma StepLosesNothing(isMedia: nat -> bool, s: State, a: Action)
    requires NothingLost(s) && !Unreported(a) && Apply(isMedia, s, a).Some?
    ensures NothingLost(Apply(isMedia, s, a).value)
  {
    if a.HandlerStep? {
      HandlerFrame(s, a.h, a.event);
      FilesEffect(s, a.h, a.event);
    }
  }

  lemma {:induction false} RunLosesNothing(isMedia: nat -> bool, s: State, actions: seq<Action>)
    requires NothingLost(s) && forall i :: 0 <= i < |actions| ==> !Unreported(actions[i])
    ensures Exec(isMedia, s, actions).Some? ==> NothingLost(Exec(isMedia, s, actions).value)
    decreases |actions|
  {
    if actions != [] && Apply(isMedia, s, actions[0]).Some? {
      StepLosesNothing(isMedia, s, actions[0]);
      RunLosesNothing(isMedia, Apply(isMedia, s, actions[0]).value, actions[1..]);
    }
  }

  // Every record names an existing file exactly when none was lost, and none is
  // lost unless an insert was committed without being reported.
  lemma RecordedFilesExistIff(isMedia: nat -> bool, actions: seq<Action>)
    requires Exec(isMedia, Start, actions).Some?
    ensures
      var s := Exec(isMedia, Start, actions).value;
      (forall id, f :: RecordedAs(s, id, f) ==> f in s.files) <==> s.lost == {}
    ensures (forall i :: 0 <= i < |actions| ==> !Unreported(actions[i])) ==> Exec(isMedia, Start, actions).value.lost == {}
  {
    RunKeepsInv(isMedia, Start, actions);
    if forall i :: 0 <= i < |actions| ==> !Unreported(actions[i]) { RunLosesNothing(isMedia, Start, actions); }
  }

  ghost predicate Reached(isMedia: nat -> bool, s: State) {
    exists run :: Exec(isMedia, Start, run) == Some(s)
  }

  lemma {:induction false} ExecOneMore(isMedia: nat -> bool, s: State, run: seq<Action>, t: State, a: Action)
    requires Exec(isMedia, s, run) == Some(t) && Apply(isMedia, t, a).Some?
    ensures Exec(isMedia, s, run + [a]) == Apply(isMedia, t, a)
    decreases |run|
  {
    if run == [] {
      assert ([] + [a])[1..] == [];
      assert Exec(isMedia, Apply(isMedia, t, a).value, []) == Apply(isMedia, t, a);
    } else {
      assert (run + [a])[0] == run[0] && (run + [a])[1..] == run[1..] + [a];
      ExecOneMore(isMedia, Apply(isMedia, s, run[0]).value, run[1..], t, a);
    }
  }

  lemma Next(isMedia: nat -> bool, s: State, a: Action) returns (t: State)
    requires Reached(isMedia, s) && Apply(isMedia, s, a).Some?
    ensures Apply(isMedia, s, a) == Some(t) && Reached(isMedia, t)
  {
    var run :| Exec(isMedia, Start, run) == Some(s);
    ExecOneMore(isMedia, Start, run, s, a);
    t := Apply(isMedia, s, a).value;
  }

  lemma HandlerNext(isMedia: nat -> bool, s: State, h: nat, e: Event) returns (t: State)
    requires Reached(isMedia, s) && StepHandler(s, h, e).Some?
    ensures StepHandler(s, h, e) == Some(t) && Reached(isMedia, t)
  {
    t := Next(isMedia, s, HandlerStep(h, e));
  }

  const Photo := [Message(Some(1), true)]
  const PhotoKey := Key(0, 1)

  // A delivery of one photo starts its handler,
  lemma StartedBy(isMedia: nat -> bool, s: State, d: nat) returns (t: State)
    requires isMedia(1) && Reached(isMedia, s) && PhotoKey !in s.cache && d !in s.deliveries && d !in s.handlers
    ensures Reached(isMedia, t) && t.files == s.files && t.lost == s.lost && t.records == s.records
    ensures t.handlers == s.handlers[d := Handler(PhotoKey, Downloading)] && t.cache == s.cache[PhotoKey := InProgress]
    ensures t.deliveries == s.deliveries[d := Delivery(0, Photo, 0, true, Some(d), None)]
  {
    var v := Delivery(0, Photo, 0, true, None, None);
    var u := Next(isMedia, s, Deliver(d, 0, Photo));
    assert u.deliveries == s.deliveries[d := v] && Current(v) == Photo[0] && KeyOf(v) == PhotoKey;
    t := Next(isMedia, u, ClaimMessage(d, d));
    assert s.deliveries[d := v][d := v.(awaiting := Some(d))] == s.deliveries[d := v.(awaiting := Some(d))];
  }

  // which has uploaded the file f.
  lemma UploadedBy(isMedia: nat -> bool, s: State, d: nat, f: nat) returns (t: State)
    requires isMedia(1) && Reached(isMedia, s) && PhotoKey !in s.cache && d !in s.deliveries && d !in s.handlers
    requires f !in s.files && f !in s.lost
    ensures Reached(isMedia, t) && t.files == s.files + {f} && t.lost == s.lost && t.records == s.records
    ensures t.handlers == s.handlers[d := Handler(PhotoKey, Inserting(f))] && t.cache == s.cache[PhotoKey := InProgress]
    ensures t.deliveries == s.deliveries[d := Delivery(0, Photo, 0, true, Some(d), None)]
  {
    var u := StartedBy(isMedia, s, d);
    u := HandlerNext(isMedia, u, d, Downloaded);
    assert u.handlers[d] == Handler(PhotoKey, Uploading);
    t := HandlerNext(isMedia, u, d, Uploaded(f));
    assert t.handlers == s.handlers[d := Handler(PhotoKey, Inserting(f))];
  }

  // The handler of a delivery is done, and the delivery is answered.
  lemma AnsweredAs(isMedia: nat -> bool, s: State, d: nat, ok: bool) returns (t: State)
    requires Reached(isMedia, s) && d in s.handlers && s.handlers[d] == Handler(PhotoKey, Concluding(ok))
    requires d in s.deliveries && s.deliveries[d] == Delivery(0, Photo, 0, true, Some(d), None)
    ensures Reached(isMedia, t) && t.files == s.files && t.records == s.records && t.lost == s.lost
    ensures t.deliveries == s.deliveries[d := Delivery(0, Photo, 1, ok, None, Some(ok))] && t.handlers.Keys == s.handlers.Keys
    ensures !ok ==> t.cache == s.cache - {PhotoKey}
  {
    t := HandlerNext(isMedia, s, d, Conclude);
    assert t.handlers == s.handlers[d := Handler(PhotoKey, Finished(ok))];
    t := Answered(isMedia, t, d, ok);
  }

  lemma Answered(isMedia: nat -> bool, s: State, d: nat, ok: bool) returns (t: State)
    requires Reached(isMedia, s) && d in s.handlers && s.handlers[d].pc == Finished(ok)
    requires d in s.deliveries && s.deliveries[d] == Delivery(0, Photo, 0, true, Some(d), None)
    ensures Reached(isMedia, t) && t.files == s.files && t.records == s.records && t.lost == s.lost
    ensures t.deliveries == s.deliveries[d := Delivery(0, Photo, 1, ok, None, Some(ok))] && t.handlers == s.handlers && t.cache == s.cache
  {
    t := Next(isMedia, s, Resume(d));
    assert t.deliveries == s.deliveries[d := Delivery(0, Photo, 1, ok, None, None)];
    t := Next(isMedia, t, Answer(d));
    assert t.deliveries == s.deliveries[d := Delivery(0, Photo, 1, ok, None, Some(ok))];
  }

  lemma FileLost(isMedia: nat -> bool) returns (t: State)
    requires isMedia(1)
    ensures Reached(isMedia, t) && t.records == map[1 := 7] && t.files == {} && t.lost == {7} && t.cache.Keys == {PhotoKey}
    ensures t.handlers == map[0 := Handler(PhotoKey, Concluding(false))]
    ensures t.deliveries == map[0 := Delivery(0, Photo, 0, true, Some(0), None)]
  {
    assert Exec(isMedia, Start, []) == Some(Start);
    t := UploadedBy(isMedia, Start, 0, 7);
    t := HandlerNext(isMedia, t, 0, InsertedUnreported);
    assert t.handlers == map[0 := Handler(PhotoKey, DroppingRecorded(7))];
    t := HandlerNext(isMedia, t, 0, Removed);
    assert t.files == {} && t.lost == {7};
  }

  lemma FirstDelivery(isMedia: nat -> bool) returns (t: State)
    requires isMedia(1)
    ensures Reached(isMedia, t) && t.records == map[1 := 7] && t.files == {} && t.lost == {7}
    ensures t.deliveries.Keys == {0} && t.handlers.Keys == {0} && PhotoKey !in t.cache
  {
    t := FileLost(isMedia);
    t := AnsweredAs(isMedia, t, 0, false);
  }

  lemma SecondDelivery(isMedia: nat -> bool) returns (t: State)
    requires isMedia(1)
    ensures Reached(isMedia, t) && t.records == map[1 := 7] && 7 !in t.files
    ensures 1 in t.handlers && t.handlers[1] == Handler(PhotoKey, Concluding(true))
    ensures 1 in t.deliveries && t.deliveries[1] == Delivery(0, Photo, 0, true, Some(1), None)
  {
    t := FirstDelivery(isMedia);
    t := UploadedBy(isMedia, t, 1, 8);
    t := HandlerNext(isMedia, t, 1, FoundDuplicate);
    assert t.handlers[1] == Handler(PhotoKey, DroppingDuplicate(8));
    t := HandlerNext(isMedia, t, 1, Removed);
  }

  // With one, a message can be acknowledged whose file is gone: the upload is
  // removed after its row was committed, and the redelivery finds the row.
  lemma AcknowledgedFileCanBeLost(isMedia: nat -> bool)
    requires isMedia(1)
    ensures exists run, d ::
      && Exec(isMedia, Start, run).Some?
      && var s := Exec(isMedia, Start, run).value;
         && d in s.deliveries && s.deliveries[d].messages == Photo && s.deliveries[d].answer == Some(true)
         && RecordedAs(s, 1, 7) && 7 !in s.files
  {
    var t := SecondDelivery(isMedia);
    t := AnsweredAs(isMedia, t, 1, true);
    var run :| Exec(isMedia, Start, run) == Some(t);
    assert t.deliveries[1].answer == Some(true);
  }

  // ------------------------------------------------------------------ redelivery

  // Every message still to come of a delivery was handled before, or is ignored.
  predicate AllHandledBefore(s: State, p: nat, messages: seq<Message>) {
    forall j :: 0 <= j < |messages| && Attributable(messages[j]) ==> CacheIs(s, Key(p, messages[j].id.value), Processed)
  }

  function SkipSteps(d: nat, messages: seq<Message>): seq<Action> {
    if messages == [] then [Answer(d)]
    else [if Attributable(messages[0]) then SkipProcessed(d) else Ignore(d)] + SkipSteps(d, messages[1..])
  }

  lemma {:induction false} SkippingAnswers(isMedia: nat -> bool, s: State, d: nat)
    requires d in s.deliveries
    requires
      var v := s.deliveries[d];
      && v.awaiting.None? && v.answer.None? && v.allHandled && v.index <= |v.messages|
      && AllHandledBefore(s, v.process, v.messages[v.index..])
    ensures
      var v := s.deliveries[d];
      Exec(isMedia, s, SkipSteps(d, v.messages[v.index..]))
        == Some(s.(deliveries := s.deliveries[d := v.(index := |v.messages|, answer := Some(true))]))
    decreases |s.deliveries[d].messages| - s.deliveries[d].index
  {
    var v := s.deliveries[d];
    var rest := v.messages[v.index..];
    if rest == [] {
      var t := StepAnswer(s, d).value;
      assert Exec(isMedia, s, [Answer(d)]) == Exec(isMedia, t, []);
    } else {
      assert rest[0] == Current(v) && rest[1..] == v.messages[v.index + 1..];
      var step := if Attributable(rest[0]) then SkipProcessed(d) else Ignore(d);
      var t := s.(deliveries := s.deliveries[d := Advance(v, true)]);
      assert Apply(isMedia, s, step) == Some(t);
      forall j | 0 <= j < |rest[1..]| && Attributable(rest[1..][j])
        ensures CacheIs(t, Key(v.process, rest[1..][j].id.value), Processed)
      {
        assert rest[1..][j] == rest[j + 1];
      }
      SkippingAnswers(isMedia, t, d);
      assert SkipSteps(d, rest)[1..] == SkipSteps(d, rest[1..]);
      var answered := v.(index := |v.messages|, answer := Some(true));
      assert Advance(v, true).(index := |v.messages|, answer := Some(true)) == answered;
      assert t.deliveries[d := answered] == s.deliveries[d := answered];
    }
  }

  // A delivery sent again after all its messages were handled is answered 200
  // without a single handler: no record, file or cache entry changes.
  lemma RedeliveryIsAcknowledged(isMedia: nat -> bool, s: State, d: nat, p: nat, messages: seq<Message>)
    requires d !in s.deliveries && AllHandledBefore(s, p, messages)
    ensures Exec(isMedia, s, [Deliver(d, p, messages)] + SkipSteps(d, messages))
         == Some(s.(deliveries := s.deliveries[d := Delivery(p, messages, |messages|, true, None, Some(true))]))
  {
    var t := Apply(isMedia, s, Deliver(d, p, messages)).value;
    assert t.deliveries[d].messages[0..] == messages;
    SkippingAnswers(isMedia, t, d);
    var answered := Delivery(p, messages, |messages|, true, None, Some(true));
    assert t.deliveries[d := answered] == s.deliveries[d := answered];
    assert ([Deliver(d, p, messages)] + SkipSteps(d, messages))[1..] == SkipSteps(d, messages);
  }
}
