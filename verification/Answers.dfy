/** What a webhook delivery is answered (src/routes/whatsapp.js): the converse of
    module Webhook's promise. A message that was recorded or refused counts as
    handled, and a delivery gets a 500 for nothing else than a failure or for
    giving up waiting. */
module Answers {
  import opened Common
  import opened MessageCache
  import opened Webhook

  // ------------------------------------------------------------------ history

  // Which of the present handlers met a failure, and which of the present
  // deliveries gave up waiting or had a handler that failed.
  datatype History = History(failed: set<nat>, spoiled: set<nat>)

  predicate Failure(e: Event) {
    e.DownloadFails? || e.UploadFails? || e.InsertFails? || e.InsertedUnreported?
  }

  function Note(s: State, past: History, a: Action): History {
    match a
    case Deliver(d, _, _) => past.(spoiled := past.spoiled - {d})
    case ClaimMessage(_, h) => past.(failed := past.failed - {h})
    case HandlerStep(h, e) => if Failure(e) then past.(failed := past.failed + {h}) else past
    case StopWaiting(d, _) => past.(spoiled := past.spoiled + {d})
    case Resume(d) =>
      if d in s.deliveries && s.deliveries[d].awaiting.Some? && s.deliveries[d].awaiting.value in past.failed
      then past.(spoiled := past.spoiled + {d}) else past
    case _ => past
  }

  function Past(isMedia: nat -> bool, s: State, past: History, actions: seq<Action>): History
    decreases |actions|
  {
    if actions == [] then past
    else match Apply(isMedia, s, actions[0])
      case None => past
      case Some(next) => Past(isMedia, next, Note(s, past, actions[0]), actions[1..])
  }

  // ------------------------------------------------------------------ invariant

  predicate OnItsWayOut(pc: Pc) {
    pc == Concluding(false) || pc == Finished(false) || pc.DroppingFailed? || pc.DroppingRecorded?
  }

  ghost predicate HandlersTold(s: State, past: History) {
    forall h :: h in s.handlers ==>
      && (OnItsWayOut(s.handlers[h].pc) <==> h in past.failed)
      && (s.handlers[h].pc == Finished(true) ==> CacheIs(s, s.handlers[h].key, Processed))
  }

  ghost predicate DeliveriesTold(s: State, past: History) {
    forall d :: d in s.deliveries ==> (s.deliveries[d].allHandled <==> d !in past.spoiled)
  }

  lemma HandlerEventIsTold(s: State, past: History, h: nat, e: Event)
    requires StepHandler(s, h, e).Some? && (OnItsWayOut(s.handlers[h].pc) <==> h in past.failed)
    ensures
      var t, now := StepHandler(s, h, e).value, Note(s, past, HandlerStep(h, e));
      && h in t.handlers && (OnItsWayOut(t.handlers[h].pc) <==> h in now.failed)
      && (t.handlers[h].pc == Finished(true) ==> CacheIs(t, t.handlers[h].key, Processed))
  {
  }

  // Only the conclusion of a handler, which is running until then, changes the cache.
  lemma OtherCacheEntriesStay(isMedia: nat -> bool, s: State, h: nat, e: Event, k: Key)
    requires HandlersInv(isMedia, s) && StepHandler(s, h, e).Some? && CacheIs(s, k, Processed)
    ensures CacheIs(StepHandler(s, h, e).value, k, Processed)
  {
    assert HandlerOk(isMedia, s, h);
  }

  lemma HandlerStepIsTold(isMedia: nat -> bool, s: State, past: History, h: nat, e: Event)
    requires HandlersInv(isMedia, s) && HandlersTold(s, past) && StepHandler(s, h, e).Some?
    ensures HandlersTold(StepHandler(s, h, e).value, Note(s, past, HandlerStep(h, e)))
  {
    var t := StepHandler(s, h, e).value;
    HandlerFrame(s, h, e);
    HandlerEventIsTold(s, past, h, e);
    forall g | g in t.handlers && g != h && t.handlers[g].pc == Finished(true) ensures CacheIs(t, t.handlers[g].key, Processed) {
      OtherCacheEntriesStay(isMedia, s, h, e, s.handlers[g].key);
    }
  }

  lemma StepIsTold(isMedia: nat -> bool, s: State, past: History, a: Action)
    requires HandlersInv(isMedia, s) && HandlersTold(s, past) && Apply(isMedia, s, a).Some?
    ensures HandlersTold(Apply(isMedia, s, a).value, Note(s, past, a))
  {
    if a.HandlerStep? { HandlerStepIsTold(isMedia, s, past, a.h, a.event); }
  }

  lemma DeliveryStepIsTold(isMedia: nat -> bool, s: State, past: History, a: Action)
    requires HandlersTold(s, past) && DeliveriesTold(s, past) && Apply(isMedia, s, a).Some?
    ensures DeliveriesTold(Apply(isMedia, s, a).value, Note(s, past, a))
  {
    if a.HandlerStep? { HandlerFrame(s, a.h, a.event); }
  }

  lemma {:induction false} RunIsTold(isMedia: nat -> bool, s: State, past: History, actions: seq<Action>)
    requires Inv(isMedia, s) && HandlersTold(s, past) && DeliveriesTold(s, past)
    ensures
      match Exec(isMedia, s, actions)
      case None => true
      case Some(t) => HandlersTold(t, Past(isMedia, s, past, actions)) && DeliveriesTold(t, Past(isMedia, s, past, actions)) && Inv(isMedia, t)
    decreases |actions|
  {
    if actions != [] && Apply(isMedia, s, actions[0]).Some? {
      StepKeepsInv(isMedia, s, actions[0]);
      StepIsTold(isMedia, s, past, actions[0]);
      DeliveryStepIsTold(isMedia, s, past, actions[0]);
      RunIsTold(isMedia, Apply(isMedia, s, actions[0]).value, Note(s, past, actions[0]), actions[1..]);
    }
  }

  // Main result: over all runs, a handler ends as failed if and only if the
  // download, the upload or the insert failed for it (or the insert reported an
  // error); otherwise its message is PROCESSED in its process's cache. A
  // delivery is answered 200 if and only if none of its handlers failed and it
  // gave up waiting for none.
  lemma AnswersMeaning(isMedia: nat -> bool, actions: seq<Action>)
    requires Exec(isMedia, Start, actions).Some?
    ensures
      var s, past := Exec(isMedia, Start, actions).value, Past(isMedia, Start, History({}, {}), actions);
      && (forall h :: h in s.handlers && s.handlers[h].pc.Finished? ==>
            && (s.handlers[h].pc.ok <==> h !in past.failed)
            && (s.handlers[h].pc.ok ==> CacheIs(s, s.handlers[h].key, Processed)))
      && (forall d :: d in s.deliveries && s.deliveries[d].answer.Some? ==> (s.deliveries[d].answer.value <==> d !in past.spoiled))
  {
    RunIsTold(isMedia, Start, History({}, {}), actions);
    var s := Exec(isMedia, Start, actions).value;
    forall d | d in s.deliveries && s.deliveries[d].answer.Some? ensures s.deliveries[d].answer.value == s.deliveries[d].allHandled {
      assert DeliveryOk(isMedia, s, s.deliveries[d]);
    }
  }

  // ------------------------------------------------------------------ giving up

  // A message is in progress while its handler runs, and then the handler is in
  // flight, unless an earlier one failed and its delivery took it out again.
  ghost predicate InFlightInv(s: State) {
    && (forall k :: CacheIs(s, k, InProgress) ==> exists h :: IsRunning(s, h) && s.handlers[h].key == k)
    && (forall h :: IsRunning(s, h) && s.handlers[h].key !in s.inFlight ==> FailedBefore(s, s.handlers[h].key))
  }

  ghost predicate FailedBefore(s: State, k: Key) {
    exists g :: g in s.handlers && s.handlers[g] == Handler(k, Finished(false))
  }

  lemma ClaimKeepsInFlight(isMedia: nat -> bool, s: State, d: nat, h: nat)
    requires HandlersInv(isMedia, s) && InFlightInv(s) && StepClaim(isMedia, s, d, h).Some?
    ensures InFlightInv(StepClaim(isMedia, s, d, h).value)
  {
    var t := StepClaim(isMedia, s, d, h).value;
    var k := t.handlers[h].key;
    assert IsRunning(t, h);
    forall x | CacheIs(t, x, InProgress) ensures exists g :: IsRunning(t, g) && t.handlers[g].key == x {
      if x != k {
        assert CacheIs(s, x, InProgress);
        var g :| IsRunning(s, g) && s.handlers[g].key == x;
        assert IsRunning(t, g);
      }
    }
    forall g | IsRunning(t, g) && t.handlers[g].key !in t.inFlight ensures FailedBefore(t, t.handlers[g].key) {
      assert g != h && IsRunning(s, g);
      var f :| f in s.handlers && s.handlers[f] == Handler(s.handlers[g].key, Finished(false));
      assert t.handlers[f] == s.handlers[f];
    }
  }

  lemma HandlerStepKeepsInFlight(isMedia: nat -> bool, s: State, h: nat, e: Event)
    requires HandlersInv(isMedia, s) && InFlightInv(s) && StepHandler(s, h, e).Some?
    ensures InFlightInv(StepHandler(s, h, e).value)
  {
    var t := StepHandler(s, h, e).value;
    HandlerFrame(s, h, e);
    InFlightStays(s, h, e);
    assert IsRunning(s, h) && HandlerOk(isMedia, s, h);
    forall x | CacheIs(t, x, InProgress) ensures exists g :: IsRunning(t, g) && t.handlers[g].key == x {
      assert CacheIs(s, x, InProgress);
      var g :| IsRunning(s, g) && s.handlers[g].key == x;
      assert IsRunning(t, g);
    }
    forall g | IsRunning(t, g) && t.handlers[g].key !in t.inFlight ensures FailedBefore(t, t.handlers[g].key) {
      assert IsRunning(s, g);
      var f :| f in s.handlers && s.handlers[f] == Handler(s.handlers[g].key, Finished(false));
      assert f != h && t.handlers[f] == s.handlers[f];
    }
  }

  lemma InFlightStays(s: State, h: nat, e: Event)
    requires StepHandler(s, h, e).Some?
    ensures
      var t := StepHandler(s, h, e).value;
      && t.inFlight == s.inFlight && !s.handlers[h].pc.Finished?
      && (t.handlers[h].pc.Finished? <==> e == Conclude)
      && (e != Conclude ==> t.cache == s.cache)
      && (e == Conclude ==> !CacheIs(t, s.handlers[h].key, InProgress))
      && (forall k :: k != s.handlers[h].key ==> (k in t.cache <==> k in s.cache) && (k in t.cache ==> t.cache[k] == s.cache[k]))
  {
  }

  lemma ResumeKeepsInFlight(isMedia: nat -> bool, s: State, past: History, d: nat)
    requires HandlersInv(isMedia, s) && HandlersTold(s, past) && InFlightInv(s) && StepResume(s, d).Some?
    ensures InFlightInv(StepResume(s, d).value)
  {
    var t, f := StepResume(s, d).value, s.deliveries[d].awaiting.value;
    forall x | CacheIs(t, x, InProgress) ensures exists g :: IsRunning(t, g) && t.handlers[g].key == x {
      assert CacheIs(s, x, InProgress);
      var g :| IsRunning(s, g) && s.handlers[g].key == x;
      assert IsRunning(t, g);
    }
    forall g | IsRunning(t, g) && t.handlers[g].key !in t.inFlight ensures FailedBefore(t, t.handlers[g].key) {
      assert IsRunning(s, g) && HandlerOk(isMedia, s, g);
      if s.handlers[g].key in s.inFlight {
        assert s.handlers[f] == Handler(s.handlers[g].key, Finished(false));
      } else {
        var b :| b in s.handlers && s.handlers[b] == Handler(s.handlers[g].key, Finished(false));
        assert t.handlers[b] == s.handlers[b];
      }
    }
  }

  lemma RestartKeepsInFlight(s: State, p: nat)
    requires InFlightInv(s)
    ensures InFlightInv(StepRestart(s, p))
  {
    var t := StepRestart(s, p);
    forall x | CacheIs(t, x, InProgress) ensures exists g :: IsRunning(t, g) && t.handlers[g].key == x {
      assert CacheIs(s, x, InProgress);
      var g :| IsRunning(s, g) && s.handlers[g].key == x;
      assert IsRunning(t, g);
    }
    forall g | IsRunning(t, g) && t.handlers[g].key !in t.inFlight ensures FailedBefore(t, t.handlers[g].key) {
      assert IsRunning(s, g) && s.handlers[g].key !in s.inFlight;
      var f :| f in s.handlers && s.handlers[f] == Handler(s.handlers[g].key, Finished(false));
      assert t.handlers[f] == s.handlers[f];
    }
  }

  lemma SameInFlight(s: State, t: State)
    requires InFlightInv(s) && t.cache == s.cache && t.handlers == s.handlers && t.inFlight == s.inFlight
    ensures InFlightInv(t)
  {
    forall x | CacheIs(t, x, InProgress) ensures exists g :: IsRunning(t, g) && t.handlers[g].key == x {
      assert CacheIs(s, x, InProgress);
      var g :| IsRunning(s, g) && s.handlers[g].key == x;
      assert IsRunning(t, g);
    }
    forall g | IsRunning(t, g) && t.handlers[g].key !in t.inFlight ensures FailedBefore(t, t.handlers[g].key) {
      assert IsRunning(s, g) && FailedBefore(s, s.handlers[g].key);
    }
  }

  lemma StepKeepsInFlight(isMedia: nat -> bool, s: State, past: History, a: Action)
    requires HandlersInv(isMedia, s) && HandlersTold(s, past) && InFlightInv(s) && Apply(isMedia, s, a).Some?
    ensures InFlightInv(Apply(isMedia, s, a).value)
  {
    match a
    case ClaimMessage(d, h) => ClaimKeepsInFlight(isMedia, s, d, h);
    case HandlerStep(h, e) => HandlerStepKeepsInFlight(isMedia, s, h, e);
    case Resume(d) => ResumeKeepsInFlight(isMedia, s, past, d);
    case Restart(p) => RestartKeepsInFlight(s, p);
    case _ => SameInFlight(s, Apply(isMedia, s, a).value);
  }

  lemma {:induction false} RunKeepsInFlight(isMedia: nat -> bool, s: State, past: History, actions: seq<Action>)
    requires Inv(isMedia, s) && HandlersTold(s, past) && InFlightInv(s)
    ensures Exec(isMedia, s, actions).Some? ==> InFlightInv(Exec(isMedia, s, actions).value)
    decreases |actions|
  {
    if actions != [] && Apply(isMedia, s, actions[0]).Some? {
      StepKeepsInv(isMedia, s, actions[0]);
      StepIsTold(isMedia, s, past, actions[0]);
      StepKeepsInFlight(isMedia, s, past, actions[0]);
      RunKeepsInFlight(isMedia, Apply(isMedia, s, actions[0]).value, Note(s, past, actions[0]), actions[1..]);
    }
  }

  // Main result: a delivery gives up waiting only for a message that another
  // handler of its process is at, and before the time is over only if an
  // earlier handler of that message failed.
  lemma GivesUpOnly(isMedia: nat -> bool, actions: seq<Action>, d: nat, timedOut: bool)
    requires Exec(isMedia, Start, actions).Some?
    requires Apply(isMedia, Exec(isMedia, Start, actions).value, StopWaiting(d, timedOut)).Some?
    ensures
      var s := Exec(isMedia, Start, actions).value;
      && AtMessage(s, d) && Attributable(Current(s.deliveries[d]))
      && var k := KeyOf(s.deliveries[d]);
         && (exists h :: IsRunning(s, h) && s.handlers[h].key == k)
         && (timedOut || FailedBefore(s, k))
  {
    RunIsTold(isMedia, Start, History({}, {}), actions);
    RunKeepsInFlight(isMedia, Start, History({}, {}), actions);
    var s := Exec(isMedia, Start, actions).value;
    var k := KeyOf(s.deliveries[d]);
    assert CacheIs(s, k, InProgress);
    var h :| IsRunning(s, h) && s.handlers[h].key == k;
    assert !timedOut ==> k !in s.inFlight;
  }

  // ------------------------------------------------------------------ one delivery

  // How the handling of one message may go.
  datatype Course =
    | NotMedia | RefusedFile | Recorded(file: nat) | RecordedBefore(file: nat)
    | DownloadFailed | UploadFailed | InsertFailed(file: nat)

  predicate MayHappen(isMedia: nat -> bool, s: State, id: nat, c: Course) {
    && (isMedia(id) <==> !c.NotMedia?)
    && (c.Recorded? || c.RecordedBefore? || c.InsertFailed? ==> c.file !in s.files && c.file !in s.lost)
    && (c.Recorded? ==> id !in s.records)
    && (c.RecordedBefore? ==> id in s.records)
  }

  function Events(c: Course): seq<Event> {
    match c
    case NotMedia => []
    case RefusedFile => [Refused]
    case Recorded(f) => [Downloaded, Uploaded(f), Inserted]
    case RecordedBefore(f) => [Downloaded, Uploaded(f), FoundDuplicate, Removed]
    case DownloadFailed => [DownloadFails]
    case UploadFailed => [Downloaded, UploadFails(None)]
    case InsertFailed(f) => [Downloaded, Uploaded(f), InsertFails, Removed]
  }

  // Meta need not send it again.
  predicate Handled(c: Course) {
    c.NotMedia? || c.RefusedFile? || c.Recorded? || c.RecordedBefore?
  }

  function Steps(h: nat, events: seq<Event>): seq<Action> {
    if events == [] then [] else [HandlerStep(h, events[0])] + Steps(h, events[1..])
  }

  // The state after the handler of such a course is about to conclude.
  function Worked(s: State, h: nat, c: Course): State
    requires h in s.handlers
  {
    var id := s.handlers[h].key.id;
    At(s, h, Concluding(Handled(c))).(
      records := if c.Recorded? then s.records[id := c.file] else s.records,
      refused := if c.RefusedFile? then s.refused + {id} else s.refused,
      files := if c.Recorded? then s.files + {c.file} else s.files)
  }

  lemma ExecCons(isMedia: nat -> bool, s: State, a: Action, rest: seq<Action>)
    requires Apply(isMedia, s, a).Some?
    ensures Exec(isMedia, s, [a] + rest) == Exec(isMedia, Apply(isMedia, s, a).value, rest)
  {
    assert ([a] + rest)[1..] == rest;
  }

  lemma StepsCons(isMedia: nat -> bool, s: State, h: nat, e: Event, events: seq<Event>, rest: seq<Action>)
    requires StepHandler(s, h, e).Some?
    ensures Exec(isMedia, s, Steps(h, [e] + events) + rest) == Exec(isMedia, StepHandler(s, h, e).value, Steps(h, events) + rest)
  {
    assert ([e] + events)[1..] == events;
    assert Steps(h, [e] + events) + rest == [HandlerStep(h, e)] + (Steps(h, events) + rest);
    ExecCons(isMedia, s, HandlerStep(h, e), Steps(h, events) + rest);
  }

  lemma NoSteps(h: nat, rest: seq<Action>)
    ensures Steps(h, []) + rest == rest
  {
  }

  lemma TwoUpdates(s: State, h: nat, a: Pc, b: Pc)
    requires h in s.handlers
    ensures At(At(s, h, a), h, b) == At(s, h, b)
  {
    assert At(At(s, h, a), h, b).handlers == At(s, h, b).handlers;
  }

  // Short courses,
  lemma ShortCourse(isMedia: nat -> bool, s: State, h: nat, c: Course, e: Event, rest: seq<Action>)
    requires h in s.handlers && s.handlers[h].pc == Downloading
    requires if c.RefusedFile? then e == Refused else c.DownloadFailed? && e == DownloadFails
    ensures Exec(isMedia, s, Steps(h, Events(c)) + rest) == Exec(isMedia, Worked(s, h, c), rest)
  {
    NoSteps(h, rest);
    assert Events(c) == [e] + [];
    StepsCons(isMedia, s, h, e, [], rest);
  }

  lemma FailedUploadCourse(isMedia: nat -> bool, s: State, h: nat, rest: seq<Action>)
    requires h in s.handlers && s.handlers[h].pc == Downloading
    ensures Exec(isMedia, s, Steps(h, Events(UploadFailed)) + rest) == Exec(isMedia, Worked(s, h, UploadFailed), rest)
  {
    NoSteps(h, rest);
    var s1 := StepHandler(s, h, Downloaded).value;
    assert Events(UploadFailed) == [Downloaded] + ([UploadFails(None)] + []);
    StepsCons(isMedia, s, h, Downloaded, [UploadFails(None)] + [], rest);
    StepsCons(isMedia, s1, h, UploadFails(None), [], rest);
    TwoUpdates(s, h, Uploading, Concluding(false));
  }

  lemma Uploads(isMedia: nat -> bool, s: State, h: nat, f: nat, events: seq<Event>, rest: seq<Action>)
    requires h in s.handlers && s.handlers[h].pc == Downloading && f !in s.files && f !in s.lost
    ensures Exec(isMedia, s, Steps(h, [Downloaded, Uploaded(f)] + events) + rest)
         == Exec(isMedia, At(s, h, Inserting(f)).(files := s.files + {f}), Steps(h, events) + rest)
  {
    var s1 := StepHandler(s, h, Downloaded).value;
    assert [Downloaded, Uploaded(f)] + events == [Downloaded] + ([Uploaded(f)] + events);
    StepsCons(isMedia, s, h, Downloaded, [Uploaded(f)] + events, rest);
    StepsCons(isMedia, s1, h, Uploaded(f), events, rest);
    TwoUpdates(s, h, Uploading, Inserting(f));
  }

  // and those that upload the file: it is recorded,
  lemma RecordedCourse(isMedia: nat -> bool, s: State, h: nat, f: nat, rest: seq<Action>)
    requires h in s.handlers && s.handlers[h].pc == Downloading && f !in s.files && f !in s.lost && s.handlers[h].key.id !in s.records
    ensures Exec(isMedia, s, Steps(h, Events(Recorded(f))) + rest) == Exec(isMedia, Worked(s, h, Recorded(f)), rest)
  {
    var t := At(s, h, Inserting(f)).(files := s.files + {f});
    assert Events(Recorded(f)) == [Downloaded, Uploaded(f)] + ([Inserted] + []);
    Uploads(isMedia, s, h, f, [Inserted] + [], rest);
    StepsCons(isMedia, t, h, Inserted, [], rest);
    NoSteps(h, rest);
    TwoUpdates(s, h, Inserting(f), Concluding(true));
  }

  // or removed again.
  lemma DroppedCourse(isMedia: nat -> bool, s: State, h: nat, c: Course, e: Event, pc: Pc, rest: seq<Action>)
    requires h in s.handlers && (c.RecordedBefore? || c.InsertFailed?) && s.handlers[h].pc == Downloading
    requires c.file !in s.files && c.file !in s.lost && (c.RecordedBefore? ==> s.handlers[h].key.id in s.records)
    requires if c.RecordedBefore? then e == FoundDuplicate && pc == DroppingDuplicate(c.file) else e == InsertFails && pc == DroppingFailed(c.file)
    ensures Exec(isMedia, s, Steps(h, Events(c)) + rest) == Exec(isMedia, Worked(s, h, c), rest)
  {
    var f := c.file;
    var t := At(s, h, Inserting(f)).(files := s.files + {f});
    assert Events(c) == [Downloaded, Uploaded(f)] + ([e] + ([Removed] + []));
    Uploads(isMedia, s, h, f, [e] + ([Removed] + []), rest);
    StepsCons(isMedia, t, h, e, [Removed] + [], rest);
    TwoUpdates(s, h, Inserting(f), pc);
    var u := At(s, h, pc).(files := s.files + {f});
    assert StepHandler(t, h, e) == Some(u);
    StepsCons(isMedia, u, h, Removed, [], rest);
    NoSteps(h, rest);
    TwoUpdates(s, h, pc, Concluding(Handled(c)));
    assert s.files + {f} - {f} == s.files;
  }

  lemma CourseIsRun(isMedia: nat -> bool, s: State, h: nat, c: Course, rest: seq<Action>)
    requires h in s.handlers && MayHappen(isMedia, s, s.handlers[h].key.id, c)
    requires s.handlers[h].pc == if isMedia(s.handlers[h].key.id) then Downloading else Concluding(true)
    ensures Exec(isMedia, s, Steps(h, Events(c)) + rest) == Exec(isMedia, Worked(s, h, c), rest)
  {
    if c.NotMedia? {
      NoSteps(h, rest);
      assert s.handlers[h := s.handlers[h].(pc := Concluding(true))] == s.handlers;
    } else if c.RefusedFile? {
      ShortCourse(isMedia, s, h, c, Refused, rest);
    } else if c.DownloadFailed? {
      ShortCourse(isMedia, s, h, c, DownloadFails, rest);
    } else if c.UploadFailed? {
      FailedUploadCourse(isMedia, s, h, rest);
    } else if c.Recorded? {
      RecordedCourse(isMedia, s, h, c.file, rest);
    } else if c.RecordedBefore? {
      DroppedCourse(isMedia, s, h, c, FoundDuplicate, DroppingDuplicate(c.file), rest);
    } else {
      DroppedCourse(isMedia, s, h, c, InsertFails, DroppingFailed(c.file), rest);
    }
  }

  function Alone(d: nat, h: nat, p: nat, id: nat, c: Course): seq<Action> {
    [Deliver(d, p, [Message(Some(id), true)])]
    + ([ClaimMessage(d, h)] + (Steps(h, Events(c)) + ([HandlerStep(h, Conclude)] + ([Resume(d)] + ([Answer(d)] + [])))))
  }

  // What is left after it: the answer, the cache entry or none, the record.
  ghost predicate After(s: State, z: State, d: nat, h: nat, p: nat, id: nat, c: Course) {
    var k, ok := Key(p, id), Handled(c);
    && z.cache == (if ok then s.cache[k := Processed] else s.cache)
    && z.inFlight == s.inFlight - {k}
    && z.handlers == s.handlers[h := Handler(k, Finished(ok))]
    && z.deliveries == s.deliveries[d := Delivery(p, [Message(Some(id), true)], 1, ok, None, Some(ok))]
    && z.records == (if c.Recorded? then s.records[id := c.file] else s.records)
    && z.refused == (if c.RefusedFile? then s.refused + {id} else s.refused)
    && z.files == (if c.Recorded? then s.files + {c.file} else s.files)
    && z.leftovers == s.leftovers && z.lost == s.lost
  }

  // A delivery's first two steps.
  lemma Begins(isMedia: nat -> bool, s: State, d: nat, h: nat, p: nat, id: nat, rest: seq<Action>) returns (t: State)
    requires d !in s.deliveries && h !in s.handlers && Key(p, id) !in s.cache
    ensures Exec(isMedia, s, [Deliver(d, p, [Message(Some(id), true)])] + ([ClaimMessage(d, h)] + rest)) == Exec(isMedia, t, rest)
    ensures
      var k := Key(p, id);
      t == s.(cache := s.cache[k := InProgress], inFlight := s.inFlight + {k},
              handlers := s.handlers[h := Handler(k, if isMedia(id) then Downloading else Concluding(true))],
              deliveries := s.deliveries[d := Delivery(p, [Message(Some(id), true)], 0, true, Some(h), None)])
  {
    var u := Apply(isMedia, s, Deliver(d, p, [Message(Some(id), true)])).value;
    ExecCons(isMedia, s, Deliver(d, p, [Message(Some(id), true)]), [ClaimMessage(d, h)] + rest);
    t := StepClaim(isMedia, u, d, h).value;
    ExecCons(isMedia, u, ClaimMessage(d, h), rest);
    var v := Delivery(p, [Message(Some(id), true)], 0, true, None, None);
    assert s.deliveries[d := v][d := v.(awaiting := Some(h))] == s.deliveries[d := v.(awaiting := Some(h))];
  }

  // Its last three.
  lemma Ends(isMedia: nat -> bool, s: State, d: nat, h: nat, k: Key, m: Message, ok: bool) returns (t: State)
    requires d in s.deliveries && s.deliveries[d] == Delivery(k.process, [m], 0, true, Some(h), None)
    requires h in s.handlers && s.handlers[h] == Handler(k, Concluding(ok))
    ensures Exec(isMedia, s, [HandlerStep(h, Conclude)] + ([Resume(d)] + ([Answer(d)] + []))) == Some(t)
    ensures t == s.(cache := if ok then s.cache[k := Processed] else s.cache - {k}, inFlight := s.inFlight - {k},
                    handlers := s.handlers[h := Handler(k, Finished(ok))],
                    deliveries := s.deliveries[d := Delivery(k.process, [m], 1, ok, None, Some(ok))])
  {
    var s1 := StepHandler(s, h, Conclude).value;
    ExecCons(isMedia, s, HandlerStep(h, Conclude), [Resume(d)] + ([Answer(d)] + []));
    var s2 := StepResume(s1, d).value;
    ExecCons(isMedia, s1, Resume(d), [Answer(d)] + []);
    t := StepAnswer(s2, d).value;
    ExecCons(isMedia, s2, Answer(d), []);
    assert t.deliveries == s.deliveries[d := Delivery(k.process, [m], 1, ok, None, Some(ok))];
  }

  // Its handler is about to conclude.
  ghost predicate Midway(s: State, w: State, d: nat, h: nat, p: nat, id: nat, c: Course) {
    var k := Key(p, id);
    && w.cache == s.cache[k := InProgress]
    && w.inFlight == s.inFlight + {k}
    && w.handlers == s.handlers[h := Handler(k, Concluding(Handled(c)))]
    && w.deliveries == s.deliveries[d := Delivery(p, [Message(Some(id), true)], 0, true, Some(h), None)]
    && w.records == (if c.Recorded? then s.records[id := c.file] else s.records)
    && w.refused == (if c.RefusedFile? then s.refused + {id} else s.refused)
    && w.files == (if c.Recorded? then s.files + {c.file} else s.files)
    && w.leftovers == s.leftovers && w.lost == s.lost
  }

  lemma ReachesMidway(isMedia: nat -> bool, s: State, d: nat, h: nat, p: nat, id: nat, c: Course, rest: seq<Action>) returns (w: State)
    requires d !in s.deliveries && h !in s.handlers && Key(p, id) !in s.cache && MayHappen(isMedia, s, id, c)
    ensures Exec(isMedia, s, [Deliver(d, p, [Message(Some(id), true)])] + ([ClaimMessage(d, h)] + (Steps(h, Events(c)) + rest)))
         == Exec(isMedia, w, rest)
    ensures Midway(s, w, d, h, p, id, c)
  {
    var t := Begins(isMedia, s, d, h, p, id, Steps(h, Events(c)) + rest);
    CourseIsRun(isMedia, t, h, c, rest);
    w := Worked(t, h, c);
  }

  lemma EndsAfter(isMedia: nat -> bool, s: State, w: State, d: nat, h: nat, p: nat, id: nat, c: Course) returns (z: State)
    requires Key(p, id) !in s.cache && Midway(s, w, d, h, p, id, c)
    ensures Exec(isMedia, w, [HandlerStep(h, Conclude)] + ([Resume(d)] + ([Answer(d)] + []))) == Some(z)
    ensures After(s, z, d, h, p, id, c)
  {
    var k := Key(p, id);
    z := Ends(isMedia, w, d, h, k, Message(Some(id), true), Handled(c));
    CacheAfter(s.cache, k);
    assert s.inFlight + {k} - {k} == s.inFlight - {k};
  }

  // Main result: in any state, a delivery of one message that nobody is at goes
  // through, whatever happens to its file. A 200 is the answer to a message that
  // needs no file, and to one that is refused, recorded, or was recorded before;
  // a 500 to one that failed, and then the message can be claimed again.
  lemma OneDelivery(isMedia: nat -> bool, s: State, d: nat, h: nat, p: nat, id: nat, c: Course) returns (z: State)
    requires d !in s.deliveries && h !in s.handlers && Key(p, id) !in s.cache && MayHappen(isMedia, s, id, c)
    ensures Exec(isMedia, s, Alone(d, h, p, id, c)) == Some(z) && After(s, z, d, h, p, id, c)
  {
    var ending := [HandlerStep(h, Conclude)] + ([Resume(d)] + ([Answer(d)] + []));
    var w := ReachesMidway(isMedia, s, d, h, p, id, c, ending);
    z := EndsAfter(isMedia, s, w, d, h, p, id, c);
  }

  lemma CacheAfter(cache: map<Key, MessageState>, k: Key)
    requires k !in cache
    ensures cache[k := InProgress][k := Processed] == cache[k := Processed] && cache[k := InProgress] - {k} == cache
  {
  }

  // A process that dies takes its own cache, handlers and open deliveries with
  // it, and leaves the files its handlers were at; nothing else is lost.
  lemma RestartMeaning(isMedia: nat -> bool, s: State, p: nat)
    ensures Apply(isMedia, s, Restart(p)).Some?
    ensures
      var t := Apply(isMedia, s, Restart(p)).value;
      && t.records == s.records && t.refused == s.refused && t.files == s.files && t.lost == s.lost
      && (forall k :: k in t.cache <==> k in s.cache && k.process != p) && (forall k :: k in t.cache ==> t.cache[k] == s.cache[k])
      && (forall k :: k in t.inFlight <==> k in s.inFlight && k.process != p)
      && (forall h :: h in t.handlers <==> h in s.handlers && s.handlers[h].key.process != p)
      && (forall h :: h in t.handlers ==> t.handlers[h] == s.handlers[h])
      && (forall d :: d in t.deliveries <==> d in s.deliveries && (s.deliveries[d].process != p || s.deliveries[d].answer.Some?))
      && (forall d :: d in t.deliveries ==> t.deliveries[d] == s.deliveries[d])
      && (forall f :: f in t.leftovers <==> f in s.leftovers || exists h :: HeldBy(s, h, f) && s.handlers[h].key.process == p)
  {
    var lost := set h, f | h in s.handlers && s.handlers[h].key.process == p && f in Held(s.handlers[h].pc) :: f;
    forall f ensures f in lost <==> exists h :: HeldBy(s, h, f) && s.handlers[h].key.process == p {
      if h :| HeldBy(s, h, f) && s.handlers[h].key.process == p { assert f in lost; }
      if f in lost {
        var h :| h in s.handlers && s.handlers[h].key.process == p && f in Held(s.handlers[h].pc);
        assert HeldBy(s, h, f);
      }
    }
  }
}
