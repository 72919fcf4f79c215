/** copyToFreeName (src/services/permanentStorageService.js): copy under the
    first candidate name that is free, or that already holds this submission's
    own earlier copy (src/services/placementRecovery.js). */
module CopyLoop {
  import opened Common
  import Naming

  const MAX_NAME_ATTEMPTS := 20

  // The index of the first candidate that is not taken or may be reused.
  function FirstUsable<P(==)>(taken: set<P>, own: set<P>, names: seq<P>): (r: Option<nat>)
    ensures r.Some? ==>
              && r.value < |names|
              && (names[r.value] in taken ==> names[r.value] in own)
              && (forall k :: 0 <= k < r.value ==> names[k] in taken && names[k] !in own)
    ensures r.None? ==> forall k :: 0 <= k < |names| ==> names[k] in taken && names[k] !in own
  {
    if names == [] then None
    else if names[0] !in taken || names[0] in own then Some(0)
    else
      match FirstUsable(taken, own, names[1..])
      case None =>
        assert forall k :: 1 <= k < |names| ==> names[k] == names[1..][k - 1];
        None
      case Some(k) =>
        assert forall j :: 1 <= j < |names| ==> names[j] == names[1..][j - 1];
        Some(k + 1)
  }

  // What may happen at one candidate, besides the plain course of things.
  datatype Event =
    | Quiet
    | CheckFails            // storage could not say whether the name is taken
    | ClaimLost             // the renewal before the copy failed
    | Taken(sha: nat)       // an object appears there between the check and the copy
    | CopyFails

  datatype CopyError = StorageCheckFailed | ClaimLostError | StorageCopyFailed | NoFreeName

  datatype CopyResult =
    | Copied(path: string, attempt: nat)
    | Reused(path: string, attempt: nat)
    | Failed(error: CopyError)

  // One placement: the file, its candidate names, what the submission recorded
  // earlier, and the paths that other records refer to.
  datatype Request = Request(sha: nat, names: seq<string>, earlier: Option<string>, referenced: set<string>)

  type Objects = map<string, nat>

  // reuseExisting: recorded by this submission, referred to by nothing else,
  // holding this file.
  predicate Reusable(r: Request, objects: Objects, path: string) {
    r.earlier == Some(path) && path !in r.referenced && path in objects && objects[path] == r.sha
  }

  // The outcome of trying the candidates from index k on, and the store after it.
  function Outcome(r: Request, events: seq<Event>, objects: Objects, k: nat): (CopyResult, Objects)
    requires |events| == |r.names| && k <= |r.names|
    decreases |r.names| - k
  {
    if k == |r.names| then (Failed(NoFreeName), objects)
    else
      var path := r.names[k];
      if events[k].CheckFails? then (Failed(StorageCheckFailed), objects)
      else if path in objects then
        if Reusable(r, objects, path) then (Reused(path, k), objects) else Outcome(r, events, objects, k + 1)
      else
        match events[k]
        case ClaimLost => (Failed(ClaimLostError), objects)
        case CopyFails => (Failed(StorageCopyFailed), objects)
        case Taken(sha) =>
          var later := objects[path := sha];
          if Reusable(r, later, path) then (Reused(path, k), later) else Outcome(r, events, later, k + 1)
        case _ => (Copied(path, k), objects[path := r.sha])
  }

  // The private bucket: copies never overwrite.
  class Bucket {
    var objects: Objects

    constructor ()
      ensures objects == map[]
    {
      objects := map[];
    }

    method Exists(path: string) returns (taken: bool)
      ensures taken <==> path in objects
    {
      taken := path in objects;
    }

    // copy(): refused (409) when the path is taken.
    method Copy(sha: nat, path: string) returns (collision: bool)
      modifies this
      ensures collision <==> path in old(objects)
      ensures objects == if path in old(objects) then old(objects) else old(objects)[path := sha]
    {
      collision := path in objects;
      if !collision { objects := objects[path := sha]; }
    }

    method CopyToFreeName(r: Request, events: seq<Event>) returns (result: CopyResult)
      requires |events| == |r.names|
      modifies this
      ensures (result, objects) == Outcome(r, events, old(objects), 0)
    {
      var k := 0;
      while k < |r.names|
        invariant k <= |r.names|
        invariant Outcome(r, events, objects, k) == Outcome(r, events, old(objects), 0)
      {
        var path := r.names[k];
        if events[k].CheckFails? { return Failed(StorageCheckFailed); }
        var taken := Exists(path);
        if taken {
          if Reusable(r, objects, path) { return Reused(path, k); }
        } else {
          if events[k].ClaimLost? { return Failed(ClaimLostError); }
          if events[k].CopyFails? { return Failed(StorageCopyFailed); }
          if events[k].Taken? { objects := objects[path := events[k].sha]; }
          var collision := Copy(r.sha, path);
          if !collision { return Copied(path, k); }
          if Reusable(r, objects, path) { return Reused(path, k); }
        }
        k := k + 1;
      }
      return Failed(NoFreeName);
    }
  }

  // No object is ever changed or removed, and what is added has a candidate name.
  lemma {:induction false} ObjectsOnlyGrow(r: Request, events: seq<Event>, objects: Objects, k: nat)
    requires |events| == |r.names| && k <= |r.names|
    ensures
      var after := Outcome(r, events, objects, k).1;
      && (forall p :: p in objects ==> p in after && after[p] == objects[p])
      && (forall p :: p in after && p !in objects ==> p in r.names[k..])
    decreases |r.names| - k
  {
    if k < |r.names| && !events[k].CheckFails? {
      var path := r.names[k];
      assert r.names[k..] == [path] + r.names[k + 1..];
      if path in objects {
        if !Reusable(r, objects, path) { ObjectsOnlyGrow(r, events, objects, k + 1); }
      } else if events[k].Taken? && !Reusable(r, objects[path := events[k].sha], path) {
        ObjectsOnlyGrow(r, events, objects[path := events[k].sha], k + 1);
      }
    }
  }

  // A result names the file's own bytes; giving up means every name is taken.
  lemma {:induction false} ResultIsTheFile(r: Request, events: seq<Event>, objects: Objects, k: nat)
    requires |events| == |r.names| && k <= |r.names|
    ensures
      var (result, after) := Outcome(r, events, objects, k);
      match result
      case Copied(path, n) => k <= n < |r.names| && path == r.names[n] && path !in objects && path in after && after[path] == r.sha
      case Reused(path, n) => k <= n < |r.names| && path == r.names[n] && Reusable(r, after, path)
      case Failed(error) => error == NoFreeName ==> forall j :: k <= j < |r.names| ==> r.names[j] in after
    decreases |r.names| - k
  {
    if k < |r.names| && !events[k].CheckFails? {
      var path := r.names[k];
      if path in objects {
        if !Reusable(r, objects, path) {
          ResultIsTheFile(r, events, objects, k + 1);
          ObjectsOnlyGrow(r, events, objects, k + 1);
        }
      } else if events[k].Taken? && !Reusable(r, objects[path := events[k].sha], path) {
        ResultIsTheFile(r, events, objects[path := events[k].sha], k + 1);
        ObjectsOnlyGrow(r, events, objects[path := events[k].sha], k + 1);
      }
    }
  }

  // ------------------------------------------------------------------ where it stops

  // The store when candidate n is looked at: others may have taken free names
  // that were tried before.
  function Meanwhile(r: Request, events: seq<Event>, objects: Objects, n: nat): Objects
    requires |events| == |r.names| && n <= |r.names|
  {
    if n == 0 then objects
    else
      var before := Meanwhile(r, events, objects, n - 1);
      if r.names[n - 1] !in before && events[n - 1].Taken? then before[r.names[n - 1] := events[n - 1].sha] else before
  }

  // Candidate n is taken, before the check or after it, by something that is not
  // this submission's own copy.
  predicate PassedOver(r: Request, events: seq<Event>, objects: Objects, n: nat)
    requires |events| == |r.names| && n < |r.names|
  {
    var after := Meanwhile(r, events, objects, n + 1);
    events[n] != CheckFails && r.names[n] in after && !Reusable(r, after, r.names[n])
  }

  ghost predicate Arrives(r: Request, events: seq<Event>, objects: Objects, n: nat)
    requires |events| == |r.names| && n <= |r.names|
  {
    forall j :: 0 <= j < n ==> PassedOver(r, events, objects, j)
  }

  predicate IsFree(r: Request, events: seq<Event>, objects: Objects, n: nat)
    requires |events| == |r.names| && n < |r.names|
  {
    r.names[n] !in Meanwhile(r, events, objects, n)
  }

  // What the loop does at the candidate it stops at.
  function Stopped(r: Request, events: seq<Event>, objects: Objects, n: nat): (CopyResult, Objects)
    requires |events| == |r.names| && n < |r.names| && !PassedOver(r, events, objects, n)
  {
    var before := Meanwhile(r, events, objects, n);
    match events[n]
    case CheckFails => (Failed(StorageCheckFailed), before)
    case Taken(_) => (Reused(r.names[n], n), Meanwhile(r, events, objects, n + 1))
    case Quiet => if IsFree(r, events, objects, n) then (Copied(r.names[n], n), before[r.names[n] := r.sha]) else (Reused(r.names[n], n), before)
    case ClaimLost => if IsFree(r, events, objects, n) then (Failed(ClaimLostError), before) else (Reused(r.names[n], n), before)
    case CopyFails => if IsFree(r, events, objects, n) then (Failed(StorageCopyFailed), before) else (Reused(r.names[n], n), before)
  }

  lemma {:induction false} StopsAt(r: Request, events: seq<Event>, objects: Objects, k: nat, n: nat)
    requires |events| == |r.names| && k <= n <= |r.names| && Arrives(r, events, objects, n)
    requires n < |r.names| ==> !PassedOver(r, events, objects, n)
    ensures
      Outcome(r, events, Meanwhile(r, events, objects, k), k)
        == if n == |r.names| then (Failed(NoFreeName), Meanwhile(r, events, objects, n)) else Stopped(r, events, objects, n)
    decreases n - k
  {
    if k < n {
      assert PassedOver(r, events, objects, k);
      StopsAt(r, events, objects, k + 1, n);
    }
  }

  lemma {:induction false} FirstNotPassed(r: Request, events: seq<Event>, objects: Objects, k: nat) returns (n: nat)
    requires |events| == |r.names| && k <= |r.names| && Arrives(r, events, objects, k)
    ensures n <= |r.names| && Arrives(r, events, objects, n) && (n < |r.names| ==> !PassedOver(r, events, objects, n))
    decreases |r.names| - k
  {
    if k < |r.names| && PassedOver(r, events, objects, k) { n := FirstNotPassed(r, events, objects, k + 1); } else { n := k; }
  }

  ghost predicate IsEnd(r: Request, events: seq<Event>, objects: Objects, n: int)
    requires |events| == |r.names|
  {
    0 <= n <= |r.names| && Arrives(r, events, objects, n) && (n < |r.names| ==> !PassedOver(r, events, objects, n))
  }

  lemma OneEnd(r: Request, events: seq<Event>, objects: Objects, m: int, n: int)
    requires |events| == |r.names| && IsEnd(r, events, objects, m) && IsEnd(r, events, objects, n)
    ensures m == n
  {
  }

  // Where the loop comes to an end at candidate n, and how.
  ghost predicate EndsAt(r: Request, events: seq<Event>, objects: Objects, n: nat, e: Event)
    requires |events| == |r.names|
  {
    n < |r.names| && Arrives(r, events, objects, n) && !PassedOver(r, events, objects, n) && events[n] == e
  }

  // Its own earlier copy is at candidate n, before the check or after it.
  ghost predicate FindsItsOwn(r: Request, events: seq<Event>, objects: Objects, n: nat)
    requires |events| == |r.names| && n < |r.names|
  {
    && Arrives(r, events, objects, n) && events[n] != CheckFails
    && Reusable(r, Meanwhile(r, events, objects, n + 1), r.names[n])
  }

  // What is in the store when the loop ends at candidate n.
  predicate StoreIs(r: Request, events: seq<Event>, objects: Objects, n: int)
    requires |events| == |r.names|
  {
    var (result, after) := Outcome(r, events, objects, 0);
    && 0 <= n <= |r.names|
    && (result.Failed? ==> after == Meanwhile(r, events, objects, n))
    && (result.Copied? ==> n < |r.names| && after == Meanwhile(r, events, objects, n)[r.names[n] := r.sha])
    && (result.Reused? ==> n < |r.names| && after == Meanwhile(r, events, objects, n + 1))
  }

  lemma StoreAtEnd(r: Request, events: seq<Event>, objects: Objects, n: nat)
    requires |events| == |r.names| && IsEnd(r, events, objects, n)
    ensures StoreIs(r, events, objects, n)
  {
    StopsAt(r, events, objects, 0, n);
  }

  lemma ReusedIff(r: Request, events: seq<Event>, objects: Objects, n: nat, m: nat)
    requires |events| == |r.names| && IsEnd(r, events, objects, n) && m < |r.names|
    ensures Outcome(r, events, objects, 0).0 == Reused(r.names[m], m) <==> FindsItsOwn(r, events, objects, m)
  {
    StopsAt(r, events, objects, 0, n);
    if FindsItsOwn(r, events, objects, m) { OneEnd(r, events, objects, m, n); }
    if n < |r.names| {
      assert !IsFree(r, events, objects, n) ==> Meanwhile(r, events, objects, n + 1) == Meanwhile(r, events, objects, n);
    }
  }

  // Main result: the loop stops at the first candidate that is not passed over,
  // and what happens there decides. A copy is made only at a free name, with the
  // check, the renewal before it and the copy call all going well; each failure
  // is reported exactly when it is met there, and leaves the store to the others.
  lemma OutcomeMeaning(r: Request, events: seq<Event>, objects: Objects)
    requires |events| == |r.names|
    ensures
      var (result, after) := Outcome(r, events, objects, 0);
      && (result == Failed(NoFreeName) <==> Arrives(r, events, objects, |r.names|))
      && (result == Failed(StorageCheckFailed) <==> exists n :: EndsAt(r, events, objects, n, CheckFails))
      && (result == Failed(ClaimLostError) <==> exists n :: EndsAt(r, events, objects, n, ClaimLost) && IsFree(r, events, objects, n))
      && (result == Failed(StorageCopyFailed) <==> exists n :: EndsAt(r, events, objects, n, CopyFails) && IsFree(r, events, objects, n))
      && (forall n :: 0 <= n < |r.names| ==> (result == Copied(r.names[n], n) <==>
            EndsAt(r, events, objects, n, Quiet) && IsFree(r, events, objects, n)))
    ensures forall n :: 0 <= n < |r.names| ==>
      (Outcome(r, events, objects, 0).0 == Reused(r.names[n], n) <==> FindsItsOwn(r, events, objects, n))
    ensures exists n :: IsEnd(r, events, objects, n) && StoreIs(r, events, objects, n)
  {
    var n := FirstNotPassed(r, events, objects, 0);
    StopsAt(r, events, objects, 0, n);
    forall m | IsEnd(r, events, objects, m) ensures m == n { OneEnd(r, events, objects, m, n); }
    forall m: nat | m < |r.names|
      ensures Outcome(r, events, objects, 0).0 == Reused(r.names[m], m) <==> FindsItsOwn(r, events, objects, m)
    {
      ReusedIff(r, events, objects, n, m);
    }
    StoreAtEnd(r, events, objects, n);
    if n < |r.names| { assert EndsAt(r, events, objects, n, events[n]); }
  }

  predicate AllQuiet(events: seq<Event>) {
    forall k :: 0 <= k < |events| ==> events[k] == Quiet
  }

  function Own(r: Request, objects: Objects): set<string> {
    if r.earlier.Some? && Reusable(r, objects, r.earlier.value) then {r.earlier.value} else {}
  }

  // Undisturbed, the loop settles on the first usable candidate and fails only
  // when all are taken.
  lemma {:induction false} QuietIsFirstUsable(r: Request, events: seq<Event>, objects: Objects, k: nat)
    requires |events| == |r.names| && k <= |r.names| && AllQuiet(events)
    ensures
      match FirstUsable(objects.Keys, Own(r, objects), r.names[k..])
      case None => Outcome(r, events, objects, k) == (Failed(NoFreeName), objects)
      case Some(j) =>
        var path := r.names[k + j];
        Outcome(r, events, objects, k) ==
          if path in objects then (Reused(path, k + j), objects) else (Copied(path, k + j), objects[path := r.sha])
    decreases |r.names| - k
  {
    if k < |r.names| {
      assert r.names[k..][0] == r.names[k] && r.names[k..][1..] == r.names[k + 1..];
      if r.names[k] in objects && !Reusable(r, objects, r.names[k]) {
        QuietIsFirstUsable(r, events, objects, k + 1);
      }
    }
  }

  ghost predicate Distinct(names: seq<string>) {
    forall j, k :: 0 <= j < k < |names| ==> names[j] != names[k]
  }

  // The loop came to a copy call of its own, and that call succeeded or failed.
  predicate CalledCopy(result: CopyResult) {
    result.Copied? || result == Failed(StorageCopyFailed)
  }

  // The candidate of that call: the path the submission recorded last.
  function CopiedAt(r: Request, events: seq<Event>, objects: Objects, k: nat): (n: nat)
    requires |events| == |r.names| && k <= |r.names| && CalledCopy(Outcome(r, events, objects, k).0)
    ensures k <= n < |r.names|
    ensures Outcome(r, events, objects, k).0.Copied? ==> n == Outcome(r, events, objects, k).0.attempt
    decreases |r.names| - k
  {
    var path := r.names[k];
    if path in objects then CopiedAt(r, events, objects, k + 1)
    else if events[k].Taken? then CopiedAt(r, events, objects[path := events[k].sha], k + 1)
    else k
  }

  // A request to place the same file again, under the path recorded last.
  predicate SameAgain(r: Request, again: Request, n: nat)
    requires n < |r.names|
  {
    && again.sha == r.sha && again.names == r.names
    && again.earlier == Some(r.names[n]) && r.names[n] !in again.referenced
  }

  ghost predicate Extends(later: Objects, objects: Objects) {
    forall p :: p in objects ==> p in later && later[p] == objects[p]
  }

  // Main result: when an attempt was interrupted after its copy call, whether the
  // call succeeded or failed, and the object is there by the time of the re-run,
  // the re-run returns that object and creates none, whatever else was stored
  // in the meantime.
  lemma RerunReusesTheCopy(r: Request, events: seq<Event>, objects: Objects, again: Request, quiet: seq<Event>, now: Objects)
    requires |events| == |r.names| && Distinct(r.names) && CalledCopy(Outcome(r, events, objects, 0).0)
    requires var n := CopiedAt(r, events, objects, 0);
      SameAgain(r, again, n) && r.names[n] in now && now[r.names[n]] == r.sha
    requires Extends(now, Outcome(r, events, objects, 0).1)
    requires |quiet| == |r.names| && AllQuiet(quiet)
    ensures
      var n := CopiedAt(r, events, objects, 0);
      Outcome(again, quiet, now, 0) == (Reused(r.names[n], n), now)
  {
    EarlierNamesTaken(r, events, objects, 0);
    SkipTo(again, quiet, now, 0, CopiedAt(r, events, objects, 0));
  }

  // The same when the failed call's object lands only during the re-run, between
  // its check of the name and its own copy call.
  lemma LateCopyIsReused(r: Request, events: seq<Event>, objects: Objects, again: Request, late: seq<Event>, now: Objects)
    requires |events| == |r.names| && Distinct(r.names) && Outcome(r, events, objects, 0).0 == Failed(StorageCopyFailed)
    requires var n := CopiedAt(r, events, objects, 0);
      && SameAgain(r, again, n) && r.names[n] !in now
      && |late| == |r.names| && late[n] == Taken(r.sha) && AllQuiet(late[..n])
    requires Extends(now, Outcome(r, events, objects, 0).1)
    ensures
      var n := CopiedAt(r, events, objects, 0);
      Outcome(again, late, now, 0) == (Reused(r.names[n], n), now[r.names[n] := r.sha])
  {
    EarlierNamesTaken(r, events, objects, 0);
    SkipToLate(again, late, now, 0, CopiedAt(r, events, objects, 0));
  }

  // Everything before the name of the copy call is taken afterwards.
  lemma {:induction false} EarlierNamesTaken(r: Request, events: seq<Event>, objects: Objects, k: nat)
    requires |events| == |r.names| && k <= |r.names| && CalledCopy(Outcome(r, events, objects, k).0)
    ensures
      var after := Outcome(r, events, objects, k).1;
      forall j :: k <= j < CopiedAt(r, events, objects, k) ==> r.names[j] in after
    decreases |r.names| - k
  {
    var path := r.names[k];
    if path in objects {
      EarlierNamesTaken(r, events, objects, k + 1);
      ObjectsOnlyGrow(r, events, objects, k + 1);
    } else if events[k].Taken? {
      EarlierNamesTaken(r, events, objects[path := events[k].sha], k + 1);
      ObjectsOnlyGrow(r, events, objects[path := events[k].sha], k + 1);
    }
  }

  lemma {:induction false} SkipToLate(r: Request, late: seq<Event>, objects: Objects, k: nat, n: nat)
    requires |late| == |r.names| && Distinct(r.names) && k <= n < |r.names|
    requires AllQuiet(late[..n]) && late[n] == Taken(r.sha)
    requires r.earlier == Some(r.names[n]) && r.names[n] !in r.referenced && r.names[n] !in objects
    requires forall j :: k <= j < n ==> r.names[j] in objects
    ensures Outcome(r, late, objects, k) == (Reused(r.names[n], n), objects[r.names[n] := r.sha])
    decreases n - k
  {
    if k < n {
      assert late[..n][k] == late[k];
      assert r.names[k] != r.names[n];
      SkipToLate(r, late, objects, k + 1, n);
    }
  }

  lemma {:induction false} SkipTo(r: Request, quiet: seq<Event>, objects: Objects, k: nat, n: nat)
    requires |quiet| == |r.names| && AllQuiet(quiet) && Distinct(r.names) && k <= n < |r.names|
    requires r.earlier == Some(r.names[n]) && Reusable(r, objects, r.names[n])
    requires forall j :: k <= j < n ==> r.names[j] in objects
    ensures Outcome(r, quiet, objects, k) == (Reused(r.names[n], n), objects)
    decreases n - k
  {
    if k < n {
      assert r.names[k] != r.names[n];
      SkipTo(r, quiet, objects, k + 1, n);
    }
  }

  function InFolder(folder: string, name: string): string {
    folder + "/" + name
  }

  function StandardCandidates(folder: string, baseName: string, extension: string, first: nat): (r: seq<string>)
    requires 1 <= first
    ensures |r| == MAX_NAME_ATTEMPTS
  {
    seq(MAX_NAME_ATTEMPTS, k requires 0 <= k < MAX_NAME_ATTEMPTS => InFolder(folder, Naming.StandardFileName(baseName, first + k, extension)))
  }

  function KeptCandidates(folder: string, keptName: string): (r: seq<string>)
    ensures |r| == MAX_NAME_ATTEMPTS
  {
    seq(MAX_NAME_ATTEMPTS, k requires 0 <= k < MAX_NAME_ATTEMPTS => InFolder(folder, Naming.WithNumericSuffix(keptName, 1 + k)))
  }

  lemma StandardPair(folder: string, baseName: string, extension: string, v: nat, w: nat)
    requires 1 <= v < w
    ensures InFolder(folder, Naming.StandardFileName(baseName, v, extension)) != InFolder(folder, Naming.StandardFileName(baseName, w, extension))
  {
    Naming.StandardNamesDistinct(baseName, extension, v, w);
    SamePrefix(folder + "/", Naming.StandardFileName(baseName, v, extension), Naming.StandardFileName(baseName, w, extension));
  }

  lemma KeptPair(folder: string, keptName: string, v: nat, w: nat)
    requires 1 <= v < w
    ensures InFolder(folder, Naming.WithNumericSuffix(keptName, v)) != InFolder(folder, Naming.WithNumericSuffix(keptName, w))
  {
    Naming.SuffixedNamesDistinct(keptName, v, w);
    SamePrefix(folder + "/", Naming.WithNumericSuffix(keptName, v), Naming.WithNumericSuffix(keptName, w));
  }

  // The candidates the code uses are distinct: standard names by version from a
  // first version on ...
  lemma StandardCandidatesDistinct(folder: string, baseName: string, extension: string, first: nat)
    requires 1 <= first
    ensures Distinct(StandardCandidates(folder, baseName, extension, first))
  {
    var names := StandardCandidates(folder, baseName, extension, first);
    forall j, k | 0 <= j < k < |names| ensures names[j] != names[k] {
      StandardPair(folder, baseName, extension, first + j, first + k);
    }
  }

  // ... and kept names with a numeric suffix.
  lemma KeptCandidatesDistinct(folder: string, keptName: string)
    ensures Distinct(KeptCandidates(folder, keptName))
  {
    var names := KeptCandidates(folder, keptName);
    forall j, k | 0 <= j < k < |names| ensures names[j] != names[k] {
      KeptPair(folder, keptName, 1 + j, 1 + k);
    }
  }

  lemma SamePrefix(prefix: string, a: string, b: string)
    ensures prefix + a == prefix + b <==> a == b
  {
    assert (prefix + a)[|prefix|..] == a;
    assert (prefix + b)[|prefix|..] == b;
  }
}
