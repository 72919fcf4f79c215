/** The expiring cache of WhatsApp message IDs (src/utils/messageIdempotency.js). */
module MessageCache {
  import opened Common

  datatype MessageState = InProgress | Processed

  // Message IDs are only compared.
  type Id = nat

  datatype Entry = Entry(id: Id, state: MessageState, expiresAt: int)

  datatype Config = Config(ttlMs: nat, maxEntries: nat)

  const CACHE_DEFAULTS := Config(24 * 60 * 60 * 1000, 10_000)

  // ------------------------------------------------------------------ specification

  // The Map in insertion order; Map.delete keeps the order of the others.
  function Delete(es: seq<Entry>, id: Id): seq<Entry> {
    if es == [] then []
    else Delete(es[..|es| - 1], id) + (if es[|es| - 1].id == id then [] else [es[|es| - 1]])
  }

  // Drops expired entries up to the first live one.
  function Prune(es: seq<Entry>, t: int): seq<Entry> {
    if es == [] || es[0].expiresAt > t then es else Prune(es[1..], t)
  }

  function Evict(es: seq<Entry>, max: nat): seq<Entry> {
    if |es| > max then es[|es| - max..] else es
  }

  // Setting without a limit: the new entry goes to the end.
  function Put(c: Config, es: seq<Entry>, id: Id, state: MessageState, t: int): seq<Entry> {
    Delete(es, id) + [Entry(id, state, t + c.ttlMs)]
  }

  function Set(c: Config, es: seq<Entry>, id: Id, state: MessageState, t: int): seq<Entry> {
    Evict(Put(c, es, id, state, t), c.maxEntries)
  }

  function Find(es: seq<Entry>, id: Id): (r: Option<Entry>)
    ensures r.Some? ==> r.value in es && r.value.id == id
    ensures r.None? ==> forall e :: e in es ==> e.id != id
  {
    if es == [] then None
    else if es[0].id == id then Some(es[0])
    else Find(es[1..], id)
  }

  function StateOf(es: seq<Entry>, id: Id, t: int): Option<MessageState> {
    match Find(es, id)
    case Some(e) => if e.expiresAt > t then Some(e.state) else None
    case None => None
  }

  // claim() reads the clock up to three times.
  function Claim(c: Config, es: seq<Entry>, id: Id, t1: int, t2: int, t3: int): (seq<Entry>, bool) {
    var pruned := Prune(es, t1);
    if StateOf(pruned, id, t2).Some? then (pruned, false)
    else (Set(c, pruned, id, InProgress, t3), true)
  }

  // ------------------------------------------------------------------ the object

  class MessageIdCache {
    const config: Config
    var entries: seq<Entry>

    constructor (config: Config := CACHE_DEFAULTS)
      ensures this.config == config && entries == []
    {
      this.config := config;
      entries := [];
    }

    method PruneExpired(t: int)
      modifies this
      ensures entries == Prune(old(entries), t)
    {
      while entries != [] && !(entries[0].expiresAt > t)
        invariant Prune(entries, t) == Prune(old(entries), t)
        decreases |entries|
      {
        entries := entries[1..];
      }
    }

    method SetState(id: Id, state: MessageState, t: int)
      modifies this
      ensures entries == Set(config, old(entries), id, state, t)
    {
      entries := Delete(entries, id);
      entries := entries + [Entry(id, state, t + config.ttlMs)];
      while |entries| > config.maxEntries
        invariant Evict(entries, config.maxEntries) == Set(config, old(entries), id, state, t)
        decreases |entries|
      {
        entries := entries[1..];
      }
    }

    method TryClaim(id: Id, t1: int, t2: int, t3: int) returns (claimed: bool)
      modifies this
      ensures (entries, claimed) == Claim(config, old(entries), id, t1, t2, t3)
    {
      PruneExpired(t1);
      var existing := Find(entries, id);
      if existing.Some? && existing.value.expiresAt > t2 { return false; }
      SetState(id, InProgress, t3);
      return true;
    }

    method Complete(id: Id, t: int)
      modifies this
      ensures entries == Set(config, old(entries), id, Processed, t)
    {
      SetState(id, Processed, t);
    }

    method Release(id: Id)
      modifies this
      ensures entries == Delete(old(entries), id)
    {
      entries := Delete(entries, id);
    }
  }

  // ------------------------------------------------------------------ order

  ghost predicate Sorted(es: seq<Entry>) {
    forall i, j :: 0 <= i < j < |es| ==> es[i].expiresAt <= es[j].expiresAt
  }

  ghost predicate Distinct(es: seq<Entry>) {
    forall i, j :: 0 <= i < j < |es| ==> es[i].id != es[j].id
  }

  // Insertion order is expiry order, up to a clock reading of `now`.
  ghost predicate Ordered(c: Config, es: seq<Entry>, now: int) {
    Sorted(es) && Distinct(es) && Within(es, now + c.ttlMs)
  }

  ghost predicate Within(es: seq<Entry>, limit: int) {
    forall e :: e in es ==> e.expiresAt <= limit
  }

  function Live(es: seq<Entry>, t: int): seq<Entry> {
    if es == [] then []
    else (if es[0].expiresAt > t then [es[0]] else []) + Live(es[1..], t)
  }

  lemma {:induction false} AllLive(es: seq<Entry>, t: int)
    requires forall i :: 0 <= i < |es| ==> es[i].expiresAt > t
    ensures Live(es, t) == es
  {
    if es != [] { AllLive(es[1..], t); }
  }

  // Stopping at the first live entry removes every expired one.
  lemma {:induction false} PruneIsFilter(es: seq<Entry>, t: int)
    requires Sorted(es)
    ensures Prune(es, t) == Live(es, t)
  {
    if es != [] {
      if es[0].expiresAt > t { AllLive(es, t); } else { PruneIsFilter(es[1..], t); }
    }
  }

  lemma {:induction false} PruneIsSuffix(es: seq<Entry>, t: int)
    ensures |Prune(es, t)| <= |es| && Prune(es, t) == es[|es| - |Prune(es, t)|..]
    ensures forall i :: 0 <= i < |es| - |Prune(es, t)| ==> es[i].expiresAt <= t
  {
    if es != [] && es[0].expiresAt <= t { PruneIsSuffix(es[1..], t); }
  }

  lemma {:induction false} DeleteAll(es: seq<Entry>, id: Id)
    ensures |Delete(es, id)| <= |es|
    ensures forall e :: e in Delete(es, id) <==> e in es && e.id != id
  {
    if es != [] {
      var rest, last := es[..|es| - 1], es[|es| - 1];
      DeleteAll(rest, id);
      assert es == rest + [last];
      Members(rest, last);
      Members(Delete(rest, id), last);
    }
  }

  lemma AppendKeepsOrder(es: seq<Entry>, e: Entry)
    requires Sorted(es) && Distinct(es) && Within(es, e.expiresAt)
    requires forall x :: x in es ==> x.id != e.id
    ensures Sorted(es + [e]) && Distinct(es + [e]) && Within(es + [e], e.expiresAt)
  {
    var all := es + [e];
    forall i, j | 0 <= i < j < |all| ensures all[i].expiresAt <= all[j].expiresAt && all[i].id != all[j].id {
      assert all[i] == es[i] && es[i] in es;
      if j < |es| { assert all[j] == es[j]; }
    }
    forall x | x in all ensures x.expiresAt <= e.expiresAt {
      assert x in es || x == e;
    }
  }

  lemma {:induction false} DeleteOrdered(es: seq<Entry>, id: Id)
    requires Sorted(es) && Distinct(es)
    ensures Sorted(Delete(es, id)) && Distinct(Delete(es, id))
  {
    if es != [] {
      var rest, last := es[..|es| - 1], es[|es| - 1];
      DeleteOrdered(rest, id);
      DeleteAll(rest, id);
      if last.id != id { AppendKeepsOrder(Delete(rest, id), last); }
    }
  }

  lemma DeleteKeepsOrder(c: Config, es: seq<Entry>, id: Id, now: int)
    requires Ordered(c, es, now)
    ensures Ordered(c, Delete(es, id), now)
  {
    DeleteOrdered(es, id);
    DeleteAll(es, id);
  }

  lemma PutKeepsOrder(c: Config, es: seq<Entry>, id: Id, state: MessageState, before: int, t: int)
    requires Ordered(c, es, before) && before <= t
    ensures Ordered(c, Put(c, es, id, state, t), t)
  {
    DeleteKeepsOrder(c, es, id, before);
    assert forall x :: x in Delete(es, id) ==> x.id != id by { DeleteAll(es, id); }
    AppendKeepsOrder(Delete(es, id), Entry(id, state, t + c.ttlMs));
  }

  lemma SuffixKeepsOrder(c: Config, es: seq<Entry>, k: nat, now: int)
    requires Ordered(c, es, now) && k <= |es|
    ensures Ordered(c, es[k..], now)
  {
  }

  lemma SetKeepsOrder(c: Config, es: seq<Entry>, id: Id, state: MessageState, before: int, t: int)
    requires Ordered(c, es, before) && before <= t
    ensures Ordered(c, Set(c, es, id, state, t), t)
  {
    PutKeepsOrder(c, es, id, state, before, t);
    var all := Put(c, es, id, state, t);
    if |all| > c.maxEntries { SuffixKeepsOrder(c, all, |all| - c.maxEntries, t); }
  }

  lemma FindInOrder(es: seq<Entry>, id: Id, k: nat)
    requires Distinct(es) && k <= |es|
    ensures Find(es[k..], id).Some? ==> Find(es, id) == Find(es[k..], id)
    ensures Find(es, id).Some? && Find(es[k..], id).None? ==> exists i :: 0 <= i < k && es[i] == Find(es, id).value
  {
    if Find(es[k..], id).Some? {
      var e := Find(es[k..], id).value;
      var i :| 0 <= i < |es[k..]| && es[k..][i] == e;
      assert es[k + i] == e;
    } else if Find(es, id).Some? {
      var i :| 0 <= i < |es| && es[i] == Find(es, id).value;
      assert forall j :: k <= j < |es| ==> es[j] == es[k..][j - k] && es[j] in es[k..];
    }
  }

  // A claim succeeds exactly when the ID has no live entry.
  lemma ClaimIffNotLive(c: Config, es: seq<Entry>, id: Id, now: int, t1: int, t2: int, t3: int)
    requires Ordered(c, es, now) && t1 <= t2
    ensures Claim(c, es, id, t1, t2, t3).1 <==> StateOf(es, id, t2).None?
  {
    PruneIsSuffix(es, t1);
    FindInOrder(es, id, |es| - |Prune(es, t1)|);
  }

  // ------------------------------------------------------------------ runs

  // Each operation with its clock readings and what it returned.
  datatype Op =
    | ClaimOp(id: Id, t1: int, t2: int, t3: int)
    | CompleteOp(id: Id, t: int)
    | ReleaseOp(id: Id)
    | StateOp(id: Id, t: int)

  datatype Reply = Claimed(ok: bool) | State(state: Option<MessageState>) | Done

  function Step(c: Config, es: seq<Entry>, op: Op): (seq<Entry>, Reply) {
    match op
    case ClaimOp(id, t1, t2, t3) => var (after, ok) := Claim(c, es, id, t1, t2, t3); (after, Claimed(ok))
    case CompleteOp(id, t) => (Set(c, es, id, Processed, t), Done)
    case ReleaseOp(id) => (Delete(es, id), Done)
    case StateOp(id, t) => (es, State(StateOf(es, id, t)))
  }

  // The clock never goes back: the last reading of an operation that started at `now`.
  predicate InOrder(op: Op, now: int) {
    match op
    case ClaimOp(_, t1, t2, t3) => now <= t1 <= t2 <= t3
    case CompleteOp(_, t) => now <= t
    case ReleaseOp(_) => true
    case StateOp(_, t) => now <= t
  }

  function After(op: Op, now: int): int {
    match op
    case ClaimOp(_, _, _, t3) => t3
    case CompleteOp(_, t) => t
    case ReleaseOp(_) => now
    case StateOp(_, t) => t
  }

  predicate Monotone(ops: seq<Op>, now: int)
    decreases |ops|
  {
    ops != [] ==> InOrder(ops[0], now) && Monotone(ops[1..], After(ops[0], now))
  }

  function Run(c: Config, es: seq<Entry>, ops: seq<Op>): (seq<Entry>, seq<Reply>)
    decreases |ops|
  {
    if ops == [] then (es, [])
    else
      var (next, reply) := Step(c, es, ops[0]);
      var (last, replies) := Run(c, next, ops[1..]);
      (last, [reply] + replies)
  }

  function EndOf(ops: seq<Op>, now: int): int
    decreases |ops|
  {
    if ops == [] then now else EndOf(ops[1..], After(ops[0], now))
  }

  lemma StepKeepsOrder(c: Config, es: seq<Entry>, op: Op, now: int)
    requires Ordered(c, es, now) && InOrder(op, now)
    ensures Ordered(c, Step(c, es, op).0, After(op, now))
  {
    match op
    case ClaimOp(id, t1, t2, t3) =>
      PruneIsSuffix(es, t1);
      if Claim(c, es, id, t1, t2, t3).1 { SetKeepsOrder(c, Prune(es, t1), id, InProgress, now, t3); }
    case CompleteOp(id, t) => SetKeepsOrder(c, es, id, Processed, now, t);
    case ReleaseOp(id) => DeleteKeepsOrder(c, es, id, now);
    case StateOp(_, _) =>
  }

  // In every run insertion order stays expiry order, so a prune is a full filter,
  // and the cache never holds more than maxEntries.
  lemma {:induction false} RunKeepsOrder(c: Config, es: seq<Entry>, ops: seq<Op>, now: int)
    requires Ordered(c, es, now) && |es| <= c.maxEntries && Monotone(ops, now)
    ensures
      var (last, _) := Run(c, es, ops);
      && Ordered(c, last, EndOf(ops, now)) && |last| <= c.maxEntries
      && forall t :: Prune(last, t) == Live(last, t)
    decreases |ops|
  {
    if ops == [] {
      forall t: int ensures Prune(es, t) == Live(es, t) { PruneIsFilter(es, t); }
    } else {
      StepKeepsOrder(c, es, ops[0], now);
      StepKeepsSize(c, es, ops[0]);
      RunKeepsOrder(c, Step(c, es, ops[0]).0, ops[1..], After(ops[0], now));
    }
  }

  lemma StepKeepsSize(c: Config, es: seq<Entry>, op: Op)
    requires |es| <= c.maxEntries
    ensures |Step(c, es, op).0| <= c.maxEntries
  {
    match op
    case ClaimOp(_, t1, _, _) => PruneIsSuffix(es, t1);
    case CompleteOp(_, _) =>
    case ReleaseOp(id) => DeleteAll(es, id);
    case StateOp(_, _) =>
  }

  // ------------------------------------------------------------------ what is forgotten

  // Newer(es, i, id): the entries set after the i-th, other than one of `id`.
  function Newer(es: seq<Entry>, i: nat, id: Id): seq<Entry>
    requires i < |es|
  {
    Delete(es[i + 1..], id)
  }

  lemma {:induction false} DeleteSplits(a: seq<Entry>, b: seq<Entry>, id: Id)
    ensures Delete(a + b, id) == Delete(a, id) + Delete(b, id)
  {
    if b == [] {
      assert a + b == a;
    } else {
      DeleteSplits(a, b[..|b| - 1], id);
      assert (a + b)[..|a + b| - 1] == a + b[..|b| - 1];
    }
  }

  lemma PutKeepsItem(c: Config, es: seq<Entry>, i: nat, id: Id, state: MessageState, t: int)
    requires i < |es| && id != es[i].id
    ensures Put(c, es, id, state, t) == Delete(es[..i], id) + [es[i]] + Newer(es, i, id) + [Entry(id, state, t + c.ttlMs)]
  {
    assert es == es[..i] + ([es[i]] + es[i + 1..]);
    DeleteSplits(es[..i], [es[i]] + es[i + 1..], id);
    DeleteSplits([es[i]], es[i + 1..], id);
    assert Delete([es[i]], id) == [es[i]] by { assert [es[i]][..0] == []; assert Delete([], id) == []; }
  }

  // What setting `id` does to another entry: it survives exactly when it is
  // among the maxEntries newest.
  lemma DroppedBySet(c: Config, es: seq<Entry>, i: nat, id: Id, state: MessageState, t: int)
    requires Distinct(es) && i < |es| && id != es[i].id
    ensures es[i] in Set(c, es, id, state, t) <==> |Newer(es, i, id)| + 1 < c.maxEntries
  {
    if |Newer(es, i, id)| + 1 < c.maxEntries { KeptBySet(c, es, i, id, state, t); } else { EvictedBySet(c, es, i, id, state, t); }
  }

  lemma EndOfConcat(before: seq<Entry>, end: seq<Entry>, n: nat)
    requires n <= |end|
    ensures (before + end)[|before + end| - n..] == end[|end| - n..]
  {
  }

  lemma NotAmongNewer(es: seq<Entry>, i: nat, added: Entry)
    requires Distinct(es) && i < |es| && added.id != es[i].id
    ensures es[i] !in Newer(es, i, added.id) + [added]
  {
    DeleteAll(es[i + 1..], added.id);
    Members(Newer(es, i, added.id), added);
  }

  lemma EvictedBySet(c: Config, es: seq<Entry>, i: nat, id: Id, state: MessageState, t: int)
    requires Distinct(es) && i < |es| && id != es[i].id && c.maxEntries <= |Newer(es, i, id)| + 1
    ensures es[i] !in Set(c, es, id, state, t)
  {
    var added := Entry(id, state, t + c.ttlMs);
    var before, newer := Delete(es[..i], id) + [es[i]], Newer(es, i, id) + [added];
    PutKeepsItem(c, es, i, id, state, t);
    assert Put(c, es, id, state, t) == before + newer;
    EndOfConcat(before, newer, c.maxEntries);
    NotAmongNewer(es, i, added);
    assert Set(c, es, id, state, t) == newer[|newer| - c.maxEntries..];
  }

  lemma KeptBySet(c: Config, es: seq<Entry>, i: nat, id: Id, state: MessageState, t: int)
    requires i < |es| && id != es[i].id && |Newer(es, i, id)| + 1 < c.maxEntries
    ensures es[i] in Set(c, es, id, state, t)
  {
    PutKeepsItem(c, es, i, id, state, t);
    var all := Put(c, es, id, state, t);
    var n := |Delete(es[..i], id)|;
    assert all[n] == es[i];
    if |all| > c.maxEntries {
      assert all[|all| - c.maxEntries..][n - (|all| - c.maxEntries)] == es[i];
    }
  }

  // A live ID is forgotten only when it is released, or when another ID is set
  // while at least maxEntries - 1 newer entries are already there.
  lemma LiveIsForgottenOnlyWhenFull(c: Config, es: seq<Entry>, op: Op, now: int, i: nat)
    requires Ordered(c, es, now) && InOrder(op, now) && i < |es| && es[i].expiresAt > After(op, now)
    ensures es[i] !in Step(c, es, op).0 && !(op.CompleteOp? && op.id == es[i].id) ==>
      || op == ReleaseOp(es[i].id)
      || ((op.CompleteOp? || op.ClaimOp?) && op.id != es[i].id && c.maxEntries <= |Newer(es, i, op.id)| + 1)
  {
    match op
    case ClaimOp(id, t1, t2, t3) =>
      var pruned := Prune(es, t1);
      PruneIsSuffix(es, t1);
      var k := |es| - |pruned|;
      assert pruned[i - k] == es[i];
      if id == es[i].id {
        ClaimIffNotLive(c, es, id, now, t1, t2, t3);
        FindAt(es, i);
      } else if Claim(c, es, id, t1, t2, t3).1 {
        DroppedBySet(c, pruned, i - k, id, InProgress, t3);
        assert pruned[i - k + 1..] == es[i + 1..];
      }
    case CompleteOp(id, t) => if id != es[i].id { DroppedBySet(c, es, i, id, Processed, t); }
    case ReleaseOp(id) => DeleteAll(es, id);
    case StateOp(_, _) =>
  }

  lemma FindAt(es: seq<Entry>, i: nat)
    requires Distinct(es) && i < |es|
    ensures Find(es, es[i].id) == Some(es[i])
  {
    var e := Find(es, es[i].id).value;
    var j :| 0 <= j < |es| && es[j] == e;
  }

  // ------------------------------------------------------------------ refinement

  // The cache it stands for: nothing expires from memory, nothing is evicted.
  function IdealStep(c: Config, ideal: seq<Entry>, op: Op): (seq<Entry>, Reply) {
    match op
    case ClaimOp(id, _, t2, t3) =>
      if StateOf(ideal, id, t2).Some? then (ideal, Claimed(false))
      else (Put(c, ideal, id, InProgress, t3), Claimed(true))
    case CompleteOp(id, t) => (Put(c, ideal, id, Processed, t), Done)
    case ReleaseOp(id) => (Delete(ideal, id), Done)
    case StateOp(id, t) => (ideal, State(StateOf(ideal, id, t)))
  }

  function IdealRun(c: Config, ideal: seq<Entry>, ops: seq<Op>): seq<Reply>
    decreases |ops|
  {
    if ops == [] then []
    else
      var (next, reply) := IdealStep(c, ideal, ops[0]);
      [reply] + IdealRun(c, next, ops[1..])
  }

  // Never more than maxEntries live messages at once.
  predicate Fits(c: Config, ideal: seq<Entry>, ops: seq<Op>, now: int)
    decreases |ops|
  {
    ops != [] ==>
      var next := IdealStep(c, ideal, ops[0]).0;
      |Live(next, After(ops[0], now))| <= c.maxEntries && Fits(c, next, ops[1..], After(ops[0], now))
  }

  // What is missing from the cache has expired.
  ghost predicate Refines(c: Config, es: seq<Entry>, ideal: seq<Entry>, now: int) {
    && Ordered(c, ideal, now)
    && |es| <= |ideal| && es == ideal[|ideal| - |es|..]
    && Within(ideal[..|ideal| - |es|], now)
  }

  lemma SameAnswers(c: Config, es: seq<Entry>, ideal: seq<Entry>, id: Id, now: int, t: int)
    requires Refines(c, es, ideal, now) && now <= t
    ensures StateOf(es, id, t) == StateOf(ideal, id, t)
  {
    var d := |ideal| - |es|;
    FindInOrder(ideal, id, d);
    if Find(ideal, id).Some? && Find(es, id).None? {
      var i :| 0 <= i < d && ideal[i] == Find(ideal, id).value;
      assert ideal[..d][i] == ideal[i];
    }
  }

  // Dropping expired entries from the front.
  lemma SuffixRefines(c: Config, es: seq<Entry>, ideal: seq<Entry>, k: nat, now: int, t: int)
    requires Refines(c, es, ideal, now) && now <= t && k <= |es|
    requires Within(es[..k], t)
    ensures Refines(c, es[k..], ideal, t)
  {
    var d := |ideal| - |es|;
    assert ideal[..d + k] == ideal[..d] + es[..k];
    assert es[k..] == ideal[d + k..];
    forall e | e in ideal[..d] + es[..k] ensures e.expiresAt <= t {
      assert e in ideal[..d] || e in es[..k];
    }
  }

  lemma PruneRefines(c: Config, es: seq<Entry>, ideal: seq<Entry>, now: int, t: int)
    requires Refines(c, es, ideal, now) && now <= t
    ensures Refines(c, Prune(es, t), ideal, t)
  {
    PruneIsSuffix(es, t);
    SuffixRefines(c, es, ideal, |es| - |Prune(es, t)|, now, t);
  }

  lemma DeleteRefines(c: Config, es: seq<Entry>, ideal: seq<Entry>, id: Id, now: int)
    requires Refines(c, es, ideal, now)
    ensures Refines(c, Delete(es, id), Delete(ideal, id), now)
  {
    var before := ideal[..|ideal| - |es|];
    assert before + es == ideal;
    DeleteSplits(before, es, id);
    DeleteKeepsOrder(c, ideal, id, now);
    DeleteAll(before, id);
    var gone, left := Delete(before, id), Delete(es, id);
    assert (gone + left)[..|gone|] == gone && (gone + left)[|gone|..] == left;
  }

  lemma PutRefines(c: Config, es: seq<Entry>, ideal: seq<Entry>, id: Id, state: MessageState, now: int, t: int)
    requires Refines(c, es, ideal, now) && now <= t
    ensures Refines(c, Put(c, es, id, state, t), Put(c, ideal, id, state, t), t)
  {
    DeleteRefines(c, es, ideal, id, now);
    PutKeepsOrder(c, ideal, id, state, now, t);
    var kept, all, added := Delete(es, id), Delete(ideal, id), Entry(id, state, t + c.ttlMs);
    var d := |all| - |kept|;
    assert (all + [added])[..d] == all[..d] && (all + [added])[d..] == kept + [added];
  }

  // Few enough are live: what goes beyond the limit has expired.
  lemma BeyondTheLiveOnes(c: Config, es: seq<Entry>, ideal: seq<Entry>, k: nat, t: int)
    requires Refines(c, es, ideal, t) && k <= |es| && |Live(ideal, t)| <= |es| - k
    ensures Within(es[..k], t)
  {
    PruneIsFilter(ideal, t);
    PruneIsSuffix(ideal, t);
    var d := |ideal| - |es|;
    forall e | e in es[..k] ensures e.expiresAt <= t {
      var i :| 0 <= i < k && es[i] == e;
      assert ideal[d + i] == e;
    }
  }

  lemma SetRefines(c: Config, es: seq<Entry>, ideal: seq<Entry>, id: Id, state: MessageState, now: int, t: int)
    requires Refines(c, es, ideal, now) && now <= t
    requires |Live(Put(c, ideal, id, state, t), t)| <= c.maxEntries
    ensures Refines(c, Set(c, es, id, state, t), Put(c, ideal, id, state, t), t)
  {
    PutRefines(c, es, ideal, id, state, now, t);
    var put, all := Put(c, es, id, state, t), Put(c, ideal, id, state, t);
    if |put| > c.maxEntries {
      var k := |put| - c.maxEntries;
      BeyondTheLiveOnes(c, put, all, k, t);
      SuffixRefines(c, put, all, k, t, t);
    }
  }

  lemma StepRefines(c: Config, es: seq<Entry>, ideal: seq<Entry>, op: Op, now: int)
    requires Refines(c, es, ideal, now) && InOrder(op, now)
    requires |Live(IdealStep(c, ideal, op).0, After(op, now))| <= c.maxEntries
    ensures Step(c, es, op).1 == IdealStep(c, ideal, op).1
    ensures Refines(c, Step(c, es, op).0, IdealStep(c, ideal, op).0, After(op, now))
  {
    match op
    case ClaimOp(id, t1, t2, t3) =>
      PruneRefines(c, es, ideal, now, t1);
      SameAnswers(c, Prune(es, t1), ideal, id, t1, t2);
      if StateOf(ideal, id, t2).None? { SetRefines(c, Prune(es, t1), ideal, id, InProgress, t1, t3); }
    case CompleteOp(id, t) => SetRefines(c, es, ideal, id, Processed, now, t);
    case ReleaseOp(id) => DeleteRefines(c, es, ideal, id, now);
    case StateOp(id, t) => SameAnswers(c, es, ideal, id, now, t);
  }

  // Main result: while at most maxEntries messages are live, the bounded and
  // pruned cache answers every operation as the unbounded one would.
  lemma {:induction false} RunRefinesIdeal(c: Config, es: seq<Entry>, ideal: seq<Entry>, ops: seq<Op>, now: int)
    requires Refines(c, es, ideal, now) && Monotone(ops, now) && Fits(c, ideal, ops, now)
    ensures Run(c, es, ops).1 == IdealRun(c, ideal, ops)
    decreases |ops|
  {
    if ops != [] {
      StepRefines(c, es, ideal, ops[0], now);
      RunRefinesIdeal(c, Step(c, es, ops[0]).0, IdealStep(c, ideal, ops[0]).0, ops[1..], After(ops[0], now));
    }
  }

  lemma CacheRefinesIdeal(c: Config, ops: seq<Op>, now: int)
    requires Monotone(ops, now) && Fits(c, [], ops, now)
    ensures Run(c, [], ops).1 == IdealRun(c, [], ops)
  {
    RunRefinesIdeal(c, [], [], ops, now);
  }

  // ------------------------------------------------------------------ a plain map

  // While nothing expires, the ideal cache is a map from ID to state: what the
  // webhook's acknowledgement protocol is modelled with.
  function MapStep(m: map<Id, MessageState>, op: Op): (map<Id, MessageState>, Reply) {
    match op
    case ClaimOp(id, _, _, _) => if id in m then (m, Claimed(false)) else (m[id := InProgress], Claimed(true))
    case CompleteOp(id, _) => (m[id := Processed], Done)
    case ReleaseOp(id) => (m - {id}, Done)
    case StateOp(id, _) => (m, State(if id in m then Some(m[id]) else None))
  }

  ghost predicate NothingExpires(es: seq<Entry>, t: int) {
    forall e :: e in es ==> e.expiresAt > t
  }

  predicate HasEntry(es: seq<Entry>, id: Id) {
    exists e :: e in es && e.id == id
  }

  ghost predicate Represents(m: map<Id, MessageState>, es: seq<Entry>) {
    && (forall e :: e in es ==> e.id in m && m[e.id] == e.state)
    && (forall id :: id in m ==> HasEntry(es, id))
  }

  lemma LookUp(m: map<Id, MessageState>, es: seq<Entry>, id: Id, t: int)
    requires Represents(m, es) && NothingExpires(es, t)
    ensures StateOf(es, id, t) == if id in m then Some(m[id]) else None
  {
  }

  lemma Members(es: seq<Entry>, added: Entry)
    ensures forall e :: e in es + [added] <==> e in es || e == added
  {
  }

  lemma KeptEntry(es: seq<Entry>, id: Id, other: Id)
    requires HasEntry(es, other) && other != id
    ensures HasEntry(Delete(es, id), other)
  {
    DeleteAll(es, id);
    var e :| e in es && e.id == other;
    assert e in Delete(es, id);
  }

  lemma DeleteOnMap(m: map<Id, MessageState>, es: seq<Entry>, id: Id)
    requires Represents(m, es)
    ensures Represents(m - {id}, Delete(es, id))
  {
    DeleteAll(es, id);
    forall other | other in m - {id} ensures HasEntry(Delete(es, id), other) { KeptEntry(es, id, other); }
  }

  lemma AddOnMap(m: map<Id, MessageState>, es: seq<Entry>, added: Entry)
    requires Represents(m, es) && added.id !in m
    ensures Represents(m[added.id := added.state], es + [added])
  {
    Members(es, added);
    forall id | id in m[added.id := added.state] ensures HasEntry(es + [added], id) {
      if id == added.id {
        assert added in es + [added];
      } else {
        var e :| e in es && e.id == id;
        assert e in es + [added];
      }
    }
  }

  lemma PutOnMap(c: Config, m: map<Id, MessageState>, es: seq<Entry>, id: Id, state: MessageState, t: int)
    requires Represents(m, es)
    ensures Represents(m[id := state], Put(c, es, id, state, t))
  {
    DeleteOnMap(m, es, id);
    AddOnMap(m - {id}, Delete(es, id), Entry(id, state, t + c.ttlMs));
    assert (m - {id})[id := state] == m[id := state];
  }

  lemma MapStepIsIdealStep(c: Config, m: map<Id, MessageState>, es: seq<Entry>, op: Op, now: int)
    requires Represents(m, es) && InOrder(op, now) && NothingExpires(es, After(op, now))
    ensures MapStep(m, op).1 == IdealStep(c, es, op).1
    ensures Represents(MapStep(m, op).0, IdealStep(c, es, op).0)
  {
    match op
    case ClaimOp(id, _, t2, t3) =>
      LookUp(m, es, id, t2);
      PutOnMap(c, m, es, id, InProgress, t3);
    case CompleteOp(id, t) => PutOnMap(c, m, es, id, Processed, t);
    case ReleaseOp(id) => DeleteOnMap(m, es, id);
    case StateOp(id, t) => LookUp(m, es, id, t);
  }
}
