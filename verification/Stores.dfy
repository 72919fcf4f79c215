/** The two stores that cannot share a transaction: the documents and
    temporary_data tables on one side, the object store on the other. Which
    elementary changes keep them consistent, independently of who makes them. */
module Stores {
  import opened Common

  datatype Area = ClientArea | PendingArea

  datatype Path = Path(area: Area, name: string)

  datatype Document = Document(
    client: nat, sha: nat, path: Path, reviewRequired: bool,
    submission: Option<nat>,
    byWorker: bool)  // inserted by storeClientDocument (not by an admin's action)

  // What matters here about one submission.
  datatype View = View(
    sha: nat,
    pending: Option<Path>,   // pending_storage_path
    held: Option<Path>,      // where the attempt that owns it has its copy
    believesNew: bool)       // that attempt saw no document with this file

  datatype State = State(views: map<nat, View>, docs: map<nat, Document>, objects: map<Path, nat>)

  ghost predicate HasFile(s: State, p: Path, sha: nat) {
    p in s.objects && s.objects[p] == sha
  }

  ghost predicate DocumentAt(s: State, p: Path) {
    exists d :: d in s.docs && s.docs[d].path == p
  }

  ghost predicate PendingAt(s: State, p: Path) {
    exists t :: t in s.views && s.views[t].pending == Some(p)
  }

  ghost predicate StoredByWorker(s: State, t: nat) {
    exists d :: d in s.docs && s.docs[d].byWorker && s.docs[d].submission == Some(t)
  }

  // Every path on record names an existing object with the recorded checksum,
  // and no two records share one.
  ghost predicate Agree(s: State) {
    && (forall d :: d in s.docs ==> s.docs[d].path.area == ClientArea && HasFile(s, s.docs[d].path, s.docs[d].sha))
    && (forall t :: t in s.views && s.views[t].pending.Some? ==>
          s.views[t].pending.value.area == PendingArea && HasFile(s, s.views[t].pending.value, s.views[t].sha))
    && (forall d, e :: d in s.docs && e in s.docs && s.docs[d].path == s.docs[e].path ==> d == e)
    && (forall t, u :: t in s.views && u in s.views && s.views[t].pending.Some? && s.views[t].pending == s.views[u].pending ==> t == u)
  }

  ghost predicate StoredOnce(s: State) {
    forall d, e ::
      (d in s.docs && e in s.docs && s.docs[d].byWorker && s.docs[e].byWorker
       && s.docs[d].submission.Some? && s.docs[d].submission == s.docs[e].submission) ==> d == e
  }

  ghost predicate HeldOk(s: State) {
    && (forall t :: t in s.views && s.views[t].held.Some? ==>
          var p := s.views[t].held.value;
          HasFile(s, p, s.views[t].sha) && !DocumentAt(s, p) && !PendingAt(s, p))
    && (forall t, u :: t in s.views && u in s.views && s.views[t].held.Some? && s.views[t].held == s.views[u].held ==> t == u)
  }

  ghost predicate NewIsTrue(s: State) {
    forall t :: t in s.views && s.views[t].believesNew ==> !StoredByWorker(s, t)
  }

  ghost predicate LinksOk(s: State) {
    forall d :: d in s.docs && s.docs[d].submission.Some? ==>
      s.docs[d].submission.value in s.views && s.docs[d].sha == s.views[s.docs[d].submission.value].sha
  }

  ghost predicate Inv(s: State) {
    Agree(s) && StoredOnce(s) && HeldOk(s) && NewIsTrue(s) && LinksOk(s)
  }

  // p can be taken by submission t: nobody else refers to it.
  ghost predicate Unreferenced(s: State, t: nat, p: Path) {
    && !DocumentAt(s, p) && !PendingAt(s, p)
    && (forall u :: u in s.views && u != t ==> s.views[u].held != Some(p))
  }

  // A view that asks for no new pending path: one that keeps or drops it, or a new one.
  predicate AddsNoPending(s: State, t: nat, v: View) {
    if t in s.views then v.sha == s.views[t].sha && (v.pending == s.views[t].pending || v.pending.None?) else v.pending.None?
  }

  lemma ViewKeepsAgree(s: State, t: nat, v: View)
    requires Agree(s) && AddsNoPending(s, t, v)
    ensures Agree(s.(views := s.views[t := v]))
  {
  }

  lemma ViewKeepsHeld(s: State, t: nat, v: View)
    requires HeldOk(s) && AddsNoPending(s, t, v)
    requires v.held.Some? ==> HasFile(s, v.held.value, v.sha) && Unreferenced(s, t, v.held.value)
    ensures HeldOk(s.(views := s.views[t := v]))
  {
    var r := s.(views := s.views[t := v]);
    forall p | PendingAt(r, p) ensures PendingAt(s, p) {}
  }

  lemma ChangeView(s: State, t: nat, v: View)
    requires Inv(s) && AddsNoPending(s, t, v)
    requires v.held.Some? ==> HasFile(s, v.held.value, v.sha) && Unreferenced(s, t, v.held.value)
    requires v.believesNew ==> !StoredByWorker(s, t)
    ensures Inv(s.(views := s.views[t := v]))
  {
    ViewKeepsAgree(s, t, v);
    ViewKeepsHeld(s, t, v);
    var r := s.(views := s.views[t := v]);
    forall u: nat | StoredByWorker(r, u) ensures StoredByWorker(s, u) {}
  }

  lemma SetPending(s: State, t: nat, v: View)
    requires Inv(s) && t in s.views && v.sha == s.views[t].sha
    requires v.pending.Some? && v.pending.value.area == PendingArea
    requires HasFile(s, v.pending.value, v.sha) && Unreferenced(s, t, v.pending.value)
    requires v.held.None? && !v.believesNew
    ensures Inv(s.(views := s.views[t := v]))
  {
    var r := s.(views := s.views[t := v]);
    assert Agree(r);
    assert HeldOk(r) by {
      forall u | u in r.views && r.views[u].held.Some?
        ensures u != t && !PendingAt(r, r.views[u].held.value)
      {
        assert r.views[u] == s.views[u] && !PendingAt(s, s.views[u].held.value);
      }
    }
    assert NewIsTrue(r) by {
      forall u | u in r.views && r.views[u].believesNew ensures !StoredByWorker(r, u) {
        assert !StoredByWorker(s, u);
      }
    }
  }

  lemma NewView(s: State, t: nat, sha: nat)
    requires Inv(s) && t !in s.views
    ensures Inv(s.(views := s.views[t := View(sha, None, None, false)]))
  {
    ChangeView(s, t, View(sha, None, None, false));
  }

  lemma AddObject(s: State, p: Path, sha: nat)
    requires Inv(s) && p !in s.objects
    ensures Inv(s.(objects := s.objects[p := sha]))
    ensures forall t :: t in s.views ==> Unreferenced(s.(objects := s.objects[p := sha]), t, p)
  {
  }

  lemma DropObject(s: State, p: Path)
    requires Inv(s) && !DocumentAt(s, p) && !PendingAt(s, p)
    requires forall u :: u in s.views ==> s.views[u].held != Some(p)
    ensures Inv(s.(objects := s.objects - {p}))
  {
  }

  lemma DocumentKeepsAgree(s: State, d: nat, doc: Document)
    requires Agree(s) && d !in s.docs && !DocumentAt(s, doc.path)
    requires doc.path.area == ClientArea && HasFile(s, doc.path, doc.sha)
    ensures Agree(s.(docs := s.docs[d := doc]))
  {
  }

  lemma DocumentKeepsHeld(s: State, d: nat, doc: Document)
    requires HeldOk(s) && d !in s.docs
    requires forall u :: u in s.views ==> s.views[u].held != Some(doc.path)
    ensures HeldOk(s.(docs := s.docs[d := doc]))
  {
    var r := s.(docs := s.docs[d := doc]);
    forall u | u in r.views && r.views[u].held.Some?
      ensures !DocumentAt(r, r.views[u].held.value) && !PendingAt(r, r.views[u].held.value)
    {
      assert !DocumentAt(s, s.views[u].held.value) && !PendingAt(s, s.views[u].held.value);
    }
  }

  lemma AddDocument(s: State, d: nat, doc: Document, t: nat)
    requires Inv(s) && d !in s.docs && t in s.views
    requires doc.submission == Some(t) && doc.sha == s.views[t].sha
    requires doc.path.area == ClientArea && HasFile(s, doc.path, doc.sha) && Unreferenced(s, t, doc.path)
    requires s.views[t].held != Some(doc.path)
    requires doc.byWorker ==> !StoredByWorker(s, t) && !s.views[t].believesNew
    ensures Inv(s.(docs := s.docs[d := doc]))
  {
    var r := s.(docs := s.docs[d := doc]);
    DocumentKeepsAgree(s, d, doc);
    DocumentKeepsHeld(s, d, doc);
    assert NewIsTrue(r) by {
      forall u | u in r.views && r.views[u].believesNew ensures !StoredByWorker(r, u) {
        assert !StoredByWorker(s, u);
      }
    }
    assert StoredOnce(r) by { assert doc.byWorker ==> !StoredByWorker(s, t); }
  }

  lemma DropDocument(s: State, d: nat)
    requires Inv(s)
    ensures Inv(s.(docs := s.docs - {d}))
  {
    var r := s.(docs := s.docs - {d});
    forall u: nat | StoredByWorker(r, u) ensures StoredByWorker(s, u) {}
  }

  function Forget(docs: map<nat, Document>, t: nat): (r: map<nat, Document>)
    ensures r.Keys == docs.Keys
    ensures forall d :: d in r ==>
      r[d].path == docs[d].path && r[d].sha == docs[d].sha && r[d].byWorker == docs[d].byWorker
      && r[d].submission == if docs[d].submission == Some(t) then None else docs[d].submission
  {
    map d | d in docs :: if docs[d].submission == Some(t) then docs[d].(submission := None) else docs[d]
  }

  lemma ForgetKeepsLinks(s: State, t: nat)
    requires StoredOnce(s) && NewIsTrue(s) && LinksOk(s)
    ensures
      var r := s.(docs := Forget(s.docs, t));
      StoredOnce(r) && NewIsTrue(r) && LinksOk(r)
  {
    var r := s.(docs := Forget(s.docs, t));
    forall u: nat | StoredByWorker(r, u) ensures StoredByWorker(s, u) {
      var d :| d in r.docs && r.docs[d].byWorker && r.docs[d].submission == Some(u);
      assert s.docs[d].byWorker && s.docs[d].submission == Some(u);
    }
  }

  lemma ForgetSubmission(s: State, t: nat)
    requires Inv(s)
    ensures Inv(s.(docs := Forget(s.docs, t)))
    ensures forall d :: d in s.docs ==> Forget(s.docs, t)[d].submission != Some(t)
  {
    SameRecords(s, s.(docs := Forget(s.docs, t)));
    ForgetKeepsLinks(s, t);
  }

  lemma SameRecords(s: State, r: State)
    requires Agree(s) && HeldOk(s)
    requires r.views == s.views && r.objects == s.objects && r.docs.Keys == s.docs.Keys
    requires forall d :: d in s.docs ==> r.docs[d].path == s.docs[d].path && r.docs[d].sha == s.docs[d].sha
    ensures Agree(r) && HeldOk(r)
  {
    forall p | DocumentAt(r, p) ensures DocumentAt(s, p) {
      var d :| d in r.docs && r.docs[d].path == p;
      assert s.docs[d].path == p;
    }
    forall p | PendingAt(r, p) ensures PendingAt(s, p) {}
  }

  lemma DropView(s: State, t: nat)
    requires Inv(s) && t in s.views
    requires forall d :: d in s.docs ==> s.docs[d].submission != Some(t)
    ensures Inv(s.(views := s.views - {t}))
  {
    var r := s.(views := s.views - {t});
    forall u: nat | StoredByWorker(r, u) ensures StoredByWorker(s, u) {}
    forall p | PendingAt(r, p) ensures PendingAt(s, p) {}
  }
}
