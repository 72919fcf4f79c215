/** What the decisions of module Pipeline come to, in terms of what goes into
    them: which type, band, client, placement, status and reason a document gets
    from what was read, looked up and found in the tables. */
module Outcomes {
  import opened Common
  import opened Pipeline

  // ------------------------------------------------------------------ type

  // A slip and a report are one paper as far as a file name goes.
  predicate SamePaper(a: DocType, b: DocType) {
    a == b || (a in {POLICE_SLIP, POLICE_REPORT} && b in {POLICE_SLIP, POLICE_REPORT})
  }

  predicate OnlyNamed(i: Input) {
    i.content.documentType == UNKNOWN && i.content.reason == NO_TEXT && i.filenameType != UNKNOWN
  }

  predicate Misnamed(i: Input) {
    i.content.documentType != UNKNOWN && i.filenameType != UNKNOWN && !SamePaper(i.filenameType, i.content.documentType)
  }

  // The content decides; the file name only for a document without any text.
  lemma TypeMeaning(i: Input)
    ensures
      var r := ResolveType(i);
      && (i.content.documentType != UNKNOWN ==> r.documentType == i.content.documentType)
      && (OnlyNamed(i) ==> r.documentType == i.filenameType)
      && (r.documentType == UNKNOWN <==> i.content.documentType == UNKNOWN && !OnlyNamed(i))
      && (r.source == FILENAME <==> OnlyNamed(i))
      && (r.filenameMismatch <==> Misnamed(i))
  {
  }

  // ------------------------------------------------------------------ confidence

  function Level(b: Band): nat {
    match b case BUndefined => 0 case BUnclear => 1 case BSlightlyUnclear => 2 case BHighConfidence => 3 case BVerified => 4
  }

  predicate AtLeast(a: Band, b: Band) {
    Level(b) <= Level(a)
  }

  // Where the bands begin: above 95, 90, 60, 40.
  predicate Reaches(value: real, b: Band) {
    match b
    case BVerified => 95.0 < value
    case BHighConfidence => 90.0 <= value
    case BSlightlyUnclear => 60.0 <= value
    case BUnclear => 40.0 <= value
    case BUndefined => true
  }

  // How strongly the content must show the type.
  function ScoreFor(b: Band): nat {
    match b case BVerified => 6 case BHighConfidence => 4 case BSlightlyUnclear => 3 case BUnclear => 3 case BUndefined => 0
  }

  predicate ReadAs(e: Extraction, b: Band) {
    e.success && (e.how == PDF_TEXT || (e.confidence.Some? && Reaches(e.confidence.value, b)))
  }

  // A document is in a band or a better one exactly when both signals are: the
  // text was read that well, and its content shows a type that strongly.
  lemma BandMeaning(i: Input, b: Band)
    requires b != BUndefined
    ensures AtLeast(Assess(i).band, b) <==>
      ReadAs(i.extraction, b) && i.content.documentType != UNKNOWN && i.content.score >= ScoreFor(b)
  {
  }

  // A content score's confidence; below 3 there is no type.
  const BY_SCORE: seq<real> := [0.0, 0.0, 0.0, 80.0, 90.0, 95.0, 100.0]

  function ByType(i: Input): real {
    if i.content.documentType != UNKNOWN then BY_SCORE[Min(i.content.score, 6)] else if OnlyNamed(i) then 30.0 else 0.0
  }

  // The measured value is the smaller of both, on a scale from 0 to 100.
  lemma DocumentMeaning(i: Input)
    ensures
      var e := i.extraction;
      && 0.0 <= Assess(i).document <= ByType(i)
      && (!e.success ==> Assess(i).document == 0.0)
      && (e.success && e.how == PDF_TEXT ==> Assess(i).document == ByType(i))
      && (e.success && e.how != PDF_TEXT && e.confidence.None? ==> Assess(i).document == 0.0)
      && (e.success && e.how != PDF_TEXT && e.confidence.Some? ==>
            var v := e.confidence.value;
            Assess(i).document == if v < 0.0 then 0.0 else if v < ByType(i) then v else ByType(i))
  {
  }

  lemma FlagsMeaning(i: Input)
    ensures
      var flags := ConfidenceOf(i).flags;
      && (CorruptFile in flags <==> i.extraction.how == PDF_PARSE_FAILED)
      && (NoReadableText in flags <==> !i.extraction.success && i.extraction.how != PDF_PARSE_FAILED)
      && (ClassifiedFromFilenameOnly in flags <==> OnlyNamed(i))
      && (WrongDocumentSuspected in flags <==> Misnamed(i))
      && (PoliceTypeUnclear in flags <==> i.content.reason == POLICE_TYPE_UNCLEAR)
      && (PassportAccepted in flags <==> Accepted(i))
    ensures ConfidenceOf(i).reviewRequired <==> !AtLeast(ConfidenceOf(i).band, BSlightlyUnclear) || Misnamed(i)
  {
  }

  // ------------------------------------------------------------------ identity

  function Found(l: Lookup): nat {
    if l.Users? then |l.users| else 0
  }

  predicate IsPassport(i: Input) {
    ResolveType(i).documentType == PASSPORT
  }

  // The passport number was read well enough to look anybody up.
  predicate NumberRead(i: Input) {
    i.passportLookup.Users? && 60.0 <= i.fields.passportId
  }

  predicate BothFound(i: Input) {
    IsPassport(i) && NumberRead(i) && Found(i.passportLookup) == 1 && Found(i.whatsappLookup) == 1
  }

  predicate SamePerson(i: Input)
    requires BothFound(i)
  {
    i.passportLookup.users[0].passportId == i.whatsappLookup.users[0].passportId
  }

  // Seven cases by how many users both lookups find.
  lemma IdentityMeaning(i: Input)
    ensures
      var status, p, w := IdentityOf(i).status, Found(i.passportLookup), Found(i.whatsappLookup);
      && (status == PASSPORT_ID_UNRESOLVED <==> IsPassport(i) && !NumberRead(i))
      && (status == VERIFIED_MATCH <==> BothFound(i) && SamePerson(i))
      && (status == IDENTITY_CONFLICT <==> BothFound(i) && !SamePerson(i))
      && (status == PASSPORT_MATCH_ONLY <==> IsPassport(i) && NumberRead(i) && p == 1 && w == 0)
      && (status == WHATSAPP_MATCH_ONLY <==> w == 1 && (IsPassport(i) ==> NumberRead(i) && p == 0))
      && (status == NO_MATCH <==> w == 0 && (IsPassport(i) ==> NumberRead(i) && p == 0))
      && (status == AMBIGUOUS_MATCH <==> if IsPassport(i) then NumberRead(i) && (p > 1 || w > 1) else w > 1)
  {
  }

  // Whom it names, whether as a guess only, and whether a person must confirm.
  lemma IdentityUser(i: Input)
    ensures
      var d, p, w := IdentityOf(i), Found(i.passportLookup), Found(i.whatsappLookup);
      && (d.status in {VERIFIED_MATCH, PASSPORT_MATCH_ONLY} ==> p == 1 && d.user == Some(i.passportLookup.users[0]))
      && (d.status in {WHATSAPP_MATCH_ONLY, PASSPORT_ID_UNRESOLVED} ==>
            d.user == if w == 1 then Some(i.whatsappLookup.users[0]) else None)
      && (d.status in {IDENTITY_CONFLICT, NO_MATCH, AMBIGUOUS_MATCH} ==> d.user == None)
      && (d.provisional <==> IsPassport(i) && w == 1 && (!NumberRead(i) || p == 0))
      && (d.reviewRequired <==> if IsPassport(i) then !(BothFound(i) && SamePerson(i)) else w != 1)
  {
  }

  // One existing client: for a passport by its number, unless WhatsApp names
  // somebody else; for anything else by WhatsApp.
  predicate Identified(i: Input) {
    if IsPassport(i) then
      && NumberRead(i) && Found(i.passportLookup) == 1 && i.passportLookup.users[0].passportId != ""
      && Found(i.whatsappLookup) <= 1 && (BothFound(i) ==> SamePerson(i))
    else Found(i.whatsappLookup) == 1 && i.whatsappLookup.users[0].passportId != ""
  }

  lemma IdentifiedMeaning(i: Input)
    ensures ClientIdentified(IdentityOf(i)) <==> Identified(i)
  {
    IdentityMeaning(i);
    IdentityUser(i);
  }

  // Nobody has to confirm the sender.
  predicate Confirmed(i: Input) {
    if IsPassport(i) then BothFound(i) && SamePerson(i) else Found(i.whatsappLookup) == 1
  }

  // ------------------------------------------------------------------ acceptance

  // The passport speaks for itself: both lines of its zone, number and dates read
  // with certainty, the sender's own, and as the record has them.
  predicate Proven(i: Input) {
    && i.content.documentType == PASSPORT && !Misnamed(i) && i.fields.mrzLines == 2
    && 95.0 < i.fields.passportId && 95.0 < i.fields.dateOfBirth && 95.0 < i.fields.expiry
    && BothFound(i) && SamePerson(i)
    && i.reconciliation == Reconciliation(0, true, true)
  }

  lemma AcceptedMeaning(i: Input)
    ensures Accepted(i) <==> Proven(i) && !AtLeast(Assess(i).band, BSlightlyUnclear)
    ensures ConfidenceOf(i).band == if Accepted(i) then BUnclear else Assess(i).band
  {
    TypeMeaning(i);
    IdentityMeaning(i);
    IdentityUser(i);
  }

  // Too poor for a client folder: below 40 and not proven.
  predicate TooPoor(i: Input) {
    !AtLeast(Assess(i).band, BUnclear) && !Proven(i)
  }

  lemma TooPoorMeaning(i: Input)
    ensures TooPoor(i) <==> ConfidenceOf(i).band == BUndefined
  {
    AcceptedMeaning(i);
  }

  // ------------------------------------------------------------------ placement

  // The client record says otherwise than the passport.
  predicate RecordDiffers(i: Input) {
    IsPassport(i) && NumberRead(i) && Found(i.passportLookup) == 1 && i.reconciliation.conflicts > 0
  }

  predicate Conflicted(i: Input) {
    RecordDiffers(i) || (BothFound(i) && !SamePerson(i))
  }

  predicate DateOpen(i: Input) {
    ResolveType(i).documentType == POLICE_SLIP && i.policeDate != RESOLVED
  }

  lemma ConflictMeaning(i: Input)
    ensures ReconciliationOf(i).Some? && ReconciliationOf(i).value.conflicts > 0 <==> RecordDiffers(i)
    ensures PoliceDateNeedsReview(PoliceDateOf(i)) <==> DateOpen(i)
    ensures HasReviewBlocker(ConfidenceOf(i), IdentityOf(i), PoliceDateOf(i)) <==>
            !Confirmed(i) || Misnamed(i) || OnlyNamed(i) || i.content.reason == POLICE_TYPE_UNCLEAR || DateOpen(i)
  {
    IdentityMeaning(i);
    IdentityUser(i);
    FlagsMeaning(i);
  }

  // What the worker files on its own, if nobody stored the same file meanwhile.
  predicate Storable(i: Input) {
    && Identified(i) && i.checksum == NEW && Confirmed(i) && !RecordDiffers(i)
    && !Misnamed(i) && i.content.reason != POLICE_TYPE_UNCLEAR && !DateOpen(i)
    && !TooPoor(i) && !i.verifiedOfType
  }

  predicate OwnAlready(i: Input) {
    Identified(i) && i.checksum.ALREADY_STORED?
  }

  // The client has the file in a document that is not VERIFIED.
  predicate UnverifiedCopy(i: Input) {
    Identified(i) && i.checksum == DUPLICATE_FILE(false)
  }

  predicate WouldWait(i: Input) {
    !Storable(i) && !OwnAlready(i) && !UnverifiedCopy(i)
  }

  lemma DecisionMeaning(i: Input)
    ensures Decide(i).placement == CLIENT <==> OwnAlready(i) || Storable(i)
    ensures Decide(i).placement == PENDING <==> WouldWait(i)
    ensures Decide(i).alreadyStored <==> OwnAlready(i)
  {
    IdentifiedMeaning(i);
    IdentityMeaning(i);
    ConflictMeaning(i);
    TooPoorMeaning(i);
    UnknownIsUndefined(i);
    FlagsMeaning(i);
    NeverDropped(i);
  }

  // NONE is for duplicates.
  lemma NeverDropped(i: Input)
    ensures Decide(i).placement == NONE <==> UnverifiedCopy(i)
  {
    IdentifiedMeaning(i);
  }

  // Main result: where a document goes, over everything that is read, looked up
  // and found in the tables.
  lemma PlacementMeaning(i: Input)
    ensures Place(i).placement == CLIENT <==> OwnAlready(i) || (Storable(i) && !i.insertDuplicate)
    ensures Place(i).placement == PENDING <==> WouldWait(i) && !i.pendingDuplicate
    ensures Place(i).placement == NONE <==>
            UnverifiedCopy(i) || (WouldWait(i) && i.pendingDuplicate) || (Storable(i) && i.insertDuplicate)
    ensures Place(i).stored.Some? <==> Storable(i) && !i.insertDuplicate
  {
    DecisionMeaning(i);
    NeverDropped(i);
    IdentifiedMeaning(i);
    TooPoorMeaning(i);
  }

  // ------------------------------------------------------------------ status

  predicate IsDuplicate(i: Input) {
    || Place(i).placement == NONE
    || (Identified(i) && i.checksum == DUPLICATE_FILE(true))
  }

  predicate InConflict(i: Input) {
    !IsDuplicate(i) && (Conflicted(i) || (Identified(i) && i.checksum == CROSS_CLIENT_CONFLICT))
  }

  // A person has to look, whatever the band.
  predicate NeedsALook(i: Input) {
    !Confirmed(i) || Misnamed(i) || DateOpen(i)
  }

  lemma PipelineStatus(i: Input)
    ensures
      var status := ProcessingStatus(ConfidenceOf(i), IdentityOf(i), ReconciliationOf(i), PoliceDateOf(i));
      status == if Conflicted(i) then CONFLICT
                else if AtLeast(ConfidenceOf(i).band, BSlightlyUnclear) && NeedsALook(i) then MANUAL_REVIEW
                else StBand(ConfidenceOf(i).band)
  {
    IdentityMeaning(i);
    IdentityUser(i);
    ConflictMeaning(i);
    FlagsMeaning(i);
  }

  // Main result: its status. Nothing that is dropped has another one than DUPLICATE.
  lemma StatusMeaning(i: Input)
    ensures Place(i).status == DUPLICATE <==> IsDuplicate(i)
    ensures Place(i).status == CONFLICT <==> InConflict(i)
    ensures Place(i).status == MANUAL_REVIEW <==>
            !IsDuplicate(i) && !InConflict(i) && NeedsALook(i) && AtLeast(ConfidenceOf(i).band, BSlightlyUnclear)
    ensures forall b :: Place(i).status == StBand(b) <==>
            && !IsDuplicate(i) && !InConflict(i) && b == ConfidenceOf(i).band
            && !(NeedsALook(i) && AtLeast(b, BSlightlyUnclear))
  {
    PipelineStatus(i);
    PlacementMeaning(i);
    DecisionMeaning(i);
    IdentifiedMeaning(i);
  }

  // ------------------------------------------------------------------ reason

  // Why a person has to look, in terms of the inputs.
  predicate Applies(i: Input, r: Reason) {
    match r
    case CROSS_CLIENT_DUPLICATE => Identified(i) && i.checksum == CROSS_CLIENT_CONFLICT
    case R_IDENTITY_CONFLICT => BothFound(i) && !SamePerson(i)
    case RECORD_CONFLICT => RecordDiffers(i)
    case DOCUMENT_TYPE_UNCLEAR => i.content.documentType == UNKNOWN || i.content.reason == POLICE_TYPE_UNCLEAR
    case WRONG_DOCUMENT => Misnamed(i)
    case IDENTITY_NOT_CONFIRMED => !Confirmed(i)
    case POLICE_DATE_UNRESOLVED => DateOpen(i)
    case LOW_CONFIDENCE => !AtLeast(Assess(i).band, BSlightlyUnclear)
    case EXISTING_VERIFIED_DOCUMENT => Identified(i) && i.checksum == NEW && i.verifiedOfType
    case DUPLICATE_OF_VERIFIED => false
  }

  const ORDER: seq<Reason> := [
    CROSS_CLIENT_DUPLICATE, R_IDENTITY_CONFLICT, RECORD_CONFLICT, DOCUMENT_TYPE_UNCLEAR, WRONG_DOCUMENT,
    IDENTITY_NOT_CONFIRMED, POLICE_DATE_UNRESOLVED, LOW_CONFIDENCE, EXISTING_VERIFIED_DOCUMENT]

  predicate IsFirst(i: Input, k: nat)
    requires k < |ORDER|
  {
    Applies(i, ORDER[k]) && forall j :: 0 <= j < k ==> !Applies(i, ORDER[j])
  }

  lemma ReasonTests(i: Input)
    ensures Applies(i, DOCUMENT_TYPE_UNCLEAR) <==>
            (ResolveType(i).documentType == UNKNOWN || PoliceTypeUnclear in ConfidenceOf(i).flags
             || ClassifiedFromFilenameOnly in ConfidenceOf(i).flags)
    ensures BandNeedsReview(ConfidenceOf(i).band) <==> Applies(i, LOW_CONFIDENCE)
    ensures IdentityOf(i).reviewRequired <==> Applies(i, IDENTITY_NOT_CONFIRMED)
    ensures VerifiedOfTypeExists(i) <==> Applies(i, EXISTING_VERIFIED_DOCUMENT) && !TooPoor(i)
  {
    TypeMeaning(i);
    FlagsMeaning(i);
    AcceptedMeaning(i);
    IdentityUser(i);
    IdentifiedMeaning(i);
    TooPoorMeaning(i);
  }

  lemma ChecksumTests(i: Input)
    ensures ChecksumOf(i) == Some(CROSS_CLIENT_CONFLICT) <==> Applies(i, CROSS_CLIENT_DUPLICATE)
    ensures IdentityOf(i).status == IDENTITY_CONFLICT <==> Applies(i, R_IDENTITY_CONFLICT)
  {
    IdentifiedMeaning(i);
    IdentityMeaning(i);
  }

  lemma ReasonInTurn(i: Input)
    requires Place(i).status != DUPLICATE
    ensures ReasonOf(i) ==
            if Applies(i, CROSS_CLIENT_DUPLICATE) then Some(CROSS_CLIENT_DUPLICATE)
            else if Applies(i, R_IDENTITY_CONFLICT) then Some(R_IDENTITY_CONFLICT)
            else if Applies(i, RECORD_CONFLICT) then Some(RECORD_CONFLICT)
            else if Applies(i, DOCUMENT_TYPE_UNCLEAR) then Some(DOCUMENT_TYPE_UNCLEAR)
            else if Applies(i, WRONG_DOCUMENT) then Some(WRONG_DOCUMENT)
            else if Applies(i, IDENTITY_NOT_CONFIRMED) then Some(IDENTITY_NOT_CONFIRMED)
            else if Applies(i, POLICE_DATE_UNRESOLVED) then Some(POLICE_DATE_UNRESOLVED)
            else if Applies(i, LOW_CONFIDENCE) then Some(LOW_CONFIDENCE)
            else if Applies(i, EXISTING_VERIFIED_DOCUMENT) then Some(EXISTING_VERIFIED_DOCUMENT) else None
  {
    ReasonTests(i);
    ChecksumTests(i);
    ConflictMeaning(i);
    FlagsMeaning(i);
    TooPoorMeaning(i);
  }

  // The place in ORDER of the reason that is derived.
  lemma ReasonInOrder(i: Input) returns (n: nat)
    requires !IsDuplicate(i)
    ensures n <= |ORDER| && forall j :: 0 <= j < n ==> !Applies(i, ORDER[j])
    ensures if n < |ORDER| then Applies(i, ORDER[n]) && ReasonOf(i) == Some(ORDER[n]) else ReasonOf(i) == None
  {
    StatusMeaning(i);
    ReasonInTurn(i);
    n := if Applies(i, ORDER[0]) then 0 else if Applies(i, ORDER[1]) then 1 else if Applies(i, ORDER[2]) then 2
         else if Applies(i, ORDER[3]) then 3 else if Applies(i, ORDER[4]) then 4 else if Applies(i, ORDER[5]) then 5
         else if Applies(i, ORDER[6]) then 6 else if Applies(i, ORDER[7]) then 7 else if Applies(i, ORDER[8]) then 8 else 9;
  }

  lemma FirstIsOne(i: Input, k: nat, n: nat)
    requires k < |ORDER| && IsFirst(i, k)
    requires n <= |ORDER| && (forall j :: 0 <= j < n ==> !Applies(i, ORDER[j])) && (n < |ORDER| ==> Applies(i, ORDER[n]))
    ensures k == n
  {
  }

  // Main result: the reason is the first that applies, in the order above; a
  // duplicate has one exactly when the client's document is VERIFIED.
  lemma ReasonMeaning(i: Input)
    ensures IsDuplicate(i) ==>
      ReasonOf(i) == if Identified(i) && i.checksum == DUPLICATE_FILE(true) then Some(DUPLICATE_OF_VERIFIED) else None
    ensures !IsDuplicate(i) ==>
      && (forall k :: 0 <= k < |ORDER| && IsFirst(i, k) ==> ReasonOf(i) == Some(ORDER[k]))
      && (ReasonOf(i) == None <==> forall k :: 0 <= k < |ORDER| ==> !Applies(i, ORDER[k]))
  {
    if IsDuplicate(i) {
      StatusMeaning(i);
      IdentifiedMeaning(i);
    } else {
      var n := ReasonInOrder(i);
      forall k | 0 <= k < |ORDER| && IsFirst(i, k) ensures k == n { FirstIsOne(i, k, n); }
    }
  }
}
