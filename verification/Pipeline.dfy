/** What the pipeline decides about one document (the chain of
    src/services/documentProcessingService.js): document type, confidence band,
    identity, acceptance of a low-quality passport, processing status,
    placement and review reason, each decided by a module of its own. */
module Pipeline {
  import opened Common

  datatype DocType = PASSPORT | POLICE_SLIP | POLICE_REPORT | MEDICAL | UNKNOWN

  datatype Source = FILENAME | CONTENT

  datatype Method = PDF_TEXT | PDF_OCR | PDF_PARSE_FAILED | OCR | UNSUPPORTED_DOCUMENT_TYPE

  // `confidence` is None when it is missing or not a finite number.
  datatype Extraction = Extraction(success: bool, how: Method, confidence: Option<real>)

  datatype ContentReason = NO_REASON | NO_TEXT | INSUFFICIENT_EVIDENCE | AMBIGUOUS_CONTENT | POLICE_TYPE_UNCLEAR

  datatype Content = Content(documentType: DocType, score: nat, reason: ContentReason)

  datatype Resolved = Resolved(documentType: DocType, source: Source, filenameMismatch: bool)

  datatype Band = BVerified | BHighConfidence | BSlightlyUnclear | BUnclear | BUndefined

  datatype Flag = WrongDocumentSuspected | ClassifiedFromFilenameOnly | NoReadableText | CorruptFile | PassportAccepted | PoliceTypeUnclear

  datatype Confidence = Confidence(document: real, band: Band, reviewRequired: bool, flags: set<Flag>)

  datatype User = User(passportId: string, uniqueId: string)

  // userLookupService: FOUND is exactly one user, MULTIPLE more than one.
  datatype Lookup = InvalidInput | Users(users: seq<User>)

  datatype IdentityStatus =
    | VERIFIED_MATCH | PASSPORT_MATCH_ONLY | WHATSAPP_MATCH_ONLY | IDENTITY_CONFLICT
    | NO_MATCH | PASSPORT_ID_UNRESOLVED | AMBIGUOUS_MATCH

  datatype Identity = Identity(status: IdentityStatus, user: Option<User>, reviewRequired: bool, provisional: bool)

  // Field confidences read from a passport, and how many MRZ lines were found.
  datatype Fields = Fields(passportId: real, dateOfBirth: real, expiry: real, mrzLines: nat)

  datatype Reconciliation = Reconciliation(conflicts: nat, birthMatched: bool, expiryMatched: bool)

  datatype DateStatus = RESOLVED | AMBIGUOUS | INVALID | NOT_FOUND

  datatype Checksum = NEW | ALREADY_STORED(existingVerified: bool) | DUPLICATE_FILE(existingVerified: bool) | CROSS_CLIENT_CONFLICT

  datatype Status = StBand(band: Band) | CONFLICT | MANUAL_REVIEW | DUPLICATE

  datatype Placement = CLIENT | PENDING | NONE

  datatype Decision = Decision(placement: Placement, status: Status, alreadyStored: bool, fellThrough: bool)

  datatype Reason = CROSS_CLIENT_DUPLICATE | R_IDENTITY_CONFLICT | RECORD_CONFLICT | DOCUMENT_TYPE_UNCLEAR | WRONG_DOCUMENT
                  | IDENTITY_NOT_CONFIRMED | POLICE_DATE_UNRESOLVED | LOW_CONFIDENCE | DUPLICATE_OF_VERIFIED | EXISTING_VERIFIED_DOCUMENT

  datatype Verification = DOC_VERIFIED | DOC_REVIEW_REQUIRED

  // Everything the chain reads: the text engine, the lookups, the documents table.
  datatype Input = Input(
    extraction: Extraction, filenameType: DocType, content: Content, fields: Fields,
    passportLookup: Lookup, whatsappLookup: Lookup, reconciliation: Reconciliation, policeDate: DateStatus,
    checksum: Checksum, verifiedOfType: bool, pendingDuplicate: bool, insertDuplicate: bool)

  // ------------------------------------------------------------------ type and confidence

  function Family(t: DocType): DocType {
    if t == POLICE_SLIP then POLICE_REPORT else t
  }

  // resolveDocumentType: the content decides.
  function ResolveType(i: Input): Resolved {
    if i.content.documentType != UNKNOWN then
      Resolved(i.content.documentType, CONTENT, i.filenameType != UNKNOWN && Family(i.filenameType) != Family(i.content.documentType))
    else if i.content.reason == NO_TEXT && i.filenameType != UNKNOWN then Resolved(i.filenameType, FILENAME, false)
    else Resolved(UNKNOWN, CONTENT, false)
  }

  function BandOf(value: real): Band {
    if value > 95.0 then BVerified
    else if value >= 90.0 then BHighConfidence
    else if value >= 60.0 then BSlightlyUnclear
    else if value >= 40.0 then BUnclear
    else BUndefined
  }

  function ExtractionConfidence(e: Extraction): real {
    if !e.success then 0.0
    else if e.how == PDF_TEXT then 100.0
    else if e.confidence.None? || e.confidence.value < 0.0 then 0.0
    else if e.confidence.value > 100.0 then 100.0
    else e.confidence.value
  }

  function ClassificationConfidence(r: Resolved, score: nat): real {
    if r.documentType == UNKNOWN then 0.0
    else if r.source == FILENAME then 30.0
    else if score >= 6 then 100.0
    else if score >= 5 then 95.0
    else if score >= 4 then 90.0
    else if score >= 3 then 80.0
    else 0.0
  }

  predicate BandNeedsReview(b: Band) {
    b == BUnclear || b == BUndefined
  }

  // assessDocumentConfidence: the weaker of the two signals.
  function Assess(i: Input): Confidence {
    var r := ResolveType(i);
    var e, c := ExtractionConfidence(i.extraction), ClassificationConfidence(r, i.content.score);
    var value := if e < c then e else c;
    var flags :=
      (if i.extraction.how == PDF_PARSE_FAILED then {CorruptFile} else if !i.extraction.success then {NoReadableText} else {})
      + (if r.source == FILENAME then {ClassifiedFromFilenameOnly} else {})
      + (if r.filenameMismatch then {WrongDocumentSuspected} else {})
      + (if i.content.reason == POLICE_TYPE_UNCLEAR then {PoliceTypeUnclear} else {});
    Confidence(value, BandOf(value), BandNeedsReview(BandOf(value)) || WrongDocumentSuspected in flags, flags)
  }

  // ------------------------------------------------------------------ identity

  function FoundUser(l: Lookup): Option<User> {
    if l.Users? && |l.users| == 1 then Some(l.users[0]) else None
  }

  predicate Multiple(l: Lookup) {
    l.Users? && |l.users| > 1
  }

  // decideIdentity; a passport number below 60 identifies nobody.
  function DecideIdentity(isPassport: bool, numberConfidence: real, passportLookup: Lookup, whatsappLookup: Lookup): Identity {
    var w := FoundUser(whatsappLookup);
    if !isPassport then
      if Multiple(whatsappLookup) then Identity(AMBIGUOUS_MATCH, None, true, false)
      else if w.Some? then Identity(WHATSAPP_MATCH_ONLY, w, false, false)
      else Identity(NO_MATCH, None, true, false)
    else if passportLookup.InvalidInput? || numberConfidence < 60.0 then Identity(PASSPORT_ID_UNRESOLVED, w, true, w.Some?)
    else if Multiple(passportLookup) || Multiple(whatsappLookup) then Identity(AMBIGUOUS_MATCH, None, true, false)
    else
      var p := FoundUser(passportLookup);
      if p.Some? && w.Some? then
        if p.value.passportId == w.value.passportId then Identity(VERIFIED_MATCH, p, false, false)
        else Identity(IDENTITY_CONFLICT, None, true, false)
      else if p.Some? then Identity(PASSPORT_MATCH_ONLY, p, true, false)
      else if w.Some? then Identity(WHATSAPP_MATCH_ONLY, w, true, true)
      else Identity(NO_MATCH, None, true, false)
  }

  function IdentityOf(i: Input): Identity {
    DecideIdentity(ResolveType(i).documentType == PASSPORT, i.fields.passportId, i.passportLookup, i.whatsappLookup)
  }

  // One existing, non-provisional client.
  predicate ClientIdentified(identity: Identity) {
    && identity.status in {VERIFIED_MATCH, PASSPORT_MATCH_ONLY, WHATSAPP_MATCH_ONLY}
    && !identity.provisional
    && identity.user.Some? && identity.user.value.passportId != ""
  }

  function ChecksumOf(i: Input): Option<Checksum> {
    if ClientIdentified(IdentityOf(i)) then Some(i.checksum) else None
  }

  function ReconciliationOf(i: Input): Option<Reconciliation> {
    if ResolveType(i).documentType == PASSPORT && FoundUser(i.passportLookup).Some? && IdentityOf(i).status != PASSPORT_ID_UNRESOLVED
    then Some(i.reconciliation) else None
  }

  function PoliceDateOf(i: Input): Option<DateStatus> {
    if ResolveType(i).documentType == POLICE_SLIP then Some(i.policeDate) else None
  }

  // ------------------------------------------------------------------ acceptance

  // evaluatePassportAcceptance: all twelve conditions, for a low band only.
  predicate Accepted(i: Input) {
    var r, c := ResolveType(i), Assess(i);
    && (c.band == BUndefined || c.band == BUnclear)
    && r.documentType == PASSPORT
    && r.source == CONTENT && ClassifiedFromFilenameOnly !in c.flags
    && !r.filenameMismatch && WrongDocumentSuspected !in c.flags
    && i.fields.mrzLines == 2
    && BandOf(i.fields.passportId) == BVerified && BandOf(i.fields.dateOfBirth) == BVerified && BandOf(i.fields.expiry) == BVerified
    && IdentityOf(i).status == VERIFIED_MATCH && !IdentityOf(i).provisional
    && ReconciliationOf(i).Some? && ReconciliationOf(i).value.conflicts == 0
    && ReconciliationOf(i).value.birthMatched && ReconciliationOf(i).value.expiryMatched
  }

  // applyPassportAcceptance: only the band and a flag change.
  function ConfidenceOf(i: Input): Confidence {
    var c := Assess(i);
    if Accepted(i) then c.(band := BUnclear, reviewRequired := true, flags := c.flags + {PassportAccepted}) else c
  }

  // ------------------------------------------------------------------ status and placement

  predicate PoliceDateNeedsReview(d: Option<DateStatus>) {
    d.Some? && d.value != RESOLVED
  }

  function ProcessingStatus(c: Confidence, identity: Identity, reconciliation: Option<Reconciliation>, date: Option<DateStatus>): Status {
    if identity.status == IDENTITY_CONFLICT || (reconciliation.Some? && reconciliation.value.conflicts > 0) then CONFLICT
    else if c.band == BUndefined then StBand(BUndefined)
    else if identity.reviewRequired || c.reviewRequired || PoliceDateNeedsReview(date) then
      if c.band == BUnclear then StBand(BUnclear) else MANUAL_REVIEW
    else StBand(c.band)
  }

  predicate HasReviewBlocker(c: Confidence, identity: Identity, date: Option<DateStatus>) {
    || identity.reviewRequired
    || WrongDocumentSuspected in c.flags || ClassifiedFromFilenameOnly in c.flags || PoliceTypeUnclear in c.flags
    || PoliceDateNeedsReview(date)
  }

  predicate HasClientFolder(t: DocType) {
    t != UNKNOWN
  }

  predicate ClientBand(b: Band) {
    b != BUndefined
  }

  function VerifiedOfTypeExists(i: Input): bool {
    ClientIdentified(IdentityOf(i)) && i.checksum == NEW && ClientBand(ConfidenceOf(i).band) && i.verifiedOfType
  }

  function DecidePlacement(status: Status, band: Band, documentType: DocType, clientIdentified: bool, checksum: Option<Checksum>,
                           reviewBlocked: bool, verifiedOfTypeExists: bool): Decision {
    if checksum.Some? && checksum.value.ALREADY_STORED? then Decision(CLIENT, status, true, false)
    else if checksum.Some? && checksum.value.DUPLICATE_FILE? then
      if checksum.value.existingVerified && clientIdentified
      then Decision(PENDING, DUPLICATE, false, false) else Decision(NONE, DUPLICATE, false, false)
    else if checksum.Some? && checksum.value.CROSS_CLIENT_CONFLICT? then Decision(PENDING, CONFLICT, false, false)
    else if status == CONFLICT || status == StBand(BUndefined) || status == MANUAL_REVIEW then Decision(PENDING, status, false, false)
    else if reviewBlocked then Decision(PENDING, status, false, false)
    else if clientIdentified && HasClientFolder(documentType) && ClientBand(band) then
      if verifiedOfTypeExists then Decision(PENDING, status, false, false) else Decision(CLIENT, status, false, false)
    else Decision(PENDING, status, false, true)
  }

  function Decide(i: Input): Decision {
    var c, identity := ConfidenceOf(i), IdentityOf(i);
    DecidePlacement(ProcessingStatus(c, identity, ReconciliationOf(i), PoliceDateOf(i)), c.band, ResolveType(i).documentType,
                    ClientIdentified(identity), ChecksumOf(i), HasReviewBlocker(c, identity, PoliceDateOf(i)), VerifiedOfTypeExists(i))
  }

  datatype Placed = Placed(placement: Placement, status: Status, stored: Option<Verification>)

  function VerificationForBand(b: Band): Verification
    requires ClientBand(b)
  {
    if b == BUnclear then DOC_REVIEW_REQUIRED else DOC_VERIFIED
  }

  // placeDocument: a same file already waiting, or stored meanwhile, is a duplicate.
  function Place(i: Input): Placed {
    var d := Decide(i);
    match d.placement
    case NONE => Placed(NONE, d.status, None)
    case PENDING => if i.pendingDuplicate then Placed(NONE, DUPLICATE, None) else Placed(PENDING, d.status, None)
    case CLIENT =>
      if d.alreadyStored then Placed(CLIENT, d.status, None)
      else if i.insertDuplicate then Placed(NONE, DUPLICATE, None)
      else Placed(CLIENT, d.status, if ClientBand(ConfidenceOf(i).band) then Some(VerificationForBand(ConfidenceOf(i).band)) else None)
  }

  // ------------------------------------------------------------------ review reason

  function DeriveReviewReason(status: Status, documentType: DocType, c: Confidence, identity: Identity, reconciliation: Option<Reconciliation>,
                              date: Option<DateStatus>, checksum: Option<Checksum>, verifiedOfTypeExists: bool): Option<Reason> {
    if status == DUPLICATE then
      if checksum.Some? && (checksum.value.DUPLICATE_FILE? || checksum.value.ALREADY_STORED?) && checksum.value.existingVerified
      then Some(DUPLICATE_OF_VERIFIED) else None
    else if checksum == Some(CROSS_CLIENT_CONFLICT) then Some(CROSS_CLIENT_DUPLICATE)
    else if identity.status == IDENTITY_CONFLICT then Some(R_IDENTITY_CONFLICT)
    else if reconciliation.Some? && reconciliation.value.conflicts > 0 then Some(RECORD_CONFLICT)
    else if documentType == UNKNOWN || PoliceTypeUnclear in c.flags || ClassifiedFromFilenameOnly in c.flags then Some(DOCUMENT_TYPE_UNCLEAR)
    else if WrongDocumentSuspected in c.flags then Some(WRONG_DOCUMENT)
    else if identity.reviewRequired then Some(IDENTITY_NOT_CONFIRMED)
    else if PoliceDateNeedsReview(date) then Some(POLICE_DATE_UNRESOLVED)
    else if c.band == BUndefined || c.band == BUnclear then Some(LOW_CONFIDENCE)
    else if verifiedOfTypeExists then Some(EXISTING_VERIFIED_DOCUMENT)
    else None
  }

  function ReasonOf(i: Input): Option<Reason> {
    DeriveReviewReason(Place(i).status, ResolveType(i).documentType, ConfidenceOf(i), IdentityOf(i), ReconciliationOf(i), PoliceDateOf(i),
                       ChecksumOf(i), VerifiedOfTypeExists(i))
  }

  // ------------------------------------------------------------------ agreement

  // The sender's record has an empty passport ID, and so has the client of the
  // passport number when the document is a passport.
  predicate NamelessSender(i: Input) {
    && FoundUser(i.whatsappLookup).Some? && FoundUser(i.whatsappLookup).value.passportId == ""
    && (ResolveType(i).documentType == PASSPORT ==>
          && i.fields.passportId >= 60.0
          && FoundUser(i.passportLookup).Some? && FoundUser(i.passportLookup).value.passportId == "")
  }

  // The document itself raises no question but, perhaps, its confidence.
  predicate NothingElseToReview(i: Input) {
    && !ResolveType(i).filenameMismatch && i.content.reason != POLICE_TYPE_UNCLEAR
    && (ResolveType(i).documentType == PASSPORT ==> i.reconciliation.conflicts == 0)
    && (ResolveType(i).documentType == POLICE_SLIP ==> i.policeDate == RESOLVED)
  }

  // The only way past every rule of decidePlacement.
  lemma FallThroughIff(i: Input)
    ensures Decide(i).fellThrough <==> NamelessSender(i) && NothingElseToReview(i) && ClientBand(ConfidenceOf(i).band)
  {
    UnknownIsUndefined(i);
  }

  // Every user found has a passport ID: then the last rule is never reached.
  lemma FallThroughUnreachable(i: Input)
    requires FoundUser(i.whatsappLookup).Some? ==> FoundUser(i.whatsappLookup).value.passportId != ""
    ensures !Decide(i).fellThrough
  {
  }

  // Main result: a document that waits in pending/ has a review reason, except
  // exactly when nothing but the sender's empty passport ID holds it back: it was
  // read well (its band asks for no review) and is not waiting already.
  lemma PendingHasReasonIff(i: Input)
    ensures
      Place(i).placement == PENDING && ReasonOf(i).None? <==>
      NamelessSender(i) && NothingElseToReview(i) && !BandNeedsReview(Assess(i).band) && !i.pendingDuplicate
  {
    FallThroughIff(i);
    UnknownIsUndefined(i);
  }

  // A document of unknown type has confidence 0 and is not accepted.
  lemma UnknownIsUndefined(i: Input)
    ensures ResolveType(i).documentType == UNKNOWN ==> ConfidenceOf(i).band == BUndefined
    ensures ClassifiedFromFilenameOnly in ConfidenceOf(i).flags ==> ConfidenceOf(i).band == BUndefined
  {
  }

  // Main result: a freshly stored document is stored REVIEW_REQUIRED with the
  // reason LOW_CONFIDENCE exactly when its band is UNCLEAR, and VERIFIED without
  // a reason otherwise.
  lemma StoredAgreesWithReason(i: Input)
    requires Place(i).placement == CLIENT && !Decide(i).alreadyStored
    ensures ReasonOf(i) == if ConfidenceOf(i).band == BUnclear then Some(LOW_CONFIDENCE) else None
    ensures Place(i).stored == Some(if ConfidenceOf(i).band == BUnclear then DOC_REVIEW_REQUIRED else DOC_VERIFIED)
    ensures Place(i).status == StBand(ConfidenceOf(i).band)
  {
  }

  // What may enter a client folder on its own: a known type read from the
  // content, of one client confirmed by WhatsApp (and by the passport number when
  // it is a passport), without any reason for a person to look first.
  lemma StoredIsProven(i: Input)
    requires Place(i).placement == CLIENT && !Decide(i).alreadyStored
    ensures ResolveType(i).documentType != UNKNOWN && ResolveType(i).source == CONTENT && !ResolveType(i).filenameMismatch
    ensures
      var w := FoundUser(i.whatsappLookup);
      && w.Some? && IdentityOf(i).user.Some? && IdentityOf(i).user.value.passportId == w.value.passportId
      && (ResolveType(i).documentType == PASSPORT ==>
            FoundUser(i.passportLookup).Some? && FoundUser(i.passportLookup).value.passportId == w.value.passportId)
    ensures i.checksum == NEW && !i.verifiedOfType
    ensures ResolveType(i).documentType == POLICE_SLIP ==> i.policeDate == RESOLVED
  {
    UnknownIsUndefined(i);
  }

  // The acceptance rule never makes a document look better than UNCLEAR, and
  // without it a document below 40 never enters a client folder.
  lemma AcceptanceOnlyLiftsToUnclear(i: Input)
    ensures Accepted(i) ==> ConfidenceOf(i).band == BUnclear && ConfidenceOf(i).document == Assess(i).document
    ensures Place(i).placement == CLIENT && !Decide(i).alreadyStored && Assess(i).document < 40.0 ==>
              Accepted(i) && Place(i).stored == Some(DOC_REVIEW_REQUIRED)
  {
  }

  // The input with which a waiting file gets no review reason.
  const EmptyPassportId := Input(
    Extraction(true, PDF_TEXT, None), UNKNOWN, Content(MEDICAL, 6, NO_REASON), Fields(0.0, 0.0, 0.0, 0),
    InvalidInput, Users([User("", "0001")]), Reconciliation(0, false, false), NOT_FOUND, NEW, false, false, false)

  lemma NamelessSenderHasNoReason()
    ensures Place(EmptyPassportId).placement == PENDING && ReasonOf(EmptyPassportId) == None
  {
    assert BandOf(100.0) == BVerified;
  }
}
