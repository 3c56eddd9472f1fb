/**
 The gateway's decisions (`gateway.rs`, `gateway/recovery.rs`): pure readings of what the vendor
 answered. The step sequences that ask live in `CreateGateway` and `StornoGateway`.
 */
module GatewayAnswers {
  import opened Wrappers
  import opened Documents
  import opened ErrorCodes
  import opened CreateProtocol
  import Texts

  /** How an exchange failed, as the client reports it. */
  datatype ClientError =
    | ApiError(code: ErrorCode)
    | RequestRefused | ServiceUnavailable | HttpStatus | ParseFailure | TransportFailure

  // ---------------------------------------------------------------- what the vendor replied to a query

  /** The vendor's reply to a query, before anything is made of it. */
  type Reply = Result<FoundDocument, ClientError>

  /** What a query selects by: the external id of the call, that of another kind of the order, the order, a number. */
  datatype Selector = OwnId | IdOfKind(kind: IssuedKind) | OfOrder | ByNumber(number: string)

  /** One query and its reply. */
  datatype Asked = Asked(selector: Selector, reply: Reply)

  /** The reads after a send: the external id, and the order hint. */
  function AskedAfter(read: Option<Reply>, hint: Option<Reply>): seq<Asked> {
    (if read.Some? then [Asked(OwnId, read.value)] else []) + (if hint.Some? then [Asked(OfOrder, hint.value)] else [])
  }

  /** A document with a number, and with the number asked for when one was. */
  predicate Shows(reply: Reply, expected: Option<string>) {
    && reply.Ok? && (exists i | 0 <= i < |reply.value.number| :: !Texts.IsWhitespace(reply.value.number[i]))
    && (expected.Some? ==> reply.value.number == expected.value)
  }

  /** Code 7: there is no such document. */
  predicate Misses(reply: Reply) {
    reply == Err(ApiError(MissingData))
  }

  /** Another vendor code than those of absence, credentials and passing trouble. */
  predicate AnswersCode(reply: Reply) {
    && reply.Err? && reply.error.ApiError? && reply.error.code != MissingData
    && !IsCredentialError(reply.error.code) && !IsRetryable(reply.error.code)
  }

  predicate RejectsCredentials(reply: Reply) {
    reply.Err? && reply.error.ApiError? && IsCredentialError(reply.error.code)
  }

  predicate IsTransient(reply: Reply) {
    reply.Err? && reply.error.ApiError? && IsRetryable(reply.error.code)
  }

  /** No answer at all: a failed exchange, or a document that is not the one asked for. */
  predicate IsLost(reply: Reply, expected: Option<string>) {
    if reply.Ok? then !Shows(reply, expected) else !reply.error.ApiError? && !reply.error.ServiceUnavailable?
  }

  /** The document type each kind is issued as, spelt out. */
  predicate TypeFits(kind: IssuedKind, documentType: DocumentType) {
    && (kind == Proforma <==> documentType == ProformaType) && (kind == Invoice <==> documentType == InvoiceType)
    && (kind == Prepayment <==> documentType == PrepaymentType) && (kind == Final <==> documentType == FinalType)
    && (kind == Corrective <==> documentType == CorrectiveType)
    && (documentType == ProformaType || documentType == InvoiceType || documentType == PrepaymentType
        || documentType == FinalType || documentType == CorrectiveType)
  }

  /** The document answers to the order, the kind and the corrective base of the request, field by field. */
  predicate Matches(request: CreateStepRequest, d: FoundDocument) {
    && d.orderNumber == Some(request.order) && TypeFits(request.kind, d.documentType)
    && (if request.kind == Corrective then request.corrected.Some? && d.referenced == request.corrected
        else request.corrected.None?)
  }

  /** The reply shows a document that answers to the request. */
  predicate Validated(request: CreateStepRequest, reply: Reply) {
    Shows(reply, None) && Matches(request, reply.value)
  }

  /** Matching positive issuance evidence: a validated holder that is not the old reissue target. */
  predicate IsEvidence(request: CreateStepRequest, reply: Reply) {
    Validated(request, reply) && request.reversed != Some(reply.value.number)
  }

  /** What the leading reply must be for a send: a miss, or exactly the expected document, reversed. */
  predicate ReplyPermits(request: CreateStepRequest, reply: Reply) {
    match request.reversed
    case None => Misses(reply)
    case Some(number) =>
      Validated(request, reply) && reply.value.number == number && reply.value.reversed == Some(true)
  }

  // ---------------------------------------------------------------- queries

  datatype QueryError =
    | QueryNotFound | QueryCredentials(code: ErrorCode) | QueryApi(code: ErrorCode)
    | QueryDown | QueryTransient(code: ErrorCode) | QueryTransport

  /** `query_projected`, with the number the selector asked for when it names one. */
  function QueryResult(reply: Reply, expected: Option<string>)
    : Result<FoundDocument, QueryError>
  {
    match reply
    case Ok(d) =>
      if IsBlank(d.number) || (expected.Some? && expected.value != d.number) then Err(QueryTransport) else Ok(d)
    case Err(ApiError(code)) =>
      if code == MissingData then Err(QueryNotFound)
      else if IsCredentialError(code) then Err(QueryCredentials(code))
      else if IsRetryable(code) then Err(QueryTransient(code))
      else Err(QueryApi(code))
    case Err(ServiceUnavailable) => Err(QueryDown)
    case Err(_) => Err(QueryTransport)
  }

  /** Each answer stands for exactly the replies that mean it. */
  lemma QueryResultMeans(reply: Reply, expected: Option<string>)
    ensures var answer := QueryResult(reply, expected);
            && (answer.Ok? <==> Shows(reply, expected)) && (answer.Ok? ==> reply == Ok(answer.value))
            && (answer == Err(QueryNotFound) <==> Misses(reply))
            && (answer.Err? && answer.error.QueryCredentials? <==> RejectsCredentials(reply))
            && (answer.Err? && answer.error.QueryTransient? <==> IsTransient(reply))
            && (answer.Err? && answer.error.QueryApi? <==> AnswersCode(reply))
            && (RejectsCredentials(reply) || IsTransient(reply) || AnswersCode(reply) ==>
                  answer.error.code == reply.error.code)
            && (answer == Err(QueryDown) <==> reply == Err(ServiceUnavailable))
            && (answer == Err(QueryTransport) <==> IsLost(reply, expected))
  {
    if reply.Ok? {
      BlankMeans(reply.value.number);
      hide Texts.IsWhitespace, IsBlank;
    }
  }

  /** The readings of a document agree with its fields. */
  lemma MatchesMeans(request: CreateStepRequest, d: FoundDocument)
    ensures d.IsOurs(request.order, request.kind) && d.MatchesBase(request.kind, request.corrected)
            <==> Matches(request, d)
    ensures d.IsLive() <==> d.reversed != Some(true)
  {
  }

  /** What the vendor is trusted with on a query: it sees the newest holder, and only code 7 says there is none. */
  predicate QueryTruthful(newest: Option<FoundDocument>, reply: Reply) {
    match reply
    case Ok(d) => newest == Some(d)
    case Err(e) => e == ApiError(MissingData) ==> newest.None?
  }

  datatype Answer = AnswerNotFound | AnswerCredentials(code: ErrorCode) | AnswerApi(code: ErrorCode)

  datatype Unanswered = UnansweredTransport | UnansweredUnavailable

  /** `QueryError::answered`. */
  function Answered(e: QueryError): Result<Answer, Unanswered> {
    match e
    case QueryNotFound => Ok(AnswerNotFound)
    case QueryCredentials(code) => Ok(AnswerCredentials(code))
    case QueryApi(code) => Ok(AnswerApi(code))
    case QueryTransient(_) => Err(UnansweredUnavailable)
    case QueryDown => Err(UnansweredUnavailable)
    case QueryTransport => Err(UnansweredTransport)
  }

  datatype Seen =
    | SeenAbsent
    | SeenLive(doc: FoundDocument)
    | SeenReversed(doc: FoundDocument)
    | SeenCollision(doc: FoundDocument)

  /** `seen`. */
  function SeenOf(answer: Result<FoundDocument, QueryError>, order: string, kind: IssuedKind)
    : Result<Seen, QueryError>
  {
    match answer
    case Ok(d) =>
      if !d.IsOurs(order, kind) then Ok(SeenCollision(d))
      else if d.IsLive() then Ok(SeenLive(d)) else Ok(SeenReversed(d))
    case Err(QueryNotFound) => Ok(SeenAbsent)
    case Err(e) => Err(e)
  }

  // ---------------------------------------------------------------- outcomes

  datatype CreateOutcome =
    | TargetChanged
    | Issued(number: string)
    | Found(doc: FoundDocument)
    | Reversed(doc: FoundDocument)
    | LiveAgain(doc: FoundDocument)
    | Reconciled(doc: FoundDocument)
    | Collision(doc: FoundDocument)
    | DuplicateOrder(code: ErrorCode, existing: Option<string>)
    | Rejected(refusal: Option<ErrorCode>)
    | CredentialsRejected(code: ErrorCode)
    | Api(code: ErrorCode)
    | Unavailable

  datatype Unconfirmed =
    | ReissueEcho | LostTransport | OpenAnswer(code: Option<ErrorCode>) | VendorDown
    | StornoVerification(number: string, notificationFailed: bool)
    | ReQueryFailed(sent: Unconfirmed)

  datatype CreateSettlement = Immediate | Retained | RetainedWithDuplicateEvidence

  /** The outcomes that say this call's send created nothing. */
  predicate SaysNothingCreated(o: CreateOutcome) {
    !o.Issued? && !o.Found? && !o.Reversed? && !o.Reconciled?
  }

  /** The document number an outcome reports as issued, if it reports one. */
  function ReportedNumber(o: CreateOutcome): Option<string> {
    match o
    case Issued(number) => Some(number)
    case Found(d) => Some(d.number)
    case Reversed(d) => Some(d.number)
    case Reconciled(d) => Some(d.number)
    case _ => None
  }

  /** `settle_create`. */
  function SettleCreate(seen: Result<Seen, QueryError>, reversed: Option<string>)
    : Result<Option<CreateOutcome>, QueryError>
  {
    match seen
    case Ok(SeenCollision(d)) => Ok(Some(Collision(d)))
    case Ok(SeenLive(d)) => Ok(Some(if Some(d.number) != reversed then Found(d) else LiveAgain(d)))
    case Ok(SeenReversed(d)) => if Some(d.number) != reversed then Ok(Some(Reversed(d))) else Ok(None)
    case Ok(SeenAbsent) => Ok(None)
    case Err(QueryCredentials(code)) => Ok(Some(CredentialsRejected(code)))
    case Err(e) => Err(e)
  }

  /** The base check `settled_by_query` makes on a holder of ours. */
  function CheckBase(seen: Result<Seen, QueryError>, request: CreateStepRequest): Result<Seen, QueryError> {
    match seen
    case Ok(SeenLive(d)) => if d.MatchesBase(request.kind, request.corrected) then seen else Ok(SeenCollision(d))
    case Ok(SeenReversed(d)) => if d.MatchesBase(request.kind, request.corrected) then seen else Ok(SeenCollision(d))
    case _ => seen
  }

  predicate TargetIsGone(seen: Result<Seen, QueryError>, expected: string) {
    match seen
    case Ok(SeenAbsent) => true
    case Ok(SeenLive(d)) => d.number != expected
    case Ok(SeenReversed(d)) => d.number != expected
    case _ => false
  }

  /** `settled_by_query`: `Ok(None)` lets a send proceed. */
  function SettledByQuery(answer: Result<FoundDocument, QueryError>, request: CreateStepRequest, beforeSend: bool)
    : Result<Option<CreateOutcome>, QueryError>
  {
    var seen := CheckBase(SeenOf(answer, request.order, request.kind), request);
    if beforeSend && request.reversed.Some? && TargetIsGone(seen, request.reversed.value) then Ok(Some(TargetChanged))
    else SettleCreate(seen, request.reversed)
  }

  /** Before the send: proceed exactly on absence for an initial create, or on the expected reversal for a reissue. */
  lemma SendGuard(reply: Reply, request: CreateStepRequest)
    ensures SettledByQuery(QueryResult(reply, None), request, true) == Ok(None) <==> ReplyPermits(request, reply)
  {
    QueryResultMeans(reply, None);
    if reply.Ok? {
      MatchesMeans(request, reply.value);
    }
    hide QueryResult, Shows, Matches, FoundDocument.IsOurs, FoundDocument.MatchesBase;
  }

  /** What permits a send permits it in the world the reply is true of. */
  lemma PermittedInWorld(reply: Reply, request: CreateStepRequest, newest: Option<FoundDocument>)
    requires ReplyPermits(request, reply) && QueryTruthful(newest, reply)
    ensures LeadingPermits(newest, request)
  {
    if reply.Ok? {
      MatchesMeans(request, reply.value);
    }
  }

  /** A reissue is never answered by a holder other than the expected one before a send. */
  lemma ReissueSettlesNothingElse(reply: Reply, request: CreateStepRequest)
    requires request.reversed.Some?
    ensures var s := SettledByQuery(QueryResult(reply, None), request, true);
            s.Ok? && s.value.Some? ==>
              && SaysNothingCreated(s.value.value)
              && (s.value.value.LiveAgain? ==>
                    Validated(request, reply) && request.reversed == Some(reply.value.number))
  {
    QueryResultMeans(reply, None);
    if reply.Ok? {
      MatchesMeans(request, reply.value);
    }
    hide QueryResult, Shows, Matches, FoundDocument.IsOurs, FoundDocument.MatchesBase;
  }

  /** How an answered but inconclusive leading query is reported; nothing was sent. */
  function LeadingFailure(e: QueryError): CreateOutcome {
    match e
    case QueryApi(code) => Api(code)
    case QueryTransient(code) => Api(code)
    case QueryCredentials(code) => CredentialsRejected(code)
    case _ => Unavailable
  }

  // ---------------------------------------------------------------- failures of a send

  datatype Failure =
    | Refusal(refusal: Option<ErrorCode>) | Duplicate(code: ErrorCode) | CredentialRefusal(code: ErrorCode)
    | Open(code: ErrorCode) | Down | Lost

  /** `classify_failure`. */
  function ClassifyFailure(e: ClientError): Failure {
    match e
    case ApiError(code) =>
      if IsCredentialError(code) then CredentialRefusal(code)
      else (match Class(code)
            case ClassDuplicateOrderNumber => Duplicate(code)
            case ClassRejected => Refusal(Some(code))
            case ClassNotFound => Refusal(Some(code))
            case ClassUnknown => Open(code))
    case RequestRefused => Refusal(None)
    case ServiceUnavailable => Down
    case _ => Lost
  }

  /** The vendor's word that an exchange created nothing. */
  predicate Refused(e: ClientError) {
    e.ApiError? && !Class(e.code).ClassUnknown?
  }

  /** A failure is settled as a refusal exactly when the vendor refused or nothing left the client. */
  lemma ClassifiedRefusals(e: ClientError)
    ensures var f := ClassifyFailure(e);
            (f.Refusal? || f.Duplicate? || f.CredentialRefusal?) <==> Refused(e) || e.RequestRefused?
  {
  }

  /** `duplicate_refusal`. */
  function DuplicateRefusal(kind: IssuedKind, code: ErrorCode): CreateOutcome {
    if kind == Corrective then Rejected(Some(code)) else DuplicateOrder(code, None)
  }

  /** The newest document under the order, when it is a live one of the kind being issued. */
  function NamedDuplicate(hint: Result<FoundDocument, QueryError>, kind: IssuedKind): Option<string> {
    if hint.Ok? && hint.value.IsLive() && hint.value.documentType == TypeOf(kind) then Some(hint.value.number) else None
  }

  /** `after_duplicate`, given what its query and its order hint answered. */
  function AfterDuplicate(answer: Result<FoundDocument, QueryError>, hint: Result<FoundDocument, QueryError>,
                          request: CreateStepRequest, code: ErrorCode): CreateOutcome
  {
    match SettledByQuery(answer, request, false)
    case Ok(Some(Found(d))) => Reconciled(d)
    case Ok(Some(CredentialsRejected(_))) => DuplicateRefusal(request.kind, code)
    case Ok(Some(settled)) => settled
    case Ok(None) =>
      if request.kind == Corrective then Rejected(Some(code))
      else DuplicateOrder(code, NamedDuplicate(hint, request.kind))
    case Err(_) => DuplicateRefusal(request.kind, code)
  }

  /** Which diagnostic of a duplicate refusal a settlement policy keeps. */
  function KeepDiagnostic(settlement: CreateSettlement, diagnostic: CreateOutcome, request: CreateStepRequest,
                          code: ErrorCode): CreateOutcome
  {
    if settlement == RetainedWithDuplicateEvidence && (diagnostic.Reconciled? || diagnostic.Reversed?) then diagnostic
    else if diagnostic.DuplicateOrder? then diagnostic
    else if settlement == Immediate then diagnostic
    else DuplicateRefusal(request.kind, code)
  }

  /** The hint names a duplicate: a live document of the kind being issued. */
  predicate NamesDuplicate(hint: Reply, kind: IssuedKind) {
    Shows(hint, None) && hint.value.reversed != Some(true) && TypeFits(kind, hint.value.documentType)
  }

  /** No holder is left but, for a reissue, its expected one, still reversed: only then is the hint asked for. */
  predicate NothingHeld(request: CreateStepRequest, read: Reply) {
    || Misses(read)
    || (Validated(request, read) && request.reversed == Some(read.value.number) && read.value.reversed == Some(true))
  }

  /** The refusal itself, as data: correctives are exempt from the order-number check. */
  predicate IsPlainRefusal(kind: IssuedKind, code: ErrorCode, existing: Option<string>, o: CreateOutcome) {
    if kind == Corrective then o == Rejected(Some(code)) else o == DuplicateOrder(code, existing)
  }

  /**
   What a duplicate refusal is reported as, for every policy and whatever the diagnostic read and the order
   hint replied: the evidence, the collision or the live target the policy keeps, and else the refusal.
   */
  ghost predicate DuplicateReported(settlement: CreateSettlement, request: CreateStepRequest, code: ErrorCode,
                                    read: Reply, hint: Option<Reply>, o: CreateOutcome)
  {
    var named := hint.Some? && NamesDuplicate(hint.value, request.kind);
    var existing := if named then Some(hint.value.value.number) else None;
    if IsEvidence(request, read) && settlement != Retained then
      o == if read.value.reversed == Some(true) then Reversed(read.value) else Reconciled(read.value)
    else if settlement == Immediate && Shows(read, None) && !Matches(request, read.value)
    then o == Collision(read.value)
    else if settlement == Immediate && Validated(request, read) && read.value.reversed != Some(true)
    then o == LiveAgain(read.value)
    else IsPlainRefusal(request.kind, code, existing, o)
  }

  /** The order hint is asked for where nothing is held, and never for a corrective. */
  predicate HintAsked(request: CreateStepRequest, read: Reply) {
    NothingHeld(request, read) && request.kind != Corrective
  }

  lemma NamedDuplicateMeans(hint: Reply, kind: IssuedKind)
    ensures NamedDuplicate(QueryResult(hint, None), kind)
            == if NamesDuplicate(hint, kind) then Some(hint.value.number) else None
  {
    QueryResultMeans(hint, None);
    hide QueryResult, Shows;
  }

  /** The query after a refused send, by what it replied. */
  lemma DiagnosticQuery(read: Reply, request: CreateStepRequest)
    ensures var s := SettledByQuery(QueryResult(read, None), request, false);
            && (s == Ok(None) <==> NothingHeld(request, read))
            && (Shows(read, None) && !Matches(request, read.value) ==> s == Ok(Some(Collision(read.value))))
            && (IsEvidence(request, read) ==>
                  s == Ok(Some(if read.value.reversed == Some(true) then Reversed(read.value) else Found(read.value))))
            && (Validated(request, read) && !IsEvidence(request, read) && read.value.reversed != Some(true) ==>
                  s == Ok(Some(LiveAgain(read.value))))
            && (!Shows(read, None) && !Misses(read) ==> s.Err? || (s.value.Some? && s.value.value.CredentialsRejected?))
  {
    QueryResultMeans(read, None);
    if read.Ok? {
      MatchesMeans(request, read.value);
    }
    hide QueryResult, Shows, Matches, FoundDocument.IsOurs, FoundDocument.MatchesBase;
  }

  /** The diagnostic and the policy over it report exactly that. */
  lemma DuplicateDecided(settlement: CreateSettlement, request: CreateStepRequest, code: ErrorCode,
                         read: Reply, hint: Option<Reply>)
    requires hint.Some? <==> HintAsked(request, read)
    ensures var hinted := if hint.Some? then QueryResult(hint.value, None) else Err(QueryTransport);
            var diagnostic := AfterDuplicate(QueryResult(read, None), hinted, request, code);
            var kept := KeepDiagnostic(settlement, diagnostic, request, code);
            DuplicateReported(settlement, request, code, read, hint, kept)
  {
    DiagnosticQuery(read, request);
    if hint.Some? {
      NamedDuplicateMeans(hint.value, request.kind);
    }
    hide QueryResult, SettledByQuery, Shows, Matches, NamesDuplicate;
  }

  /**
   So a duplicate refusal stays settled: it is never turned into a credential failure or left open, a corrective
   is never told of a duplicate order, only the allowed evidence survives, and no document reported is the
   old reissue target.
   */
  lemma DuplicateStaysSettled(settlement: CreateSettlement, request: CreateStepRequest, code: ErrorCode,
                              read: Reply, hint: Option<Reply>, o: CreateOutcome)
    requires DuplicateReported(settlement, request, code, read, hint, o)
    ensures o.Reconciled? || o.Reversed? || o.LiveAgain? || o.Collision? || o.DuplicateOrder? || o.Rejected?
    ensures o.DuplicateOrder? ==> o.code == code && request.kind != Corrective
    ensures o.Rejected? ==> o.refusal == Some(code) && request.kind == Corrective
    ensures settlement == Retained ==> o.DuplicateOrder? || o.Rejected?
    ensures settlement == RetainedWithDuplicateEvidence ==> !o.LiveAgain? && !o.Collision?
    ensures ReportedNumber(o).Some? ==> ReportedNumber(o) != request.reversed && IsEvidence(request, read)
  {
    DuplicateCases(settlement, request, code, read, hint, o);
    assert IsEvidence(request, read) ==> request.reversed != Some(read.value.number);
    hide DuplicateReported, Validated, IsEvidence, Shows, Matches, NamesDuplicate;
  }

  lemma DuplicateCases(settlement: CreateSettlement, request: CreateStepRequest, code: ErrorCode,
                       read: Reply, hint: Option<Reply>, o: CreateOutcome)
    requires DuplicateReported(settlement, request, code, read, hint, o)
    ensures || (settlement != Retained && IsEvidence(request, read)
                && (o == Reversed(read.value) || o == Reconciled(read.value)))
            || (settlement == Immediate && (o.Collision? || o.LiveAgain?))
            || (request.kind == Corrective && o == Rejected(Some(code)))
            || (request.kind != Corrective && o.DuplicateOrder? && o.code == code)
  {
    var named := hint.Some? && NamesDuplicate(hint.value, request.kind);
    PlainRefusal(request.kind, code, if named then Some(hint.value.value.number) else None, o);
    hide IsPlainRefusal, Validated, IsEvidence, Shows, Matches, NamesDuplicate;
  }

  lemma PlainRefusal(kind: IssuedKind, code: ErrorCode, existing: Option<string>, o: CreateOutcome)
    ensures IsPlainRefusal(kind, code, existing, o) ==>
              if kind == Corrective then o == Rejected(Some(code)) else o.DuplicateOrder? && o.code == code
  {
  }

  // ---------------------------------------------------------------- reconciliation of an uncertain create

  datatype Reconciliation =
    | Created(doc: FoundDocument)
    | Inconclusive
    | CredentialsPrevent(code: ErrorCode)
    | ApiPrevents(code: ErrorCode)

  /** `reconcile` of a create without a candidate, given what the external-id query answered. */
  function ReconcileCreate(answer: Result<FoundDocument, QueryError>, request: CreateStepRequest)
    : Result<Reconciliation, Unanswered>
  {
    match answer
    case Ok(d) =>
      if !d.IsOurs(request.order, request.kind) || request.reversed == Some(d.number)
         || !d.MatchesBase(request.kind, request.corrected)
      then Ok(Inconclusive) else Ok(Created(d))
    case Err(e) =>
      match Answered(e)
      case Err(unanswered) => Err(unanswered)
      case Ok(AnswerNotFound) => Ok(Inconclusive)
      case Ok(AnswerCredentials(code)) => Ok(CredentialsPrevent(code))
      case Ok(AnswerApi(code)) => Ok(ApiPrevents(code))
  }

  /** What reconciliation makes of each reply. */
  lemma ReconcileMeans(reply: Reply, request: CreateStepRequest)
    ensures var r := ReconcileCreate(QueryResult(reply, None), request);
            && (r.Ok? && r.value.Created? <==> IsEvidence(request, reply))
            && (r.Ok? && r.value.Created? ==> r.value.doc == reply.value)
            && (r == Ok(Inconclusive) <==> Misses(reply) || (Shows(reply, None) && !IsEvidence(request, reply)))
            && (r.Ok? && r.value.CredentialsPrevent? <==> RejectsCredentials(reply))
            && (r.Ok? && r.value.ApiPrevents? <==> AnswersCode(reply))
            && (r.Ok? && (r.value.CredentialsPrevent? || r.value.ApiPrevents?) ==> reply == Err(ApiError(r.value.code)))
            && (r == Err(UnansweredUnavailable) <==> IsTransient(reply) || reply == Err(ServiceUnavailable))
            && (r == Err(UnansweredTransport) <==> IsLost(reply, None))
  {
    QueryResultMeans(reply, None);
    if reply.Ok? {
      MatchesMeans(request, reply.value);
    }
    hide QueryResult, Shows, Matches, FoundDocument.IsOurs, FoundDocument.MatchesBase;
  }

  /** `settle_or`: only positive evidence settles an uncertain send. */
  function SettleUncertain(reconciled: Result<Reconciliation, Unanswered>, cause: Unconfirmed)
    : Result<CreateOutcome, Unconfirmed>
  {
    match reconciled
    case Ok(Created(d)) => Ok(if d.IsLive() then Found(d) else Reversed(d))
    case Ok(CredentialsPrevent(_)) => Err(ReQueryFailed(cause))
    case Ok(ApiPrevents(_)) => Err(ReQueryFailed(cause))
    case Ok(Inconclusive) => Err(cause)
    case Err(_) => Err(ReQueryFailed(cause))
  }
}
