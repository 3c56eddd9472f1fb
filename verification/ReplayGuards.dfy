/**
 The guards a replay-enabled create reads before it sends again (`gateway/recovery.rs`): the order's other
 documents. What they decide is that nothing live competes with the document to be issued.
 */
module ReplayGuards {
  import opened Wrappers
  import opened Documents
  import opened GatewayAnswers

  // ---------------------------------------------------------------- the decisions

  function Prepaid(request: CreateStepRequest): Option<string> {
    PrepaymentNumber(request.create.kind)
  }

  function Requested(request: CreateStepRequest): Option<string> {
    ProformaNumber(request.create.kind)
  }

  datatype Ownership = OwnAbsent | OwnLive(doc: FoundDocument) | OwnReversed(doc: FoundDocument) | OwnUnusable

  /** `lookup_ours`; a collision, a vendor answer and a read without one are alike to the guards. */
  function OwnershipOf(answer: Result<FoundDocument, QueryError>, order: string, kind: IssuedKind): Ownership {
    match SeenOf(answer, order, kind)
    case Ok(SeenAbsent) => OwnAbsent
    case Ok(SeenLive(d)) => OwnLive(d)
    case Ok(SeenReversed(d)) => OwnReversed(d)
    case Ok(SeenCollision(_)) => OwnUnusable
    case Err(_) => OwnUnusable
  }

  /** The other kinds whose external ids are read, in order. */
  function GuardedKinds(kind: IssuedKind): (kinds: seq<IssuedKind>)
    ensures |kinds| == 3
  {
    match kind
    case Proforma => [Invoice, Prepayment, Final]
    case Final => [Invoice, Prepayment, Proforma]
    case Prepayment => [Invoice, Final, Proforma]
    case _ => [Prepayment, Final, Proforma]
  }

  /** One turn of `check_replay_create_kinds`. */
  predicate KindGuard(request: CreateStepRequest, kind: IssuedKind, own: Ownership) {
    match own
    case OwnLive(d) =>
      || (kind == Prepayment && request.kind == Final && Prepaid(request) == Some(d.number))
      || (kind == Proforma && Requested(request) == Some(d.number))
    case OwnAbsent => !(kind == Prepayment && request.kind == Final)
    case OwnReversed(_) => !(kind == Prepayment && request.kind == Final)
    case OwnUnusable => false
  }

  /** `check_replay_create_references`, for a pinned prepayment. */
  predicate PrepaymentGuard(request: CreateStepRequest, answer: Result<FoundDocument, QueryError>) {
    answer.Ok? && answer.value.IsOurs(request.order, Prepayment) && answer.value.IsLive()
  }

  /** `check_replay_create_references`, for a pinned proforma. */
  predicate ProformaGuard(request: CreateStepRequest, answer: Result<FoundDocument, QueryError>) {
    && answer.Ok? && answer.value.CarriesOrder(request.order)
    && answer.value.documentType == ProformaType && answer.value.IsLive()
  }

  /** `check_replay_create_hint`. */
  predicate HintGuard(request: CreateStepRequest, answer: Result<FoundDocument, QueryError>) {
    match answer
    case Err(e) => e.QueryNotFound?
    case Ok(d) =>
      || (Prepaid(request) == Some(d.number) && d.IsOurs(request.order, Prepayment))
      || (d.documentType == ProformaType && Requested(request) == Some(d.number) && d.CarriesOrder(request.order))
      || !d.IsLive()
      || (!d.IsInvoiceFamily() && d.documentType != ProformaType)
  }

  // ---------------------------------------------------------------- what they mean, by replies and fields

  /** The outbound create names the prepayment it settles. */
  predicate NamesPrepayment(request: CreateStepRequest, number: string) {
    request.create.kind.OutFinal? && request.create.kind.prepayment == Some(number)
  }

  /** The outbound create names the proforma it settles. */
  predicate NamesProforma(request: CreateStepRequest, number: string) {
    var kind := request.create.kind;
    (kind.OutInvoice? || kind.OutPrepayment? || kind.OutFinal?) && kind.proforma == Some(number)
  }

  /** The request settles this document: its pinned prepayment or its pinned proforma, on its order. */
  predicate Settles(request: CreateStepRequest, d: FoundDocument) {
    && d.orderNumber == Some(request.order)
    && ((NamesPrepayment(request, d.number) && d.documentType == PrepaymentType)
        || (NamesProforma(request, d.number) && d.documentType == ProformaType))
  }

  /** A live invoice or proforma the request does not settle. */
  predicate Competes(request: CreateStepRequest, d: FoundDocument) {
    && d.reversed != Some(true) && !Settles(request, d)
    && (d.documentType == InvoiceType || d.documentType == PrepaymentType || d.documentType == FinalType
        || d.documentType == ProformaType)
  }

  /** A reply by another kind's external id that shows nothing competing, and the prepayment a final invoice settles. */
  predicate KindClear(request: CreateStepRequest, kind: IssuedKind, reply: Reply) {
    var mustBeLive := request.kind == Final && kind == Prepayment;
    || (Misses(reply) && !mustBeLive)
    || (Shows(reply, None)
        && reply.value.orderNumber == Some(request.order) && TypeFits(kind, reply.value.documentType)
        && !Competes(request, reply.value) && (mustBeLive ==> reply.value.reversed != Some(true)))
  }

  /** Of every other kind, corrective apart, there is such a reply; a final invoice names its prepayment. */
  ghost predicate OtherKindsClear(request: CreateStepRequest, kinds: map<IssuedKind, Reply>) {
    && (request.kind == Final ==> exists number :: NamesPrepayment(request, number))
    && forall kind | kind != request.kind && kind != Corrective ::
         kind in kinds && KindClear(request, kind, kinds[kind])
  }

  /** What the guards read, as far as they came. */
  datatype GuardReads = GuardReads(
    kinds: map<IssuedKind, Reply>,
    prepayment: Option<Reply>,
    proforma: Option<Reply>,
    hint: Option<Reply>)

  /** A document asked for by its number: it is that one, of the order, of its kind and live. */
  predicate ShownLive(request: CreateStepRequest, number: string, kind: IssuedKind, reply: Reply) {
    && Shows(reply, Some(number)) && reply.value.reversed != Some(true)
    && reply.value.orderNumber == Some(request.order) && TypeFits(kind, reply.value.documentType)
  }

  ghost predicate ReferencesShown(request: CreateStepRequest, prepayment: Option<Reply>, proforma: Option<Reply>) {
    && (forall number | NamesPrepayment(request, number) ::
          prepayment.Some? && ShownLive(request, number, Prepayment, prepayment.value))
    && (forall number | NamesProforma(request, number) ::
          proforma.Some? && ShownLive(request, number, Proforma, proforma.value))
  }

  /** The newest document of the order does not compete either. */
  predicate HintClear(request: CreateStepRequest, reply: Reply) {
    Misses(reply) || (Shows(reply, None) && !Competes(request, reply.value))
  }

  /** All guards were read, nothing they saw competes, and every document the request names was seen live. */
  ghost predicate NothingCompetes(request: CreateStepRequest, seen: GuardReads) {
    && OtherKindsClear(request, seen.kinds)
    && ReferencesShown(request, seen.prepayment, seen.proforma)
    && seen.hint.Some? && HintClear(request, seen.hint.value)
  }

  lemma NamesMean(request: CreateStepRequest, number: string)
    ensures Prepaid(request) == Some(number) <==> NamesPrepayment(request, number)
    ensures Requested(request) == Some(number) <==> NamesProforma(request, number)
  {
  }

  /** Every other kind is read, and each once. */
  lemma GuardedKindsAreTheOthers(kind: IssuedKind)
    requires kind != Corrective
    ensures var guarded := GuardedKinds(kind);
            && (forall other :: other in guarded <==> other != kind && other != Corrective)
            && (forall i, j | 0 <= i < j < 3 :: guarded[i] != guarded[j])
  {
  }

  /** A kind guard lets pass exactly what does not compete. */
  lemma KindGuardDecides(request: CreateStepRequest, kind: IssuedKind, reply: Reply)
    requires Admitted(request) && kind != request.kind && kind != Corrective && request.kind != Corrective
    ensures KindGuard(request, kind, OwnershipOf(QueryResult(reply, None), request.order, kind))
            <==> KindClear(request, kind, reply)
  {
    QueryResultMeans(reply, None);
    hide QueryResult, Shows;
    if reply.Ok? {
      NamesMean(request, reply.value.number);
    }
  }

  /** So do the guards over the pinned documents, and the order hint. */
  lemma OtherGuardsDecide(request: CreateStepRequest, number: string, reply: Reply)
    ensures PrepaymentGuard(request, QueryResult(reply, Some(number)))
            <==> ShownLive(request, number, Prepayment, reply)
    ensures ProformaGuard(request, QueryResult(reply, Some(number))) <==> ShownLive(request, number, Proforma, reply)
    ensures HintGuard(request, QueryResult(reply, None)) <==> HintClear(request, reply)
  {
    QueryResultMeans(reply, Some(number));
    QueryResultMeans(reply, None);
    hide QueryResult, Shows;
    if reply.Ok? {
      NamesMean(request, reply.value.number);
    }
  }
}
