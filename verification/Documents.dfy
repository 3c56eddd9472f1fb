/**
 Documents as the gateway reads them (`gateway/document.rs`) and the create request it checks before
 sending (`CreateStepRequest::new`).
 */
module Documents {
  import opened Wrappers
  import Texts

  /** The `tipus` of a document; the set is open. */
  datatype DocumentType =
    | InvoiceType | ProformaType | PrepaymentType | FinalType | CorrectiveType | StornoType | OtherType(code: string)

  datatype IssuedKind = Proforma | Invoice | Prepayment | Final | Corrective

  function TypeOf(kind: IssuedKind): DocumentType {
    match kind
    case Proforma => ProformaType
    case Invoice => InvoiceType
    case Prepayment => PrepaymentType
    case Final => FinalType
    case Corrective => CorrectiveType
  }

  /** A queried document; the fields no decision here reads are left out. */
  datatype FoundDocument = FoundDocument(
    documentId: int,
    number: string,
    documentType: DocumentType,
    orderNumber: Option<string>,
    reversed: Option<bool>,
    referenced: Option<string>,
    appearance: int,
    fulfillmentDate: Option<string>)
  {
    predicate IsLive() {
      reversed != Some(true)
    }

    predicate CarriesOrder(order: string) {
      orderNumber == Some(order)
    }

    predicate IsOurs(order: string, kind: IssuedKind) {
      CarriesOrder(order) && documentType == TypeOf(kind)
    }

    predicate IsStornoOf(original: string) {
      && !IsBlank(number) && number != original
      && documentType == StornoType && referenced == Some(original)
    }

    predicate IsStornoable() {
      documentType == InvoiceType || documentType == PrepaymentType
      || documentType == FinalType || documentType == CorrectiveType
    }

    predicate IsInvoiceFamily() {
      documentType == InvoiceType || documentType == PrepaymentType || documentType == FinalType
    }

    predicate IsCorrectiveOf(base: string) {
      documentType == CorrectiveType && referenced == Some(base)
    }

    /** `matches_create_base`: the corrective base is part of issuance intent. */
    predicate MatchesBase(kind: IssuedKind, corrected: Option<string>) {
      match corrected
      case Some(base) => kind == Corrective && IsCorrectiveOf(base)
      case None => kind != Corrective
    }
  }

  predicate IsBlank(s: string) {
    Texts.Trim(s, Texts.IsWhitespace) == ""
  }

  lemma BlankMeans(s: string)
    ensures IsBlank(s) <==> forall i | 0 <= i < |s| :: Texts.IsWhitespace(s[i])
  {
    Texts.TrimIsEmpty(s, Texts.IsWhitespace);
  }

  // ---------------------------------------------------------------- the outbound request

  /** The kinds an outbound create can carry. */
  datatype OutboundKind =
    | OutInvoice(proforma: Option<string>)
    | OutProforma
    | OutPrepayment(proforma: Option<string>)
    | OutFinal(prepayment: Option<string>, proforma: Option<string>)
    | OutCorrective(correctedNumber: string)
    | OutOther

  datatype CreateInvoice = CreateInvoice(externalId: Option<string>, orderNumber: Option<string>, kind: OutboundKind)

  datatype CreateStepRequest = CreateStepRequest(
    externalId: string,
    kind: IssuedKind,
    order: string,
    create: CreateInvoice,
    reversed: Option<string>,
    corrected: Option<string>)

  datatype CreateStepRequestError =
    ExternalIdMismatch | OrderMismatch | UnsupportedKind | KindMismatch | CorrectiveIntentMismatch

  function IssuedAs(kind: OutboundKind): Option<IssuedKind> {
    match kind
    case OutInvoice(_) => Some(Invoice)
    case OutProforma => Some(Proforma)
    case OutPrepayment(_) => Some(Prepayment)
    case OutFinal(_, _) => Some(Final)
    case OutCorrective(_) => Some(Corrective)
    case OutOther => None
  }

  function OutboundBase(kind: OutboundKind): Option<string> {
    if kind.OutCorrective? then Some(kind.correctedNumber) else None
  }

  /** The proforma an outbound create settles (`InvoiceKind::proforma_number`). */
  function ProformaNumber(kind: OutboundKind): Option<string> {
    match kind
    case OutInvoice(proforma) => proforma
    case OutPrepayment(proforma) => proforma
    case OutFinal(_, proforma) => proforma
    case _ => None
  }

  /** The prepayment a final invoice settles. */
  function PrepaymentNumber(kind: OutboundKind): Option<string> {
    if kind.OutFinal? then kind.prepayment else None
  }

  /** `CreateStepRequest::new`. */
  function NewRequest(externalId: string, kind: IssuedKind, order: string, create: CreateInvoice,
                      reversed: Option<string>, corrected: Option<string>)
    : (r: Result<CreateStepRequest, CreateStepRequestError>)
    ensures r.Ok? ==> r.value == CreateStepRequest(externalId, kind, order, create, reversed, corrected)
  {
    if create.externalId != Some(externalId) then Err(ExternalIdMismatch)
    else if create.orderNumber != Some(order) then Err(OrderMismatch)
    else if IssuedAs(create.kind).None? then Err(UnsupportedKind)
    else if IssuedAs(create.kind) != Some(kind) then Err(KindMismatch)
    else if OutboundBase(create.kind) != corrected || (corrected.Some? && IsBlank(corrected.value))
    then Err(CorrectiveIntentMismatch)
    else Ok(CreateStepRequest(externalId, kind, order, create, reversed, corrected))
  }

  /** A request that passed the check. */
  predicate Admitted(r: CreateStepRequest) {
    NewRequest(r.externalId, r.kind, r.order, r.create, r.reversed, r.corrected).Ok?
  }

  /** A document the vendor issues for an outbound create; number, id, date and appearance are the vendor's. */
  predicate Issues(create: CreateInvoice, d: FoundDocument) {
    && IssuedAs(create.kind).Some? && d.documentType == TypeOf(IssuedAs(create.kind).value)
    && d.orderNumber == create.orderNumber && d.referenced == OutboundBase(create.kind) && d.reversed.None?
  }

  /**
   The check admits a request exactly when whatever document it would issue is one a later read accepts
   as its evidence, under the external id that read uses: neither side can drift from the other.
   */
  lemma AdmittedMeansIssuedIsEvidence(r: CreateStepRequest, d: FoundDocument)
    requires IssuedAs(r.create.kind).Some? ==> Issues(r.create, d)
    ensures Admitted(r) <==>
            && r.create.externalId == Some(r.externalId)
            && IssuedAs(r.create.kind).Some?
            && (r.corrected.Some? ==> !IsBlank(r.corrected.value))
            && d.IsOurs(r.order, r.kind) && d.MatchesBase(r.kind, r.corrected)
  {
  }

  /** The kind each outbound create issues, spelt out. */
  predicate OutboundFits(kind: IssuedKind, out: OutboundKind) {
    && (kind == Proforma <==> out.OutProforma?) && (kind == Invoice <==> out.OutInvoice?)
    && (kind == Prepayment <==> out.OutPrepayment?) && (kind == Final <==> out.OutFinal?)
    && (kind == Corrective <==> out.OutCorrective?)
  }

  /** The corrective base is named by both sides, or by neither. */
  predicate BaseFits(out: OutboundKind, corrected: Option<string>) {
    if out.OutCorrective?
    then && corrected == Some(out.correctedNumber)
         && exists i | 0 <= i < |out.correctedNumber| :: !Texts.IsWhitespace(out.correctedNumber[i])
    else corrected.None?
  }

  /** What a request is refused for is the first thing in which it disagrees with its outbound create. */
  lemma FirstDisagreement(externalId: string, kind: IssuedKind, order: string, create: CreateInvoice,
                          reversed: Option<string>, corrected: Option<string>)
    ensures var r := NewRequest(externalId, kind, order, create, reversed, corrected);
            var sameId, sameOrder := create.externalId == Some(externalId), create.orderNumber == Some(order);
            && (r == Err(ExternalIdMismatch) <==> !sameId)
            && (r == Err(OrderMismatch) <==> sameId && !sameOrder)
            && (r == Err(UnsupportedKind) <==> sameId && sameOrder && create.kind.OutOther?)
            && (r == Err(KindMismatch) <==>
                  sameId && sameOrder && !create.kind.OutOther? && !OutboundFits(kind, create.kind))
            && (r == Err(CorrectiveIntentMismatch) <==>
                  sameId && sameOrder && OutboundFits(kind, create.kind) && !BaseFits(create.kind, corrected))
  {
    if corrected.Some? {
      BlankMeans(corrected.value);
    }
    hide IsBlank, Texts.IsWhitespace;
  }
}
