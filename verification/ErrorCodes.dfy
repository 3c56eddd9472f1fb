/**
 The vendor's error codes (`error.rs`): the two tables that print and parse them, and what a code says
 about the document a request asked for.
 */
module ErrorCodes {
  import opened Wrappers
  import opened DecimalDigits
  import Texts

  datatype ErrorCode =
    | Maintenance | InvalidCredentials | MissingData | StornoOfReversalInvoice
    | XmlNotAFile | EInvoiceNotEnabled | EInvoiceSigningFailed | InvoiceNotificationDeliveryFailed
    | MalformedXml | DuplicateOrderNumber | PrepaymentInvoiceNotIdentifiable | BrowserSessionActive
    | LoginBlocked | DuplicateOrderNumberNamed | MultipleAccounts | UnregisteredPrefix
    | HasCorrectiveInvoice | NetValueMismatch | VatValueMismatch | GrossValueMismatch
    | NetValueInvalid | VatValueInvalid | GrossValueInvalid | ProformaNotFound
    | ReceiptPrefixUsedForInvoices | InvalidReceiptPrefix | DuplicateReceiptCallId | ReceiptNotFound
    | ReceiptPaymentMismatch | IssueDateMustBeToday | ReceiptGrossNotWhole | ReceiptNetPrecision
    | ReceiptVatPrecision | PaymentOnReversedInvoice | ErasureCodeLimit | ErasureCodesUnavailable
    | ErasureCodesDisabled | SimplifiedImageAccountIncompatible | SimplifiedImageItemLimit | SimplifiedImageVatInvalid
    | SimplifiedImageCannotCorrect | SimplifiedImagePrepaymentVatMismatch | SimplifiedImageDocumentForbidden
    | Unknown(text: string) | Absent

  datatype OutcomeClass = ClassRejected | ClassUnknown | ClassDuplicateOrderNumber | ClassNotFound

  /** `ErrorCode::code`: the wire code, empty when there is none. */
  function Code(e: ErrorCode): string {
    match e
    case Maintenance => "1"
    case InvalidCredentials => "3"
    case MissingData => "7"
    case StornoOfReversalInvoice => "14"
    case XmlNotAFile => "53"
    case EInvoiceNotEnabled => "54"
    case EInvoiceSigningFailed => "55"
    case InvoiceNotificationDeliveryFailed => "56"
    case MalformedXml => "57"
    case DuplicateOrderNumber => "71"
    case PrepaymentInvoiceNotIdentifiable => "73"
    case BrowserSessionActive => "135"
    case LoginBlocked => "136"
    case DuplicateOrderNumberNamed => "152"
    case MultipleAccounts => "164"
    case UnregisteredPrefix => "202"
    case HasCorrectiveInvoice => "221"
    case NetValueMismatch => "259"
    case VatValueMismatch => "260"
    case GrossValueMismatch => "261"
    case NetValueInvalid => "262"
    case VatValueInvalid => "263"
    case GrossValueInvalid => "264"
    case ProformaNotFound => "335"
    case ReceiptPrefixUsedForInvoices => "336"
    case InvalidReceiptPrefix => "337"
    case DuplicateReceiptCallId => "338"
    case ReceiptNotFound => "339"
    case ReceiptPaymentMismatch => "340"
    case IssueDateMustBeToday => "352"
    case ReceiptGrossNotWhole => "363"
    case ReceiptNetPrecision => "364"
    case ReceiptVatPrecision => "365"
    case PaymentOnReversedInvoice => "463"
    case ErasureCodeLimit => "537"
    case ErasureCodesUnavailable => "538"
    case ErasureCodesDisabled => "539"
    case SimplifiedImageAccountIncompatible => "551"
    case SimplifiedImageItemLimit => "552"
    case SimplifiedImageVatInvalid => "553"
    case SimplifiedImageCannotCorrect => "554"
    case SimplifiedImagePrepaymentVatMismatch => "555"
    case SimplifiedImageDocumentForbidden => "556"
    case Unknown(text) => text
    case Absent => ""
  }

  /** `ErrorCode::known`: the named code of a number. */
  function Known(n: nat): (r: Option<ErrorCode>)
    ensures r.Some? ==> IsNamed(r.value)
  {
    match n
    case 1 => Some(Maintenance)
    case 3 => Some(InvalidCredentials)
    case 7 => Some(MissingData)
    case 14 => Some(StornoOfReversalInvoice)
    case 53 => Some(XmlNotAFile)
    case 54 => Some(EInvoiceNotEnabled)
    case 55 => Some(EInvoiceSigningFailed)
    case 56 => Some(InvoiceNotificationDeliveryFailed)
    case 57 => Some(MalformedXml)
    case 71 => Some(DuplicateOrderNumber)
    case 73 => Some(PrepaymentInvoiceNotIdentifiable)
    case 135 => Some(BrowserSessionActive)
    case 136 => Some(LoginBlocked)
    case 152 => Some(DuplicateOrderNumberNamed)
    case 164 => Some(MultipleAccounts)
    case 202 => Some(UnregisteredPrefix)
    case 221 => Some(HasCorrectiveInvoice)
    case 259 => Some(NetValueMismatch)
    case 260 => Some(VatValueMismatch)
    case 261 => Some(GrossValueMismatch)
    case 262 => Some(NetValueInvalid)
    case 263 => Some(VatValueInvalid)
    case 264 => Some(GrossValueInvalid)
    case 335 => Some(ProformaNotFound)
    case 336 => Some(ReceiptPrefixUsedForInvoices)
    case 337 => Some(InvalidReceiptPrefix)
    case 338 => Some(DuplicateReceiptCallId)
    case 339 => Some(ReceiptNotFound)
    case 340 => Some(ReceiptPaymentMismatch)
    case 352 => Some(IssueDateMustBeToday)
    case 363 => Some(ReceiptGrossNotWhole)
    case 364 => Some(ReceiptNetPrecision)
    case 365 => Some(ReceiptVatPrecision)
    case 463 => Some(PaymentOnReversedInvoice)
    case 537 => Some(ErasureCodeLimit)
    case 538 => Some(ErasureCodesUnavailable)
    case 539 => Some(ErasureCodesDisabled)
    case 551 => Some(SimplifiedImageAccountIncompatible)
    case 552 => Some(SimplifiedImageItemLimit)
    case 553 => Some(SimplifiedImageVatInvalid)
    case 554 => Some(SimplifiedImageCannotCorrect)
    case 555 => Some(SimplifiedImagePrepaymentVatMismatch)
    case 556 => Some(SimplifiedImageDocumentForbidden)
    case _ => None
  }

  /** `u16::from_str`: an optional plus sign and digits, below 2^16. */
  function ParseU16(s: string): (r: Option<nat>) {
    var digits := if s != "" && s[0] == '+' then s[1..] else s;
    if digits != "" && AllDigits(digits) && DigitsValue(digits) < 0x1_0000 then Some(DigitsValue(digits)) else None
  }

  function Recognize(s: string): (r: Option<ErrorCode>)
    ensures r.Some? ==> IsNamed(r.value)
  {
    match ParseU16(s)
    case Some(n) => Known(n)
    case None => None
  }

  /** `ErrorCode::from(&str)`. */
  function FromText(s: string): (e: ErrorCode) {
    var t := Texts.Trim(s, Texts.IsWhitespace);
    if t == "" then Absent
    else
      match Recognize(t)
      case Some(e) => e
      case None => Unknown(t)
  }

  predicate IsNamed(e: ErrorCode) {
    !e.Unknown? && !e.Absent?
  }

  predicate IsRetryable(e: ErrorCode) {
    e.Maintenance? || e.EInvoiceSigningFailed?
  }

  predicate IsCredentialError(e: ErrorCode) {
    e.InvalidCredentials? || e.BrowserSessionActive? || e.LoginBlocked? || e.MultipleAccounts?
  }

  /** `ErrorCode::outcome_class`. */
  function Class(e: ErrorCode): OutcomeClass {
    match e
    case Maintenance | EInvoiceSigningFailed | InvoiceNotificationDeliveryFailed | Unknown(_) | Absent => ClassUnknown
    case DuplicateOrderNumber | DuplicateOrderNumberNamed => ClassDuplicateOrderNumber
    case MissingData | ReceiptNotFound => ClassNotFound
    case _ => ClassRejected
  }

  // ---------------------------------------------------------------- round trips

  /** One to three digits, without a quantifier. */
  predicate IsShortNumber(s: string) {
    1 <= |s| <= 3 && IsDigit(s[0]) && (|s| > 1 ==> IsDigit(s[1])) && (|s| > 2 ==> IsDigit(s[2]))
  }

  function DigitOf(c: char): nat
    requires IsDigit(c)
  {
    (c - '0') as nat
  }

  function ShortValue(s: string): nat
    requires IsShortNumber(s)
  {
    if |s| == 1 then DigitOf(s[0])
    else if |s| == 2 then 10 * DigitOf(s[0]) + DigitOf(s[1])
    else 100 * DigitOf(s[0]) + 10 * DigitOf(s[1]) + DigitOf(s[2])
  }

  lemma ShortDigits(s: string)
    requires IsShortNumber(s)
    ensures AllDigits(s) && DigitsValue(s) == ShortValue(s)
  {
    OneDigit(s[0]);
    if |s| == 1 {
      assert s == [s[0]];
    } else {
      OneDigit(s[1]);
      DigitsValueConcat([s[0]], [s[1]]);
      assert [s[0]] + [s[1]] == [s[0], s[1]];
      if |s| == 2 {
        assert s == [s[0], s[1]];
      } else {
        OneDigit(s[2]);
        DigitsValueConcat([s[0], s[1]], [s[2]]);
        assert s == [s[0], s[1]] + [s[2]];
      }
    }
  }

  lemma OneDigit(c: char)
    requires IsDigit(c)
    ensures AllDigits([c]) && DigitsValue([c]) == DigitOf(c)
  {
    assert [c][..0] == "";
  }

  lemma CodeIsShort(e: ErrorCode)
    requires IsNamed(e)
    ensures IsShortNumber(Code(e)) && ShortValue(Code(e)) < 1000
  {
  }

  /** The printed code is a number of the parsing table. */
  lemma TableEntry(e: ErrorCode)
    requires IsNamed(e)
    ensures IsShortNumber(Code(e)) && Known(ShortValue(Code(e))) == Some(e) && ShortValue(Code(e)) < 1000
  {
    CodeIsShort(e);
    if |Code(e)| == 3 {
      LongTableEntry(e);
    } else {
      ShortTableEntry(e);
    }
  }

  lemma ShortTableEntry(e: ErrorCode)
    requires IsNamed(e) && IsShortNumber(Code(e)) && |Code(e)| < 3
    ensures Known(ShortValue(Code(e))) == Some(e)
  {
    hide IsShortNumber;
  }

  lemma LongTableEntry(e: ErrorCode)
    requires IsNamed(e) && IsShortNumber(Code(e)) && |Code(e)| == 3
    ensures Known(ShortValue(Code(e))) == Some(e)
  {
    hide IsShortNumber;
  }

  /** The two tables agree: a printed code is read back as the same code. */
  lemma TablesAgree(e: ErrorCode)
    requires IsNamed(e)
    ensures Recognize(Code(e)) == Some(e)
    ensures Code(e) != "" && IsDigit(Code(e)[0]) && IsDigit(Code(e)[|Code(e)| - 1])
  {
    hide Code, Known, DigitsValue, AllDigits, ShortValue;
    TableEntry(e);
    ShortDigits(Code(e));
  }

  lemma UnnamedText(e: ErrorCode)
    ensures e.Unknown? ==> Code(e) == e.text
    ensures e.Absent? ==> Code(e) == ""
  {
  }

  /** For every wire text, parsing, printing and parsing again gives the same code. */
  lemma CodeRoundTrip(s: string)
    ensures FromText(Code(FromText(s))) == FromText(s)
  {
    var e := FromText(s);
    UnnamedText(e);
    DigitsAreNotSpaces();
    hide Code, Recognize, Texts.IsWhitespace;
    if IsNamed(e) {
      TablesAgree(e);
    }
    Texts.TrimKeeps(Code(e), Texts.IsWhitespace);
  }

  /** Leading zeros never change which code a number is: `007` is code 7. */
  lemma LeadingZerosIgnored(e: ErrorCode, zeros: nat)
    requires IsNamed(e)
    ensures FromText(Zeros(zeros) + Code(e)) == e
  {
    TablesAgree(e);
    PaddedNumber(Code(e), zeros);
    hide Code, Recognize, Texts.IsWhitespace;
    assert forall c | IsDigit(c) :: !Texts.IsWhitespace(c) by {
      DigitsAreNotSpaces();
    }
    var s := Zeros(zeros) + Code(e);
    assert s[|s| - 1] == Code(e)[|Code(e)| - 1];
    assert s[0] == if zeros > 0 then '0' else Code(e)[0];
    Texts.TrimKeeps(s, Texts.IsWhitespace);
  }

  lemma DigitsAreNotSpaces()
    ensures forall c | IsDigit(c) :: !Texts.IsWhitespace(c)
  {
  }

  lemma PaddedNumber(digits: string, zeros: nat)
    requires digits != "" && IsDigit(digits[0])
    ensures Recognize(digits).Some? ==> Recognize(Zeros(zeros) + digits) == Recognize(digits)
  {
    if ParseU16(digits).Some? {
      PrependZeros(zeros, digits);
      assert (Zeros(zeros) + digits)[0] == if zeros > 0 then '0' else digits[0];
    }
  }

  // ---------------------------------------------------------------- what a code says

  /** A code worth retrying leaves the outcome open; a credential code is a refusal. */
  lemma ClassesOfFlags(e: ErrorCode)
    ensures IsRetryable(e) ==> Class(e).ClassUnknown?
    ensures IsCredentialError(e) ==> Class(e).ClassRejected?
    ensures !(IsRetryable(e) && IsCredentialError(e))
  {
  }

  /** Only text the tables do not know, and three named conditions, leave an outcome open. */
  lemma OpenTexts(s: string)
    ensures Class(FromText(s)).ClassUnknown? <==>
            var t := Texts.Trim(s, Texts.IsWhitespace);
            || Recognize(t).None?
            || Recognize(t).value in {Maintenance, EInvoiceSigningFailed, InvoiceNotificationDeliveryFailed}
  {
    hide Known, Texts.Trim;
  }

  // ---------------------------------------------------------------- what the numbers on the wire mean

  /** The numbers the vendor documents. */
  const LISTED: set<nat> :=
    {1, 3, 7, 14, 53, 54, 55, 56, 57, 71, 73, 135, 136, 152, 164, 202, 221, 259, 260, 261, 262, 263, 264, 335, 336, 337,
     338, 339, 340, 352, 363, 364, 365, 463, 537, 538, 539, 551, 552, 553, 554, 555, 556}

  lemma KnownIsListed(n: nat)
    ensures Known(n).Some? <==> n in LISTED
  {
  }

  /** What each listed number says of the outcome. */
  lemma KnownClasses(n: nat)
    requires Known(n).Some?
    ensures var e := Known(n).value;
            && (Class(e).ClassDuplicateOrderNumber? <==> n in {71, 152}) && (Class(e).ClassNotFound? <==> n in {7, 339})
            && (Class(e).ClassUnknown? <==> n in {1, 55, 56})
  {
  }

  /** Which code the single numbers are that decisions name. */
  lemma KnownFlags(n: nat)
    requires Known(n).Some?
    ensures var e := Known(n).value;
            && (IsCredentialError(e) <==> n in {3, 135, 136, 164}) && (IsRetryable(e) <==> n in {1, 55})
            && (e.MissingData? <==> n == 7) && (e.ProformaNotFound? <==> n == 335)
            && (e.XmlNotAFile? <==> n == 53) && (e.MalformedXml? <==> n == 57)
            && (e.PaymentOnReversedInvoice? <==> n == 463)
  {
  }

  /** A number as the wire may write it: with spaces around it, a plus sign and leading zeros. */
  ghost predicate WritesNumber(s: string, n: nat) {
    exists before, digits, after ::
      Surrounds(s, before, digits, after) && DigitsValue(digits) == n
  }

  predicate Surrounds(s: string, before: string, digits: string, after: string)
    ensures Surrounds(s, before, digits, after) ==> AllDigits(digits)
  {
    && (forall i | 0 <= i < |before| :: Texts.IsWhitespace(before[i]))
    && (forall i | 0 <= i < |after| :: Texts.IsWhitespace(after[i]))
    && AllDigits(digits) && digits != ""
    && (s == before + digits + after || s == before + ("+" + digits) + after)
  }

  lemma WrittenNumberIsRead(s: string, n: nat)
    requires WritesNumber(s, n) && n < 0x1_0000
    ensures FromText(s) == match Known(n) case Some(e) => e case None => Unknown(Texts.Trim(s, Texts.IsWhitespace))
  {
    var before, digits, after :| Surrounds(s, before, digits, after) && DigitsValue(digits) == n;
    assert AllDigits(digits) && digits != "";
    hide *;
    WrittenNumberTrims(s, before, digits, after);
    SignedNumber(Texts.Trim(s, Texts.IsWhitespace), digits);
    FromRecognized(s);
  }

  lemma SignedNumber(t: string, digits: string)
    requires AllDigits(digits) && digits != "" && DigitsValue(digits) < 0x1_0000
    requires t == digits || t == "+" + digits
    ensures t != "" && Recognize(t) == Known(DigitsValue(digits))
  {
    assert ("+" + digits)[1..] == digits && IsDigit(digits[0]);
    hide Known, DigitsValue, AllDigits;
  }

  lemma FromRecognized(s: string)
    requires var t := Texts.Trim(s, Texts.IsWhitespace); t != ""
    ensures var t := Texts.Trim(s, Texts.IsWhitespace);
            FromText(s) == match Recognize(t) case Some(e) => e case None => Unknown(t)
  {
    hide Recognize, Texts.Trim;
  }

  lemma WrittenNumberTrims(s: string, before: string, digits: string, after: string)
    requires Surrounds(s, before, digits, after)
    ensures Texts.Trim(s, Texts.IsWhitespace) == digits || Texts.Trim(s, Texts.IsWhitespace) == "+" + digits
  {
    DigitsAreNotSpaces();
    assert IsDigit(digits[0]) && IsDigit(digits[|digits| - 1]);
    var signed := "+" + digits;
    assert signed[|signed| - 1] == digits[|digits| - 1] && !Texts.IsWhitespace('+');
    hide Texts.IsWhitespace, Texts.Trim, DigitsValue, AllDigits;
    if s == before + digits + after {
      Texts.TrimSurrounded(before, digits, after, Texts.IsWhitespace);
    } else {
      Texts.TrimSurrounded(before, signed, after, Texts.IsWhitespace);
    }
  }

  /**
   What every number below 2^16 says on the wire, in the vendor's own numbers: 71 and 152 are duplicates, 7 and 339
   are absences, 1, 55, 56 and every unlisted number leave the outcome open, 3, 135, 136 and 164 reject
   credentials, 1 and 55 pass by themselves, and the rest refuse.
   */
  lemma NumberOnTheWire(s: string, n: nat)
    requires WritesNumber(s, n) && n < 0x1_0000
    ensures var e := FromText(s);
            && (IsNamed(e) <==> n in LISTED)
            && (Class(e).ClassDuplicateOrderNumber? <==> n in {71, 152})
            && (Class(e).ClassNotFound? <==> n in {7, 339})
            && (Class(e).ClassUnknown? <==> n in {1, 55, 56} || n !in LISTED)
            && (IsCredentialError(e) <==> n in {3, 135, 136, 164})
            && (IsRetryable(e) <==> n in {1, 55})
            && (e.MissingData? <==> n == 7)
  {
    WrittenNumberIsRead(s, n);
    KnownIsListed(n);
    if Known(n).Some? {
      KnownClasses(n);
      KnownFlags(n);
    }
    hide Known, WritesNumber, FromText;
  }

  // ---------------------------------------------------------------- the narrower mappings

  datatype Settlement = SettledGone | SettledCredentials | SettledRefused | SettledOpen

  /** `DeleteOutcome::from(ApiError)`. */
  function DeleteSettlement(e: ErrorCode): Settlement {
    if e == ProformaNotFound then SettledGone
    else if IsCredentialError(e) then SettledCredentials
    else if e == XmlNotAFile || e == MalformedXml then SettledRefused
    else SettledOpen
  }

  /** `SetCreditEntriesOutcome::from(ApiError)`. */
  function CreditEntriesSettlement(e: ErrorCode): Settlement {
    if IsCredentialError(e) then SettledCredentials
    else if e == XmlNotAFile || e == MalformedXml || e == PaymentOnReversedInvoice then SettledRefused
    else SettledOpen
  }

  /** Neither mapping settles a code the general table leaves open. */
  lemma NarrowMappingsAreConservative(e: ErrorCode)
    ensures !DeleteSettlement(e).SettledOpen? ==> Class(e).ClassRejected?
    ensures !CreditEntriesSettlement(e).SettledOpen? ==> Class(e).ClassRejected?
    ensures DeleteSettlement(e).SettledCredentials? <==> CreditEntriesSettlement(e).SettledCredentials?
  {
  }

  /** What the two mappings settle, in the vendor's numbers; every other number leaves the step open. */
  lemma NarrowMappingsByNumber(s: string, n: nat)
    requires WritesNumber(s, n) && n < 0x1_0000
    ensures var settled := DeleteSettlement(FromText(s));
            && (settled.SettledGone? <==> n == 335) && (settled.SettledCredentials? <==> n in {3, 135, 136, 164})
            && (settled.SettledRefused? <==> n in {53, 57})
    ensures var settled := CreditEntriesSettlement(FromText(s));
            && !settled.SettledGone? && (settled.SettledCredentials? <==> n in {3, 135, 136, 164})
            && (settled.SettledRefused? <==> n in {53, 57, 463})
  {
    WrittenNumberIsRead(s, n);
    KnownIsListed(n);
    if Known(n).Some? {
      KnownClasses(n);
      KnownFlags(n);
    }
    hide Known, WritesNumber, FromText;
  }
}
