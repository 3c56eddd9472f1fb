/**
 The reversal call (`Gateway::storno`, `storno_send`): the second instance of a guarded send, against a
 vendor that reverses an original at most once and may do so late.
 */
module StornoGateway {
  import opened Wrappers
  import opened Documents
  import opened ErrorCodes
  import opened GatewayAnswers
  import Texts

  // ---------------------------------------------------------------- the vendor's world

  /** The document that reversed the original, and the send it came from, if one of ours. */
  datatype Reversal = Reversal(doc: FoundDocument, origin: Option<nat>)

  datatype StornoWorld = StornoWorld(
    original: string,
    reversal: Option<Reversal>,
    /** The documents under the storno's external id, oldest first. */
    holders: seq<FoundDocument>,
    inFlight: set<nat>,
    sends: nat)

  function NewestHolder(w: StornoWorld): Option<FoundDocument> {
    if w.holders == [] then None else Some(w.holders[|w.holders| - 1])
  }

  predicate WorldValid(w: StornoWorld) {
    && (w.reversal.Some? ==> w.reversal.value.doc.IsStornoOf(w.original))
    && (forall d | d in w.holders :: d.IsStornoOf(w.original) ==> w.reversal.Some? && w.reversal.value.doc == d)
    && (forall s | s in w.inFlight :: s < w.sends)
    && (w.reversal.Some? && w.reversal.value.origin.Some? ==>
          w.reversal.value.origin.value < w.sends && w.reversal.value.origin.value !in w.inFlight)
  }

  /** A send lands: it reverses the original, or changes nothing when that is reversed already. */
  predicate StornoLands(w: StornoWorld, w': StornoWorld) {
    exists s | s in w.inFlight ::
      if w.reversal.Some? then w' == w.(inFlight := w.inFlight - {s})
      else
        && w'.reversal.Some? && w'.reversal.value.origin == Some(s) && w'.reversal.value.doc.IsStornoOf(w.original)
        && w' == w.(inFlight := w.inFlight - {s}, reversal := w'.reversal,
                    holders := w.holders + [w'.reversal.value.doc])
  }

  /** Anyone else reverses the original, or another document takes the external id, or a send is dropped. */
  predicate StornoEnvironment(w: StornoWorld, w': StornoWorld) {
    || w' == w
    || StornoLands(w, w')
    || (w.reversal.None? && w'.reversal.Some? && w'.reversal.value.origin.None?
        && w'.reversal.value.doc.IsStornoOf(w.original) && w' == w.(reversal := w'.reversal))
    || (|w'.holders| > 0 && !w'.holders[|w'.holders| - 1].IsStornoOf(w.original)
        && w' == w.(holders := w.holders + [w'.holders[|w'.holders| - 1]]))
    || (exists s | s in w.inFlight :: w' == w.(inFlight := w.inFlight - {s}))
  }

  /** The send reversed nothing and never will. */
  predicate StornoSpent(w: StornoWorld, send: nat) {
    send < w.sends && send !in w.inFlight && !(w.reversal.Some? && w.reversal.value.origin == Some(send))
  }

  /** What the world keeps while it moves on: a reversal is permanent, a spent send stays spent. */
  ghost predicate StornoDrifts(w: StornoWorld, w': StornoWorld) {
    && w'.original == w.original && w'.sends == w.sends && w'.inFlight <= w.inFlight
    && (w.reversal.Some? ==> w'.reversal == w.reversal)
    && forall s: nat | StornoSpent(w, s) :: StornoSpent(w', s)
  }

  lemma StornoEnvironmentKeeps(w: StornoWorld, w': StornoWorld)
    requires WorldValid(w) && StornoEnvironment(w, w')
    ensures WorldValid(w') && StornoDrifts(w, w')
  {
  }

  /** The gateway sends a storno; whatever was sent before may still be on its way. */
  predicate StornoSends(w: StornoWorld, w': StornoWorld) {
    w' == w.(inFlight := w.inFlight + {w.sends}, sends := w.sends + 1)
  }

  predicate StornoStep(w: StornoWorld, w': StornoWorld) {
    StornoEnvironment(w, w') || StornoSends(w, w')
  }

  /** Before the first call: the original may be reversed already, by somebody else. */
  predicate StornoInit(w: StornoWorld) {
    WorldValid(w) && w.inFlight == {} && w.sends == 0
  }

  /** A run: calls and retries of calls in any number, with everything else that happens between their exchanges. */
  ghost predicate StornoLegal(history: seq<StornoWorld>) {
    && |history| > 0 && StornoInit(history[0])
    && forall i | 0 < i < |history| :: StornoStep(history[i - 1], history[i])
  }

  /** What every continuation keeps, later calls included: the one reversal, and that a spent send is spent. */
  ghost predicate StornoContinues(w: StornoWorld, w': StornoWorld) {
    && w'.original == w.original && w.sends <= w'.sends
    && (w.reversal.Some? ==> w'.reversal == w.reversal)
    && forall s: nat | StornoSpent(w, s) :: StornoSpent(w', s)
  }

  lemma DriftContinues(w: StornoWorld, w': StornoWorld, w'': StornoWorld)
    requires StornoContinues(w, w') && StornoDrifts(w', w'')
    ensures StornoContinues(w, w'') && w''.sends == w'.sends
  {
    hide StornoSpent;
  }

  lemma StornoStepKeeps(w: StornoWorld, w': StornoWorld)
    requires WorldValid(w) && StornoStep(w, w')
    ensures WorldValid(w') && StornoContinues(w, w')
  {
    if StornoEnvironment(w, w') {
      StornoEnvironmentKeeps(w, w');
      hide StornoEnvironment, WorldValid;
    }
  }

  lemma {:induction false} StornoReachable(history: seq<StornoWorld>, n: nat)
    requires StornoLegal(history) && n < |history|
    ensures WorldValid(history[n])
  {
    if n == 0 {
    } else {
      StornoReachable(history, n - 1);
      StornoStepKeeps(history[n - 1], history[n]);
    }
  }

  lemma {:induction false} StornoContinuesAlong(history: seq<StornoWorld>, m: nat, n: nat)
    requires StornoLegal(history) && m <= n < |history|
    ensures StornoContinues(history[m], history[n])
    decreases n
  {
    hide WorldValid, StornoStep, StornoSpent;
    if m == n {
    } else {
      StornoContinuesAlong(history, m, n - 1);
      StornoReachable(history, n - 1);
      assert StornoStep(history[n - 1], history[n]);
      StornoStepKeeps(history[n - 1], history[n]);
    }
  }

  /** A refused or no-op storno reverses nothing, at any later moment of the run and whatever is sent after it. */
  lemma RefusedStornoStaysRefused(history: seq<StornoWorld>, m: nat, n: nat, send: nat)
    requires StornoLegal(history) && m <= n < |history| && StornoSpent(history[m], send)
    ensures StornoSpent(history[n], send)
    ensures history[n].reversal.Some? ==> history[n].reversal.value.origin != Some(send)
  {
    StornoContinuesAlong(history, m, n);
  }

  /** All reversals true of one run, of whatever calls and at whatever moments, carry one number. */
  lemma OneReversalInARun(history: seq<StornoWorld>, m: nat, n: nat, a: string, b: string)
    requires StornoLegal(history) && m < |history| && n < |history|
    requires ReversedBy(history[m], a) && ReversedBy(history[n], b)
    ensures a == b
  {
    if m <= n {
      StornoContinuesAlong(history, m, n);
    } else {
      StornoContinuesAlong(history, n, m);
    }
  }

  /** Of all the sends of a run, retries included, at most one ever reverses. */
  lemma OneSendReverses(history: seq<StornoWorld>, m: nat, n: nat, a: nat, b: nat)
    requires StornoLegal(history) && m < |history| && n < |history|
    requires history[m].reversal.Some? && history[m].reversal.value.origin == Some(a)
    requires history[n].reversal.Some? && history[n].reversal.value.origin == Some(b)
    ensures a == b < history[n].sends
  {
    StornoReachable(history, n);
    if m <= n {
      StornoContinuesAlong(history, m, n);
    } else {
      StornoContinuesAlong(history, n, m);
    }
  }

  /** `n` is the number of the document that reversed the original. */
  predicate ReversedBy(w: StornoWorld, n: string) {
    w.reversal.Some? && w.reversal.value.doc.number == n
  }

  // ---------------------------------------------------------------- replies

  /** A numbered acknowledgement. */
  datatype CreatedInvoice = CreatedInvoice(
    number: string,
    gross: Option<real>,
    documentId: Option<int>,
    notificationFailed: bool)

  datatype Acknowledgement = NumberedStorno(created: CreatedInvoice) | UnnumberedStorno

  datatype Evidence = NewReversal | SameNumberEcho | NeedsVerification

  /** `StornoReplyEvidence::of` over `CreatedInvoice::reverses`. */
  function EvidenceOf(created: CreatedInvoice, original: string): Evidence {
    if created.number != original && created.gross.Some? && created.gross.value <= 0.0 then NewReversal
    else if created.number == original then SameNumberEcho
    else NeedsVerification
  }

  datatype StornoOutcome =
    | StornoUnnumbered
    | StornoReversed(issued: CreatedInvoice)
    | AlreadyReversed(number: string, documentId: Option<int>)
    | NotStornoable
    | StornoRejected(refusal: Option<ErrorCode>)
    | StornoCredentials(code: ErrorCode)
    | StornoApi(code: ErrorCode)
    | StornoUnavailable

  /** The original as a replay-enabled execution contract pins it. */
  datatype PinnedOriginal = PinnedOriginal(documentId: int, fulfillmentDate: string, appearance: int)

  /** A protected order's retained intent; the original its execution contract pins, if it has one. */
  datatype Marker = Marker(order: string, pinned: Option<PinnedOriginal>)

  // ---------------------------------------------------------------- what replies show, field by field

  /** The reply shows a storno of the original, under the number asked for when one was. */
  predicate ShowsStorno(original: string, expected: Option<string>, reply: Reply) {
    && Shows(reply, expected) && reply.value.number != original
    && reply.value.documentType == StornoType && reply.value.referenced == Some(original)
  }

  /** The reply shows the original itself: of the order, of a kind a storno can reverse, and reversed. */
  predicate ShowsReversedOriginal(original: string, order: string, reply: Reply) {
    && Shows(reply, Some(original)) && reply.value.orderNumber == Some(order) && reply.value.reversed == Some(true)
    && (reply.value.documentType == InvoiceType || reply.value.documentType == PrepaymentType
        || reply.value.documentType == FinalType || reply.value.documentType == CorrectiveType)
  }

  predicate ShowsPinned(original: string, order: string, pinned: PinnedOriginal, reply: Reply) {
    && ShowsReversedOriginal(original, order, reply)
    && reply.value.documentId == pinned.documentId && reply.value.fulfillmentDate == Some(pinned.fulfillmentDate)
    && reply.value.appearance == pinned.appearance
  }

  lemma StornoMeans(original: string, expected: Option<string>, reply: Reply)
    ensures var answer := QueryResult(reply, expected);
            && (answer.Ok? && answer.value.IsStornoOf(original) <==> ShowsStorno(original, expected, reply))
            && (answer.Ok? ==> reply == Ok(answer.value) && (expected.Some? ==> answer.value.number == expected.value))
  {
    QueryResultMeans(reply, expected);
    if reply.Ok? {
      BlankMeans(reply.value.number);
    }
    hide QueryResult, IsBlank, Texts.IsWhitespace;
  }

  /** A changed number with a gross that is not positive: the vendor's word for the reversal. */
  predicate SaysReversal(original: string, created: CreatedInvoice) {
    created.number != original && created.gross.Some? && created.gross.value <= 0.0
  }

  /**
   What the vendor is trusted with on a reply. A number of unclear meaning says nothing, and neither does
   the echo of a protected request.
   */
  predicate StornoReplyTruthful(w: StornoWorld, send: nat, guarded: bool, reply: Result<Acknowledgement, ClientError>) {
    match reply
    case Ok(NumberedStorno(created)) =>
      && (SaysReversal(w.original, created) ==> ReversedBy(w, created.number))
      && (created.number == w.original && !guarded ==> StornoSpent(w, send))
    case Ok(UnnumberedStorno) => true
    case Err(e) => Refused(e) ==> StornoSpent(w, send)
  }

  class StornoVendor {
    var world: StornoWorld
    ghost var history: seq<StornoWorld>

    ghost predicate Valid()
      reads this
    {
      StornoLegal(history) && history[|history| - 1] == world && WorldValid(world)
    }

    constructor (start: StornoWorld)
      requires StornoInit(start)
      ensures Valid() && world == start && history == [start]
    {
      world := start;
      history := [start];
    }

    /** One step of the machine. */
    method Advance(next: StornoWorld)
      requires Valid() && StornoStep(world, next)
      modifies this
      ensures Valid() && world == next && history == old(history) + [next]
    {
      StornoStepKeeps(world, next);
      world := next;
      history := history + [next];
    }

    method Environment()
      requires Valid()
      modifies this
      ensures Valid() && old(history) <= history && StornoDrifts(old(world), world)
    {
      hide WorldValid, StornoEnvironment, StornoLegal, StornoSends, StornoSpent;
      var steps: nat := *;
      while steps > 0
        invariant Valid() && old(history) <= history && StornoDrifts(old(world), world)
      {
        var next: StornoWorld := *;
        if StornoEnvironment(world, next) {
          StornoEnvironmentKeeps(world, next);
          Advance(next);
        }
        steps := steps - 1;
      }
    }

    /** The query by the storno's external id: its newest holder. */
    method QueryExternalId() returns (answer: Result<FoundDocument, QueryError>, ghost reply: Reply)
      requires Valid()
      modifies this
      ensures Valid() && old(history) <= history && StornoDrifts(old(world), world)
      ensures answer == QueryResult(reply, None) && QueryTruthful(NewestHolder(world), reply)
    {
      Environment();
      var received: Reply := *;
      if !QueryTruthful(NewestHolder(world), received) {
        received := Err(TransportFailure);
      }
      reply := received;
      answer := QueryResult(received, None);
    }

    /** The query of a document by its number; a storno of the original is its one reversal. */
    method QueryNumber(number: string) returns (answer: Result<FoundDocument, QueryError>, ghost reply: Reply)
      requires Valid()
      modifies this
      ensures Valid() && old(history) <= history && StornoDrifts(old(world), world)
      ensures answer == QueryResult(reply, Some(number))
      ensures reply.Ok? && reply.value.IsStornoOf(world.original) ==> ReversedBy(world, reply.value.number)
    {
      Environment();
      var received: Reply := *;
      if received.Ok? && received.value.IsStornoOf(world.original) && !ReversedBy(world, received.value.number) {
        received := Err(TransportFailure);
      }
      reply := received;
      answer := QueryResult(received, Some(number));
    }

    /** The storno exchange. A request the client itself refuses is never sent. */
    method Send(guarded: bool) returns (reply: Result<Acknowledgement, ClientError>, ghost sent: bool)
      requires Valid()
      modifies this
      ensures Valid() && old(history) <= history && StornoContinues(old(world), world)
      ensures sent <==> reply != Err(RequestRefused)
      ensures world.sends == old(world).sends + if sent then 1 else 0
      ensures sent ==> StornoReplyTruthful(world, old(world).sends, guarded, reply)
    {
      reply := *;
      if reply == Err(RequestRefused) {
        return reply, false;
      }
      Environment();
      var next := world.(inFlight := world.inFlight + {world.sends}, sends := world.sends + 1);
      StornoStepKeeps(world, next);
      Advance(next);
      Environment();
      sent := true;
      if !StornoReplyTruthful(world, world.sends - 1, guarded, reply) {
        reply := Err(TransportFailure);
      }
    }
  }

  // ---------------------------------------------------------------- what an outcome promises

  /** A reversal is reported only with its number; a refusal or a no-op only when the send did nothing. */
  ghost predicate StornoOutcomeHolds(w: StornoWorld, send: nat, o: StornoOutcome) {
    && (o.StornoReversed? ==> ReversedBy(w, o.issued.number))
    && (o.AlreadyReversed? ==> ReversedBy(w, o.number))
    && (IsRefusal(o) ==> StornoSpent(w, send))
    && !o.StornoApi? && !o.StornoUnavailable?
  }

  function ReportedReversal(o: StornoOutcome): Option<string> {
    match o
    case StornoReversed(issued) => Some(issued.number)
    case AlreadyReversed(number, _) => Some(number)
    case _ => None
  }

  predicate IsRefusal(o: StornoOutcome) {
    o.NotStornoable? || o.StornoRejected? || o.StornoCredentials?
  }

  /**
   What two calls of one run report agrees, however many retries and late landings lie between them: two
   reversals carry one number, and a send reported refused is never the one that reverses.
   */
  lemma ReportsAgree(history: seq<StornoWorld>, m: nat, n: nat, send: nat, other: nat, o: StornoOutcome,
                     p: StornoOutcome)
    requires StornoLegal(history) && m < |history| && n < |history|
    requires StornoOutcomeHolds(history[m], send, o) && StornoOutcomeHolds(history[n], other, p)
    ensures ReportedReversal(o).Some? && ReportedReversal(p).Some? ==> ReportedReversal(o) == ReportedReversal(p)
    ensures IsRefusal(o) ==> history[n].reversal.Some? ==> history[n].reversal.value.origin != Some(send)
  {
    hide StornoLegal;
    if ReportedReversal(o).Some? && ReportedReversal(p).Some? {
      OneReversalInARun(history, m, n, ReportedReversal(o).value, ReportedReversal(p).value);
    }
    if m <= n {
      StornoContinuesAlong(history, m, n);
    } else {
      StornoContinuesAlong(history, n, m);
    }
  }

  /** A reported notification failure stays with the exact acknowledged number. */
  ghost predicate NotificationHolds(reply: Result<Acknowledgement, ClientError>,
                                    r: Result<StornoOutcome, Unconfirmed>)
  {
    && (r.Ok? && r.value.StornoReversed? ==>
          && reply.Ok? && reply.value.NumberedStorno?
          && r.value.issued.number == reply.value.created.number
          && r.value.issued.notificationFailed == reply.value.created.notificationFailed)
    && (reply.Ok? && reply.value.NumberedStorno? && reply.value.created.notificationFailed ==>
          r.Ok? && r.value.AlreadyReversed? ==> r.value.number != reply.value.created.number)
    && (r.Err? && r.error.StornoVerification? ==>
          && reply.Ok? && reply.value.NumberedStorno?
          && r.error == StornoVerification(reply.value.created.number, reply.value.created.notificationFailed))
  }

  /** What one call read: the acknowledged document, the external id, the original, and the original once more. */
  datatype StornoReads = StornoReads(
    named: Option<Reply>,
    read: Option<Reply>,
    original: Option<Reply>,
    again: Option<Reply>)

  const UNREAD: StornoReads := StornoReads(None, None, None, None)

  /** The storno a reply shows, as data. */
  function Shown(reply: Reply): StornoOutcome
    requires reply.Ok?
  {
    AlreadyReversed(reply.value.number, Some(reply.value.documentId))
  }

  /** An uncertain storno: one read on the unmanaged path, none on the protected one. */
  ghost predicate UncertainReported(original: string, guarded: bool, cause: Unconfirmed, read: Option<Reply>,
                                    r: Result<StornoOutcome, Unconfirmed>)
  {
    && (read.None? <==> guarded)
    && r == if read.None? then Err(cause)
            else if ShowsStorno(original, None, read.value) then Ok(Shown(read.value))
            else if Shows(read.value, None) || Misses(read.value) then Err(cause)
            else Err(ReQueryFailed(cause))
  }

  /** Evidence for a protected order: its storno, beside fresh reads of the reversed original. */
  ghost predicate Verified(original: string, marker: Marker, number: string, x: StornoReads) {
    && x.named.Some? && ShowsStorno(original, Some(number), x.named.value)
    && x.named.value.value.orderNumber == Some(marker.order)
    && x.original.Some? && ShowsReversedOriginal(original, marker.order, x.original.value)
    && (marker.pinned.Some? ==>
          x.again.Some? && ShowsPinned(original, marker.order, marker.pinned.value, x.again.value))
  }

  /**
   A numbered acknowledgement. The vendor's word for the reversal is believed; the echo of the original is a
   no-op on the unmanaged path and open on the protected one; any other number is a reversal if and only if
   a read showed the storno, and keeps a notification failure for the exact acknowledged number.
   */
  ghost predicate NumberedReported(original: string, marker: Option<Marker>, created: CreatedInvoice, x: StornoReads,
                                   r: Result<StornoOutcome, Unconfirmed>)
  {
    var open := StornoVerification(created.number, created.notificationFailed);
    if SaysReversal(original, created) then r == Ok(StornoReversed(created))
    else if created.number == original then r == if marker.Some? then Err(open) else Ok(NotStornoable)
    else if marker.Some? then
      r == if Verified(original, marker.value, created.number, x)
           then Ok(StornoReversed(created.(documentId := Some(x.named.value.value.documentId)))) else Err(open)
    else if x.named.Some? && ShowsStorno(original, Some(created.number), x.named.value)
    then r == Ok(StornoReversed(created.(documentId := Some(x.named.value.value.documentId))))
    else if created.notificationFailed && x.read.Some? && ShowsStorno(original, None, x.read.value)
            && x.read.value.value.number == created.number
    then r == Ok(StornoReversed(created.(documentId := Some(x.read.value.value.documentId))))
    else UncertainReported(original, false, open, x.read, r)
  }

  /** What a storno is reported as, for every reply, on the unmanaged path and under a marker. */
  ghost predicate StornoReported(original: string, marker: Option<Marker>, reply: Result<Acknowledgement, ClientError>,
                                 x: StornoReads, r: Result<StornoOutcome, Unconfirmed>)
  {
    match reply
    case Ok(NumberedStorno(created)) => NumberedReported(original, marker, created, x, r)
    case Ok(UnnumberedStorno) =>
      if marker.Some? then r == Err(OpenAnswer(None))
      else && x.read.Some?
           && r == Ok(if ShowsStorno(original, None, x.read.value) then Shown(x.read.value) else StornoUnnumbered)
    case Err(ApiError(code)) =>
      if IsCredentialError(code) then r == Ok(StornoCredentials(code))
      else if Class(code).ClassUnknown?
      then UncertainReported(original, marker.Some?, OpenAnswer(Some(code)), x.read, r)
      else r == Ok(StornoRejected(Some(code)))
    case Err(RequestRefused) => r == Ok(StornoRejected(None))
    case Err(ServiceUnavailable) => UncertainReported(original, marker.Some?, VendorDown, x.read, r)
    case Err(_) => UncertainReported(original, marker.Some?, LostTransport, x.read, r)
  }

  /** A reported reversal keeps the acknowledged number and its notification failure. */
  lemma NotificationKept(original: string, marker: Option<Marker>, reply: Result<Acknowledgement, ClientError>,
                         x: StornoReads, r: Result<StornoOutcome, Unconfirmed>)
    requires StornoReported(original, marker, reply, x, r)
    ensures NotificationHolds(reply, r)
    ensures marker.Some? && r.Ok? ==> r.value.StornoReversed? || r.value.StornoRejected? || r.value.StornoCredentials?
    ensures r.Ok? ==> !r.value.StornoApi? && !r.value.StornoUnavailable?
    ensures reply == Err(RequestRefused) ==> r == Ok(StornoRejected(None))
  {
    hide Shows, ShowsReversedOriginal, ShowsPinned;
  }

  /** A failed leading read: answers settle the call with nothing sent, and only a lost one leaves it open. */
  function StornoLeadFailure(e: QueryError): (r: Result<StornoOutcome, Unconfirmed>)
    ensures r.Ok? ==> ReportedReversal(r.value).None?
  {
    match e
    case QueryCredentials(code) => Ok(StornoCredentials(code))
    case QueryApi(code) => Ok(StornoApi(code))
    case QueryTransient(code) => Ok(StornoApi(code))
    case QueryDown => Ok(StornoUnavailable)
    case _ => Err(LostTransport)
  }

  /** The same by what was replied. */
  ghost predicate FailureReported(reply: Reply, r: Result<StornoOutcome, Unconfirmed>) {
    if RejectsCredentials(reply) then r == Ok(StornoCredentials(reply.error.code))
    else if AnswersCode(reply) || IsTransient(reply) then r == Ok(StornoApi(reply.error.code))
    else if reply == Err(ServiceUnavailable) then r == Ok(StornoUnavailable)
    else r == Err(LostTransport)
  }

  lemma FailureMeans(reply: Reply, expected: Option<string>)
    requires QueryResult(reply, expected).Err?
    ensures FailureReported(reply, StornoLeadFailure(QueryResult(reply, expected).error))
  {
    QueryResultMeans(reply, expected);
    hide QueryResult, RejectsCredentials, IsTransient, Shows;
  }

  /** Without a send an outcome is what the leading query replied. */
  ghost predicate StornoLeadReported(original: string, lead: Reply, r: Result<StornoOutcome, Unconfirmed>) {
    if ShowsStorno(original, None, lead) then r == Ok(Shown(lead)) else FailureReported(lead, r)
  }

  /** The leading query found no storno of the original: nothing, or a stray holder. */
  predicate StornoMayProceed(original: string, lead: Reply) {
    Misses(lead) || (Shows(lead, None) && !ShowsStorno(original, None, lead))
  }

  /** Without a send a protected order reports its verified storno, or why there was none. */
  ghost predicate ProtectedLeadReported(original: string, order: string, lead: Reply, again: Option<Reply>,
                                        r: Result<StornoOutcome, Unconfirmed>)
  {
    if !Shows(lead, None) then FailureReported(lead, r)
    else if !ShowsStorno(original, None, lead) || lead.value.orderNumber != Some(order) then r == Err(LostTransport)
    else && again.Some?
         && if ShowsReversedOriginal(original, order, again.value) then r == Ok(Shown(lead))
            else if Shows(again.value, Some(original)) then r == Err(LostTransport) else FailureReported(again.value, r)
  }

  class StornoCalls {
    const vendor: StornoVendor

    constructor (vendor: StornoVendor)
      ensures this.vendor == vendor
    {
      this.vendor := vendor;
    }

    /** `storno_seen`: the storno of the original under the external id; a stray holder is passed over. */
    method StornoSeen() returns (r: Result<Option<FoundDocument>, QueryError>, ghost read: Reply)
      requires vendor.Valid()
      modifies vendor
      ensures vendor.Valid() && old(vendor.history) <= vendor.history && StornoDrifts(old(vendor.world), vendor.world)
      ensures r.Ok? && r.value.Some? <==> ShowsStorno(vendor.world.original, None, read)
      ensures r.Ok? && r.value.Some? ==> read == Ok(r.value.value) && ReversedBy(vendor.world, r.value.value.number)
      ensures r == Ok(None) <==> StornoMayProceed(vendor.world.original, read)
      ensures r.Err? ==> FailureReported(read, StornoLeadFailure(r.error))
    {
      var answer;
      answer, read := vendor.QueryExternalId();
      StornoMeans(vendor.world.original, None, read);
      QueryResultMeans(read, None);
      if answer.Err? {
        FailureMeans(read, None);
      }
      hide QueryResult, Shows, FoundDocument.IsStornoOf, FailureReported, StornoLeadFailure;
      match answer
      case Ok(d) => r := Ok(if d.IsStornoOf(vendor.world.original) then Some(d) else None);
      case Err(QueryNotFound) => r := Ok(None);
      case Err(e) => r := Err(e);
    }

    /** `storno_settle_or`: one read after an uncertain send. */
    method StornoSettleOr(cause: Unconfirmed) returns (r: Result<StornoOutcome, Unconfirmed>, ghost read: Reply)
      requires vendor.Valid()
      modifies vendor
      ensures vendor.Valid() && old(vendor.history) <= vendor.history && StornoDrifts(old(vendor.world), vendor.world)
      ensures UncertainReported(vendor.world.original, false, cause, Some(read), r)
      ensures r.Ok? ==> r.value.AlreadyReversed? && ReversedBy(vendor.world, r.value.number)
    {
      hide Shows;
      var seen;
      seen, read := StornoSeen();
      match seen
      case Ok(Some(d)) => r := Ok(AlreadyReversed(d.number, Some(d.documentId)));
      case Ok(None) => r := Err(cause);
      case Err(_) => r := Err(ReQueryFailed(cause));
    }

    /** `verify_storno_reply`: a changed number needs the identity of the document it names. */
    method VerifyReply(created: CreatedInvoice) returns (r: Result<StornoOutcome, Unconfirmed>, ghost x: StornoReads)
      requires vendor.Valid()
      requires created.number != vendor.world.original && !SaysReversal(vendor.world.original, created)
      modifies vendor
      ensures vendor.Valid() && old(vendor.history) <= vendor.history && StornoDrifts(old(vendor.world), vendor.world)
      ensures NumberedReported(vendor.world.original, None, created, x, r)
      ensures r.Ok? ==> ReportedReversal(r.value).Some? && ReversedBy(vendor.world, ReportedReversal(r.value).value)
    {
      hide QueryResult, Shows, ShowsStorno, FoundDocument.IsStornoOf, FailureReported, Verified;
      var answer;
      ghost var named, read;
      answer, named := vendor.QueryNumber(created.number);
      x := UNREAD.(named := Some(named));
      StornoMeans(vendor.world.original, Some(created.number), named);
      if answer.Ok? && answer.value.number == created.number && answer.value.IsStornoOf(vendor.world.original) {
        return Ok(StornoReversed(created.(documentId := Some(answer.value.documentId)))), x;
      }
      r, read := StornoSettleOr(StornoVerification(created.number, created.notificationFailed));
      x := x.(read := Some(read));
      if r.Ok? && created.notificationFailed && r.value.number == created.number {
        r := Ok(StornoReversed(created.(documentId := r.value.documentId)));
      }
    }

    /** `verify_order_storno`: a document is evidence only beside a fresh read of its reversed original. */
    method VerifyOrderStorno(found: FoundDocument, order: string)
      returns (r: Result<bool, QueryError>, ghost again: Option<Reply>)
      requires vendor.Valid()
      requires found.IsStornoOf(vendor.world.original) ==> ReversedBy(vendor.world, found.number)
      modifies vendor
      ensures vendor.Valid() && old(vendor.history) <= vendor.history && StornoDrifts(old(vendor.world), vendor.world)
      ensures r == Ok(true) ==> ReversedBy(vendor.world, found.number)
      ensures again.Some? <==> found.IsStornoOf(vendor.world.original) && found.orderNumber == Some(order)
      ensures r == Ok(true) <==> again.Some? && ShowsReversedOriginal(vendor.world.original, order, again.value)
      ensures r.Err? <==> again.Some? && !Shows(again.value, Some(vendor.world.original))
      ensures r.Err? ==> FailureReported(again.value, StornoLeadFailure(r.error))
    {
      again := None;
      if !found.IsStornoOf(vendor.world.original) || !found.CarriesOrder(order) {
        return Ok(false), again;
      }
      var answer;
      ghost var reply;
      answer, reply := vendor.QueryNumber(vendor.world.original);
      again := Some(reply);
      QueryResultMeans(reply, Some(vendor.world.original));
      if answer.Err? {
        FailureMeans(reply, Some(vendor.world.original));
        return Err(answer.error), again;
      }
      hide QueryResult, Shows;
      return Ok(IsReversedOriginal(answer.value, order)), again;
    }

    /** `reconcile_write_checked` with the acknowledged number as candidate. */
    method VerifyForOrder(marker: Marker, candidate: string) returns (documentId: Option<int>, ghost x: StornoReads)
      requires vendor.Valid()
      modifies vendor
      ensures vendor.Valid() && old(vendor.history) <= vendor.history && StornoDrifts(old(vendor.world), vendor.world)
      ensures documentId.Some? <==> Verified(vendor.world.original, marker, candidate, x)
      ensures documentId.Some? ==>
                ReversedBy(vendor.world, candidate) && documentId == Some(x.named.value.value.documentId)
    {
      x, documentId := UNREAD, None;
      var queried;
      ghost var named, checked, once;
      queried, named := vendor.QueryNumber(candidate);
      x := x.(named := Some(named));
      StornoMeans(vendor.world.original, Some(candidate), named);
      QueryResultMeans(named, Some(candidate));
      hide QueryResult, Shows, FoundDocument.IsStornoOf, ShowsReversedOriginal;
      if queried.Err? {
        return;
      }
      var evidence;
      evidence, checked := VerifyOrderStorno(queried.value, marker.order);
      x := x.(original := checked);
      if evidence != Ok(true) {
        return;
      }
      if marker.pinned.Some? {
        var again;
        again, once := vendor.QueryNumber(vendor.world.original);
        x := x.(again := Some(once));
        PinnedMeans(vendor.world.original, marker.order, marker.pinned.value, once);
        if again.Err? || !IsPinnedOriginal(again.value, marker.order, marker.pinned.value) {
          return;
        }
      }
      documentId := Some(queried.value.documentId);
    }

    static predicate IsPinnedOriginal(d: FoundDocument, order: string, pinned: PinnedOriginal) {
      && IsReversedOriginal(d, order)
      && d.documentId == pinned.documentId && d.fulfillmentDate == Some(pinned.fulfillmentDate)
      && d.appearance == pinned.appearance
    }

    static predicate IsReversedOriginal(d: FoundDocument, order: string) {
      d.IsStornoable() && d.CarriesOrder(order) && d.reversed == Some(true)
    }

    static lemma PinnedMeans(original: string, order: string, pinned: PinnedOriginal, reply: Reply)
      ensures var answer := QueryResult(reply, Some(original));
              answer.Ok? && IsPinnedOriginal(answer.value, order, pinned)
              <==> ShowsPinned(original, order, pinned, reply)
    {
      QueryResultMeans(reply, Some(original));
      hide QueryResult, Shows;
    }

    /** The failed arms of `storno_send`. */
    method SettleFailure(marker: Option<Marker>, e: ClientError, ghost send: nat)
      returns (r: Result<StornoOutcome, Unconfirmed>, ghost x: StornoReads)
      requires vendor.Valid() && (Refused(e) ==> StornoSpent(vendor.world, send))
      modifies vendor
      ensures vendor.Valid() && old(vendor.history) <= vendor.history && StornoDrifts(old(vendor.world), vendor.world)
      ensures r.Ok? && !e.RequestRefused? ==> StornoOutcomeHolds(vendor.world, send, r.value)
      ensures StornoReported(vendor.world.original, marker, Err(e), x, r)
    {
      hide Shows, ShowsStorno;
      x := UNREAD;
      var open := LostTransport;
      match ClassifyFailure(e) {
      case Refusal(refusal) => return Ok(StornoRejected(refusal)), x;
      case Duplicate(code) => return Ok(StornoRejected(Some(code))), x;
      case CredentialRefusal(code) => return Ok(StornoCredentials(code)), x;
      case Open(code) => open := OpenAnswer(Some(code));
      case Down => open := VendorDown;
      case Lost =>
      }
      if marker.Some? {
        return Err(open), x;
      }
      ghost var read;
      r, read := StornoSettleOr(open);
      x := x.(read := Some(read));
    }

    /** The acknowledgement without a document number: never resent on the unmanaged path. */
    method SettleUnnumbered(marker: Option<Marker>, ghost send: nat)
      returns (r: Result<StornoOutcome, Unconfirmed>, ghost x: StornoReads)
      requires vendor.Valid()
      modifies vendor
      ensures vendor.Valid() && old(vendor.history) <= vendor.history && StornoDrifts(old(vendor.world), vendor.world)
      ensures r.Ok? ==> StornoOutcomeHolds(vendor.world, send, r.value)
      ensures StornoReported(vendor.world.original, marker, Ok(UnnumberedStorno), x, r)
    {
      hide Shows, ShowsStorno;
      x := UNREAD;
      var open := OpenAnswer(None);
      if marker.Some? {
        return Err(open), x;
      }
      ghost var read;
      r, read := StornoSettleOr(open);
      x := x.(read := Some(read));
      if r.Err? {
        r := Ok(StornoUnnumbered);
      }
    }

    /** The numbered arms of `storno_send`. */
    method SettleNumbered(marker: Option<Marker>, created: CreatedInvoice, ghost send: nat)
      returns (r: Result<StornoOutcome, Unconfirmed>, ghost x: StornoReads)
      requires vendor.Valid()
      requires StornoReplyTruthful(vendor.world, send, marker.Some?, Ok(NumberedStorno(created)))
      modifies vendor
      ensures vendor.Valid() && old(vendor.history) <= vendor.history && StornoDrifts(old(vendor.world), vendor.world)
      ensures r.Ok? ==> StornoOutcomeHolds(vendor.world, send, r.value)
      ensures StornoReported(vendor.world.original, marker, Ok(NumberedStorno(created)), x, r)
    {
      hide Shows, ShowsStorno, Verified;
      x := UNREAD;
      match EvidenceOf(created, vendor.world.original)
      case NewReversal => r := Ok(StornoReversed(created));
      case SameNumberEcho =>
        r := if marker.Some? then Err(StornoVerification(created.number, created.notificationFailed))
             else Ok(NotStornoable);
      case NeedsVerification =>
        if marker.Some? {
          var documentId;
          documentId, x := VerifyForOrder(marker.value, created.number);
          r := if documentId.Some? then Ok(StornoReversed(created.(documentId := documentId)))
               else Err(StornoVerification(created.number, created.notificationFailed));
        } else {
          r, x := VerifyReply(created);
        }
    }

    /** `storno_send`. */
    method StornoSend(marker: Option<Marker>)
      returns (r: Result<StornoOutcome, Unconfirmed>, ghost sent: bool,
               ghost reply: Result<Acknowledgement, ClientError>, ghost x: StornoReads)
      requires vendor.Valid()
      modifies vendor
      ensures vendor.Valid() && old(vendor.history) <= vendor.history
      ensures StornoContinues(old(vendor.world), vendor.world)
      ensures vendor.world.sends == old(vendor.world).sends + if sent then 1 else 0
      ensures sent <==> reply != Err(RequestRefused)
      ensures sent && r.Ok? ==> StornoOutcomeHolds(vendor.world, old(vendor.world).sends, r.value)
      ensures StornoReported(vendor.world.original, marker, reply, x, r)
      ensures NotificationHolds(reply, r)
      ensures r.Ok? && ReportedReversal(r.value).Some? ==> ReversedBy(vendor.world, ReportedReversal(r.value).value)
    {
      hide StornoLegal, WorldValid, StornoSpent, NotificationHolds, StornoReported;
      var answer;
      answer, sent := vendor.Send(marker.Some?);
      reply := answer;
      ghost var send := old(vendor.world).sends;
      ghost var settling := vendor.world;
      match answer {
      case Err(e) =>
        r, x := SettleFailure(marker, e, send);
      case Ok(UnnumberedStorno) =>
        r, x := SettleUnnumbered(marker, send);
      case Ok(NumberedStorno(created)) =>
        r, x := SettleNumbered(marker, created, send);
      }
      DriftContinues(old(vendor.world), settling, vendor.world);
      NotificationKept(vendor.world.original, marker, reply, x, r);
    }

    /** `storno_inner`: the leading query by the storno's external id, and at most one send. */
    method StornoInner()
      returns (r: Result<StornoOutcome, Unconfirmed>, ghost sent: bool, ghost lead: Reply,
               ghost reply: Result<Acknowledgement, ClientError>, ghost x: StornoReads)
      requires vendor.Valid()
      modifies vendor
      ensures vendor.Valid() && old(vendor.history) <= vendor.history
      ensures StornoContinues(old(vendor.world), vendor.world)
      ensures vendor.world.sends == old(vendor.world).sends + if sent then 1 else 0
      ensures sent <==> StornoMayProceed(vendor.world.original, lead) && reply != Err(RequestRefused)
      ensures if StornoMayProceed(vendor.world.original, lead)
              then StornoReported(vendor.world.original, None, reply, x, r)
              else StornoLeadReported(vendor.world.original, lead, r)
      ensures sent && r.Ok? ==> StornoOutcomeHolds(vendor.world, old(vendor.world).sends, r.value)
      ensures r.Ok? && ReportedReversal(r.value).Some? ==> ReversedBy(vendor.world, ReportedReversal(r.value).value)
    {
      hide StornoReported, FailureReported, ShowsStorno, StornoMayProceed, StornoLeadFailure;
      sent, reply, x := false, Err(TransportFailure), UNREAD;
      var seen;
      seen, lead := StornoSeen();
      match seen
      case Ok(Some(d)) => r := Ok(AlreadyReversed(d.number, Some(d.documentId)));
      case Ok(None) => r, sent, reply, x := StornoSend(None);
      case Err(e) => r := StornoLeadFailure(e);
    }

    /** `protected_storno`, with the lookup of a protected order: only absence under the external id lets it send. */
    method ProtectedStorno(marker: Marker)
      returns (r: Result<StornoOutcome, Unconfirmed>, ghost sent: bool, ghost lead: Reply, ghost again: Option<Reply>,
               ghost reply: Result<Acknowledgement, ClientError>, ghost x: StornoReads)
      requires vendor.Valid()
      modifies vendor
      ensures vendor.Valid() && old(vendor.history) <= vendor.history
      ensures StornoContinues(old(vendor.world), vendor.world)
      ensures vendor.world.sends == old(vendor.world).sends + if sent then 1 else 0
      ensures sent <==> Misses(lead) && reply != Err(RequestRefused)
      ensures if Misses(lead) then StornoReported(vendor.world.original, Some(marker), reply, x, r)
              else ProtectedLeadReported(vendor.world.original, marker.order, lead, again, r)
      ensures sent && r.Ok? ==> StornoOutcomeHolds(vendor.world, old(vendor.world).sends, r.value)
      ensures r.Ok? && ReportedReversal(r.value).Some? ==> ReversedBy(vendor.world, ReportedReversal(r.value).value)
    {
      hide StornoReported, FailureReported, StornoLeadFailure, ShowsReversedOriginal;
      sent, again, reply, x := false, None, Err(TransportFailure), UNREAD;
      var found;
      found, lead := vendor.QueryExternalId();
      QueryResultMeans(lead, None);
      StornoMeans(vendor.world.original, None, lead);
      if found.Err? {
        FailureMeans(lead, None);
      }
      hide QueryResult, Shows, FoundDocument.IsStornoOf;
      if found == Err(QueryNotFound) {
        r, sent, reply, x := StornoSend(Some(marker));
      } else if found.Err? {
        r := StornoLeadFailure(found.error);
      } else {
        var evidence;
        evidence, again := VerifyOrderStorno(found.value, marker.order);
        match evidence
        case Ok(true) => r := Ok(AlreadyReversed(found.value.number, Some(found.value.documentId)));
        case Ok(false) => r := Err(LostTransport);
        case Err(e) => r := StornoLeadFailure(e);
      }
    }
  }
}
