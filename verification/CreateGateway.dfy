/**
 The issuing call (`Gateway::create_once`) as it runs: one exchange after another with a vendor that
 may act, be reversed, lose a reply or answer nothing in between. The vendor's world moves only by the
 steps of `CreateProtocol`, and its history is kept, so every call is part of a legal run.
 */
module CreateGateway {
  import opened Wrappers
  import opened Documents
  import opened ErrorCodes
  import opened CreateProtocol
  import opened GatewayAnswers

  /** What a create is acknowledged with. */
  datatype Creation = Numbered(number: string) | Unnumbered

  // ---------------------------------------------------------------- what the vendor is trusted with

  /** Some document of ours carries the number. */
  predicate HoldsOurs(w: World, number: string) {
    exists i | 0 <= i < |w.records| :: w.records[i].doc.number == number && w.records[i].Ours(w.order, w.kind)
  }

  /**
   A number other than the expected old one is a document of ours and the end of the send; a refusal
   means the send created nothing and never will. Every other reply says nothing.
   */
  predicate ReplyTruthful(w: World, send: nat, request: CreateStepRequest, reply: Result<Creation, ClientError>) {
    match reply
    case Ok(Numbered(number)) => request.reversed != Some(number) ==> send !in w.inFlight && HoldsOurs(w, number)
    case Ok(Unnumbered) => true
    case Err(e) => Refused(e) ==> Spent(w, send)
  }

  class Vendor {
    var world: World
    ghost var history: seq<World>
    /** Every query made, oldest first. */
    ghost var asked: seq<Asked>

    ghost predicate Valid()
      reads this
    {
      Legal(history) && history[|history| - 1] == world
    }

    constructor (start: World)
      requires Init(start)
      ensures Valid() && world == start && history == [start] && asked == []
    {
      world := start;
      history := [start];
      asked := [];
    }

    /** One step of the machine. */
    method Advance(next: World)
      requires Valid() && Step(world, next)
      modifies this
      ensures Valid() && world == next && history == old(history) + [next] && asked == old(asked)
    {
      world := next;
      history := history + [next];
    }

    /** Whatever happens between two exchanges: any number of environment steps. */
    method Environment()
      requires Valid()
      modifies this
      ensures Valid() && old(history) <= history && Drifts(old(world), world)
      ensures asked == old(asked)
    {
      hide Legal, Step;
      var steps: nat := *;
      while steps > 0
        invariant Valid() && old(history) <= history && Drifts(old(world), world) && asked == old(asked)
      {
        var next: World := *;
        if EnvironmentStep(world, next) {
          EnvironmentDrifts(world, next);
          EnvironmentIsStep(world, next);
          Advance(next);
        }
        steps := steps - 1;
      }
    }

    /** The query by external id (`query_raw`). */
    method Query() returns (answer: Result<FoundDocument, QueryError>, ghost reply: Reply)
      requires Valid()
      modifies this
      ensures Valid() && old(history) <= history && Drifts(old(world), world)
      ensures answer == QueryResult(reply, None) && QueryTruthful(Newest(world.records), reply)
      ensures asked == old(asked) + [Asked(OwnId, reply)]
    {
      Environment();
      var received: Reply := *;
      if !QueryTruthful(Newest(world.records), received) {
        received := Err(TransportFailure);
      }
      reply := received;
      asked := asked + [Asked(OwnId, received)];
      answer := QueryResult(received, None);
    }

    /** The query by order number (`hint_raw`), over documents this model does not hold. */
    method Hint() returns (answer: Result<FoundDocument, QueryError>, ghost reply: Reply)
      requires Valid()
      modifies this
      ensures Valid() && old(history) <= history && Drifts(old(world), world)
      ensures answer == QueryResult(reply, None)
      ensures asked == old(asked) + [Asked(OfOrder, reply)]
    {
      Environment();
      var received: Reply := *;
      reply := received;
      asked := asked + [Asked(OfOrder, received)];
      answer := QueryResult(received, None);
    }

    /** The create exchange. A request the client itself refuses is never sent. */
    method Send(request: CreateStepRequest) returns (reply: Result<Creation, ClientError>, ghost sent: bool)
      requires Valid() && world.call.Cleared? && world.call.request == request
      modifies this
      ensures Valid() && old(history) <= history && world.permissions == old(world).permissions
      ensures world.order == old(world).order && world.kind == old(world).kind && asked == old(asked)
      ensures sent <==> reply != Err(RequestRefused)
      ensures !sent ==> world == old(world)
      ensures sent ==>
                && world.sends == old(world).sends + 1
                && world.call == Outstanding(request, old(world).call.seen, old(world).sends)
                && ReplyTruthful(world, old(world).sends, request, reply)
    {
      reply := *;
      if reply == Err(RequestRefused) {
        return reply, false;
      }
      Environment();
      Advance(world.(call := Outstanding(request, world.call.seen, world.sends),
                     inFlight := world.inFlight[world.sends := request],
                     sends := world.sends + 1));
      Environment();
      sent := true;
      if !ReplyTruthful(world, world.call.send, request, reply) {
        reply := Err(TransportFailure);
      }
    }

    /** The call is over and its send, if there was one, settled. */
    method Conclude()
      requires Valid() && !world.call.Idle?
      requires world.call.Outstanding? ==> world.call.send !in world.inFlight
      modifies this
      ensures Valid() && old(history) <= history && world == old(world).(call := Idle) && asked == old(asked)
    {
      Advance(world.(call := Idle));
    }

    /** Whatever calls were made and however they interleaved with the world, every moment was safe. */
    lemma AlwaysSafe()
      requires Valid()
      ensures forall n | 0 <= n < |history| :: Safe(history[n])
    {
      EveryRunIsSafe(history);
    }

    lemma CurrentInv()
      requires Valid()
      ensures Inv(world)
    {
      ReachableInv(history, |history| - 1);
    }
  }

  lemma EnvironmentIsStep(w: World, w': World)
    requires EnvironmentStep(w, w')
    ensures Step(w, w')
  {
  }

  /** One granted send; consumed by the call it is given to, and never renewed. */
  class CreatePermission {
    var spent: bool

    constructor Grant()
      ensures !spent
    {
      spent := false;
    }
  }

  // ---------------------------------------------------------------- what a settled call promises

  /** What a settled outcome says about the send it made. */
  ghost predicate OutcomeHolds(w: World, send: nat, request: CreateStepRequest, o: CreateOutcome) {
    && (SaysNothingCreated(o) ==> Spent(w, send))
    && (o.Issued? ==> send !in w.inFlight && HoldsOurs(w, o.number))
    && (o.Found? || o.Reversed? ==>
          && LandedAs(w, send, o.doc) && o.doc.MatchesBase(request.kind, request.corrected)
          && (o.Found? <==> o.doc.IsLive()))
    && !o.Reconciled? && !o.LiveAgain? && !o.TargetChanged? && !o.Api? && !o.Unavailable?
    && (ReportedNumber(o).Some? ==> ReportedNumber(o) != request.reversed)
  }

  lemma OutcomeOutlivesCall(w: World, send: nat, request: CreateStepRequest, o: CreateOutcome)
    requires OutcomeHolds(w, send, request, o)
    ensures OutcomeHolds(w.(call := Idle), send, request, o)
  {
  }

  /** What one call was told: the leading reply, the reply to its send, and what it read after it. */
  datatype Exchange = Exchange(
    lead: Reply,
    sent: bool,
    reply: Result<Creation, ClientError>,
    read: Option<Reply>,
    hint: Option<Reply>)

  /**
   What a send is reported as, for every reply and every policy. A number is issued and a refusal is that
   refusal; a duplicate refusal keeps the diagnostic its policy allows. Any other reply leaves the call
   open with its own cause, unless the immediate read shows evidence; a failed read is named with it.
   */
  ghost predicate SendReported(request: CreateStepRequest, settlement: CreateSettlement,
                               reply: Result<Creation, ClientError>, read: Option<Reply>, hint: Option<Reply>,
                               r: Result<CreateOutcome, Unconfirmed>)
  {
    match Uncertainty(request, reply)
    case Some(cause) =>
      && hint.None? && (read.Some? <==> settlement == Immediate)
      && UncertaintyReported(request, cause, read, r)
    case None =>
      match reply
      case Ok(creation) => creation.Numbered? && r == Ok(Issued(creation.number))
      case Err(RequestRefused) => r == Ok(Rejected(None))
      case Err(ApiError(code)) =>
        if IsCredentialError(code) then r == Ok(CredentialsRejected(code))
        else if Class(code).ClassDuplicateOrderNumber? then
          && read.Some? && (hint.Some? <==> HintAsked(request, read.value))
          && r.Ok? && DuplicateReported(settlement, request, code, read.value, hint, r.value)
        else r == Ok(Rejected(Some(code)))
      case Err(_) => false
  }

  /** An uncertain send, by what the one read after it replied, if there was one. */
  ghost predicate UncertaintyReported(request: CreateStepRequest, cause: Unconfirmed, read: Option<Reply>,
                                      r: Result<CreateOutcome, Unconfirmed>)
  {
    if read.None? then r == Err(cause)
    else if IsEvidence(request, read.value) then r == Ok(EvidenceOutcome(read.value.value))
    else if Shows(read.value, None) || Misses(read.value) then r == Err(cause)
    else r == Err(ReQueryFailed(cause))
  }

  /** Evidence as a create reports it. */
  function EvidenceOutcome(d: FoundDocument): CreateOutcome {
    if d.reversed == Some(true) then Reversed(d) else Found(d)
  }

  /** Why a reply leaves it open whether the send acted, if it does. */
  function Uncertainty(request: CreateStepRequest, reply: Result<Creation, ClientError>): Option<Unconfirmed> {
    match reply
    case Ok(Numbered(number)) => if request.reversed == Some(number) then Some(ReissueEcho) else None
    case Ok(Unnumbered) => Some(OpenAnswer(None))
    case Err(ApiError(code)) => if Class(code).ClassUnknown? then Some(OpenAnswer(Some(code))) else None
    case Err(RequestRefused) => None
    case Err(ServiceUnavailable) => Some(VendorDown)
    case Err(_) => Some(LostTransport)
  }

  /** The classification of a failed exchange agrees with what its reply leaves open. */
  lemma ClassifiedUncertainty(request: CreateStepRequest, e: ClientError)
    ensures var f := ClassifyFailure(e);
            var u := Uncertainty(request, Err(e));
            && (f.Refusal? || f.Duplicate? || f.CredentialRefusal? <==> u.None?)
            && (forall code :: f == Open(code) ==> u == Some(OpenAnswer(Some(code))))
            && (f.Down? ==> u == Some(VendorDown)) && (f.Lost? ==> u == Some(LostTransport))
            && (forall code :: f == Duplicate(code) ==>
                  e == ApiError(code) && !IsCredentialError(code) && Class(code).ClassDuplicateOrderNumber?)
            && (f.Duplicate? <==> e.ApiError? && Class(e.code).ClassDuplicateOrderNumber?)
            && (forall code :: f == CredentialRefusal(code) ==> e == ApiError(code) && IsCredentialError(code))
            && (forall code :: f == Refusal(Some(code)) ==>
                  e == ApiError(code) && !IsCredentialError(code) && !Class(code).ClassDuplicateOrderNumber?)
            && (f == Refusal(None) <==> e.RequestRefused?)
  {
  }

  /**
   A whole call. It sends at most once, and exactly when the leading reply is a miss (initial create) or the
   expected document reversed (reissue), unless the client itself refuses the request; a settled call
   leaves no send behind; an unsettled one leaves its caller unable to ask again.
   */
  ghost predicate CallHolds(w: World, send: nat, request: CreateStepRequest, settlement: CreateSettlement, x: Exchange,
                            r: Result<CreateOutcome, Unconfirmed>)
  {
    && w.sends == send + (if x.sent then 1 else 0)
    && (x.sent <==> ReplyPermits(request, x.lead) && x.reply != Err(RequestRefused))
    && (r.Ok? ==> w.call.Idle?)
    && (r.Err? ==> if x.sent then w.call.Outstanding? && w.call.send == send && w.call.request == request
                   else w.call == Checking(request))
    && (x.sent ==> SendReported(request, settlement, x.reply, x.read, x.hint, r))
    && (!x.sent ==> LeadReported(request, x.lead, r))
    && (x.sent && r.Ok? ==> OutcomeHolds(w, send, request, r.value))
    && (r.Ok? && ReportedNumber(r.value).Some? ==> ReportedNumber(r.value) != request.reversed)
  }

  /**
   Without a send an outcome says exactly what the leading query replied: each is reported if and only if its
   reply was received, a reissue reports no document as issued, and only a lost reply leaves the call open.
   */
  ghost predicate LeadReported(request: CreateStepRequest, lead: Reply, r: Result<CreateOutcome, Unconfirmed>) {
    if IsLost(lead, None) then r == Err(LostTransport) else r.Ok? && UnsentOutcomeHolds(request, lead, r.value)
  }

  ghost predicate UnsentOutcomeHolds(request: CreateStepRequest, lead: Reply, o: CreateOutcome) {
    var ours := Validated(request, lead);
    && (o.Found? <==> ours && request.reversed.None? && lead.value.reversed != Some(true))
    && (o.Reversed? <==> ours && request.reversed.None? && lead.value.reversed == Some(true))
    && (o.LiveAgain? <==> ours && request.reversed == Some(lead.value.number) && lead.value.reversed != Some(true))
    && (o.TargetChanged? <==>
          request.reversed.Some? && (Misses(lead) || (ours && request.reversed != Some(lead.value.number))))
    && (o.Collision? <==> Shows(lead, None) && !ours)
    && (o.Found? || o.Reversed? || o.LiveAgain? || o.Collision? ==> lead == Ok(o.doc))
    && (o.CredentialsRejected? <==> RejectsCredentials(lead))
    && (o.Api? <==> AnswersCode(lead) || IsTransient(lead))
    && (o.CredentialsRejected? || o.Api? ==> lead == Err(ApiError(o.code)))
    && (o.Unavailable? <==> lead == Err(ServiceUnavailable))
    && (o.Rejected? <==> ReplyPermits(request, lead))
    && !o.Issued? && !o.Reconciled? && !o.DuplicateOrder? && (o.Rejected? ==> o.refusal.None?)
  }

  /** What the leading query settles it settles as replied, and what it leaves to the caller it leaves as replied. */
  lemma LeadingOutcome(lead: Reply, request: CreateStepRequest)
    ensures var s := SettledByQuery(QueryResult(lead, None), request, true);
            && (s.Ok? && s.value.Some? ==>
                  && LeadReported(request, lead, Ok(s.value.value))
                  && (ReportedNumber(s.value.value).Some? ==> ReportedNumber(s.value.value) != request.reversed))
            && (s.Err? ==> if s.error.QueryTransport? then LeadReported(request, lead, Err(LostTransport))
                           else !s.error.QueryNotFound? && LeadReported(request, lead, Ok(LeadingFailure(s.error))))
            && (s == Ok(None) ==> LeadReported(request, lead, Ok(Rejected(None))))
  {
    QueryResultMeans(lead, None);
    if lead.Ok? {
      LeadingHolder(lead, request);
    } else {
      LeadingError(lead, request);
    }
  }

  lemma LeadingHolder(lead: Reply, request: CreateStepRequest)
    requires lead.Ok?
    ensures var s := SettledByQuery(QueryResult(lead, None), request, true);
            && (s.Ok? && s.value.Some? ==>
                  && LeadReported(request, lead, Ok(s.value.value))
                  && (ReportedNumber(s.value.value).Some? ==> ReportedNumber(s.value.value) != request.reversed))
            && (s.Err? ==> s.error.QueryTransport? && LeadReported(request, lead, Err(LostTransport)))
            && (s == Ok(None) ==> LeadReported(request, lead, Ok(Rejected(None))))
  {
    QueryResultMeans(lead, None);
    hide QueryResult, Shows, LeadReported;
    if Shows(lead, None) {
      LeadingShown(lead, request);
    } else {
      assert LeadReported(request, lead, Err(LostTransport)) by {
        LostLead(lead, request);
      }
    }
  }

  lemma LostLead(lead: Reply, request: CreateStepRequest)
    requires lead.Ok? && !Shows(lead, None)
    ensures LeadReported(request, lead, Err(LostTransport))
  {
  }

  lemma LeadingShown(lead: Reply, request: CreateStepRequest)
    requires Shows(lead, None)
    ensures var s := SettledByQuery(Ok(lead.value), request, true);
            && s.Ok?
            && (s.value.Some? ==>
                  && LeadReported(request, lead, Ok(s.value.value))
                  && (ReportedNumber(s.value.value).Some? ==> ReportedNumber(s.value.value) != request.reversed))
            && (s.value.None? ==> LeadReported(request, lead, Ok(Rejected(None))))
  {
    MatchesMeans(request, lead.value);
    hide Shows, Matches, FoundDocument.IsOurs, FoundDocument.MatchesBase;
  }

  lemma LeadingError(lead: Reply, request: CreateStepRequest)
    requires lead.Err?
    ensures var s := SettledByQuery(QueryResult(lead, None), request, true);
            && (s.Ok? && s.value.Some? ==>
                  && LeadReported(request, lead, Ok(s.value.value)) && ReportedNumber(s.value.value).None?)
            && (s.Err? ==> if s.error.QueryTransport? then LeadReported(request, lead, Err(LostTransport))
                           else !s.error.QueryNotFound? && LeadReported(request, lead, Ok(LeadingFailure(s.error))))
            && (s == Ok(None) ==> LeadReported(request, lead, Ok(Rejected(None))))
  {
    QueryResultMeans(lead, None);
    hide QueryResult, Shows, Matches, IsCredentialError, IsRetryable;
  }

  /** After a refused send a validated holder is the expected old one, reversed. */
  lemma NoEvidenceAfterRefusal(w: World, request: CreateStepRequest, read: Reply)
    requires Inv(w) && w.call.Outstanding? && w.call.request == request && Spent(w, w.call.send)
    requires QueryTruthful(Newest(w.records), read)
    ensures OnlyOldTarget(request, read)
  {
    if Validated(request, read) {
      MatchesMeans(request, read.value);
      RefusalLeavesNoEvidence(w, read.value);
    }
  }

  predicate OnlyOldTarget(request: CreateStepRequest, read: Reply) {
    Validated(request, read) ==> request.reversed == Some(read.value.number) && read.value.reversed == Some(true)
  }

  lemma RefusalOutcomeHolds(w: World, send: nat, settlement: CreateSettlement, request: CreateStepRequest,
                            code: ErrorCode, read: Reply, hint: Option<Reply>, o: CreateOutcome)
    requires Spent(w, send) && OnlyOldTarget(request, read)
    requires DuplicateReported(settlement, request, code, read, hint, o)
    ensures OutcomeHolds(w, send, request, o) && !IsEvidence(request, read)
    ensures o.DuplicateOrder? || o.Rejected? || o.Collision?
  {
    RefusalOrCollision(settlement, request, code, read, hint, o);
    hide DuplicateReported, OnlyOldTarget, IsEvidence, Spent;
  }

  lemma RefusalOrCollision(settlement: CreateSettlement, request: CreateStepRequest, code: ErrorCode, read: Reply,
                           hint: Option<Reply>, o: CreateOutcome)
    requires OnlyOldTarget(request, read) && DuplicateReported(settlement, request, code, read, hint, o)
    ensures !IsEvidence(request, read)
    ensures o.DuplicateOrder? || o.Rejected? || o.Collision?
  {
    NoEvidenceButTheOld(request, read);
    hide IsEvidence, Validated, OnlyOldTarget, Shows, Matches, NamesDuplicate;
  }

  lemma NoEvidenceButTheOld(request: CreateStepRequest, read: Reply)
    requires OnlyOldTarget(request, read)
    ensures !IsEvidence(request, read)
    ensures Validated(request, read) ==> read.value.reversed == Some(true)
  {
    hide Shows, Matches;
  }

  class Gateway {
    const vendor: Vendor

    constructor (vendor: Vendor)
      ensures this.vendor == vendor
    {
      this.vendor := vendor;
    }

    /** `reconcile` of the outstanding create: read-only evidence. */
    method Reconcile(request: CreateStepRequest)
      returns (r: Result<Reconciliation, Unanswered>, ghost read: Reply)
      requires vendor.Valid() && vendor.world.call.Outstanding? && vendor.world.call.request == request
      modifies vendor
      ensures vendor.Valid() && old(vendor.history) <= vendor.history && Drifts(old(vendor.world), vendor.world)
      ensures vendor.asked == old(vendor.asked) + [Asked(OwnId, read)]
      ensures r.Ok? && r.value.Created? <==> IsEvidence(request, read)
      ensures r.Ok? && r.value.Created? ==>
                && read == Ok(r.value.doc)
                && LandedAs(vendor.world, vendor.world.call.send, r.value.doc)
                && vendor.world.call.send !in vendor.world.inFlight
      ensures r == Ok(Inconclusive) <==> Misses(read) || (Shows(read, None) && !IsEvidence(request, read))
      ensures r.Ok? && r.value.CredentialsPrevent? <==> RejectsCredentials(read)
      ensures r.Ok? && r.value.ApiPrevents? <==> AnswersCode(read)
    {
      var answer;
      answer, read := vendor.Query();
      r := ReconcileCreate(answer, request);
      ReconcileMeans(read, request);
      if r.Ok? && r.value.Created? {
        vendor.CurrentInv();
        MatchesMeans(request, r.value.doc);
        EvidenceNamesTheSend(vendor.world, r.value.doc);
      }
    }

    /** `settle_unconfirmed_create` and `settle_or`. */
    method SettleUnconfirmed(request: CreateStepRequest, settlement: CreateSettlement, cause: Unconfirmed)
      returns (r: Result<CreateOutcome, Unconfirmed>, ghost read: Option<Reply>)
      requires vendor.Valid() && vendor.world.call.Outstanding? && vendor.world.call.request == request
      modifies vendor
      ensures vendor.Valid() && old(vendor.history) <= vendor.history && Drifts(old(vendor.world), vendor.world)
      ensures read.Some? <==> settlement == Immediate
      ensures vendor.asked == old(vendor.asked) + AskedAfter(read, None)
      ensures UncertaintyReported(request, cause, read, r)
      ensures r.Ok? ==>
                && OutcomeHolds(vendor.world, vendor.world.call.send, request, r.value)
                && vendor.world.call.send !in vendor.world.inFlight
    {
      read := None;
      if settlement != Immediate {
        EmptyDrift(vendor.world);
        return Err(cause), read;
      }
      var reconciled;
      ghost var reply;
      reconciled, reply := Reconcile(request);
      read := Some(reply);
      r := SettleUncertain(reconciled, cause);
      if IsEvidence(request, reply) {
        MatchesMeans(request, reply.value);
      }
    }

    /** `after_duplicate` and the policy over it; the refusal has already settled the send. */
    method SettleDuplicate(request: CreateStepRequest, settlement: CreateSettlement, code: ErrorCode)
      returns (o: CreateOutcome, ghost read: Reply, ghost hint: Option<Reply>)
      requires vendor.Valid() && vendor.world.call.Outstanding? && vendor.world.call.request == request
      requires Spent(vendor.world, vendor.world.call.send)
      modifies vendor
      ensures vendor.Valid() && old(vendor.history) <= vendor.history && Drifts(old(vendor.world), vendor.world)
      ensures OutcomeHolds(vendor.world, vendor.world.call.send, request, o)
      ensures hint.Some? <==> HintAsked(request, read)
      ensures vendor.asked == old(vendor.asked) + AskedAfter(Some(read), hint)
      ensures DuplicateReported(settlement, request, code, read, hint, o)
      ensures !IsEvidence(request, read) && (o.DuplicateOrder? || o.Rejected? || o.Collision?)
    {
      hide AfterDuplicate, KeepDiagnostic, SettledByQuery, Spent, QueryResult, NothingHeld, DuplicateReported;
      hide OutcomeHolds, IsEvidence, Validated, QueryTruthful;
      var answer;
      answer, read := vendor.Query();
      vendor.CurrentInv();
      NoEvidenceAfterRefusal(vendor.world, request, read);
      DiagnosticQuery(read, request);
      hint := None;
      var hinted: Result<FoundDocument, QueryError> := Err(QueryTransport);
      if SettledByQuery(answer, request, false) == Ok(None) && request.kind != Corrective {
        ghost var reply;
        hinted, reply := vendor.Hint();
        hint := Some(reply);
      }
      DuplicateDecided(settlement, request, code, read, hint);
      o := KeepDiagnostic(settlement, AfterDuplicate(answer, hinted, request, code), request, code);
      RefusalOutcomeHolds(vendor.world, vendor.world.call.send, settlement, request, code, read, hint, o);
    }

    /** The acknowledged arms of `create_send`. */
    method SettleAcknowledged(request: CreateStepRequest, settlement: CreateSettlement, creation: Creation)
      returns (r: Result<CreateOutcome, Unconfirmed>, ghost read: Option<Reply>)
      requires vendor.Valid() && vendor.world.call.Outstanding? && vendor.world.call.request == request
      requires ReplyTruthful(vendor.world, vendor.world.call.send, request, Ok(creation))
      modifies vendor
      ensures vendor.Valid() && old(vendor.history) <= vendor.history && Drifts(old(vendor.world), vendor.world)
      ensures r.Ok? ==>
                && OutcomeHolds(vendor.world, vendor.world.call.send, request, r.value)
                && vendor.world.call.send !in vendor.world.inFlight
      ensures SendReported(request, settlement, Ok(creation), read, None, r)
      ensures vendor.asked == old(vendor.asked) + AskedAfter(read, None)
    {
      hide Drifts, LandedAs, HoldsOurs, Spent;
      read := None;
      if creation.Numbered? && request.reversed != Some(creation.number) {
        EmptyDrift(vendor.world);
        r := Ok(Issued(creation.number));
      } else {
        r, read := SettleUnconfirmed(request, settlement, if creation.Numbered? then ReissueEcho else OpenAnswer(None));
      }
    }

    /** The failed arms of `create_send`. */
    method SettleFailure(request: CreateStepRequest, settlement: CreateSettlement, e: ClientError)
      returns (r: Result<CreateOutcome, Unconfirmed>, ghost read: Option<Reply>, ghost hint: Option<Reply>)
      requires vendor.Valid()
      requires !e.RequestRefused? ==> vendor.world.call.Outstanding? && vendor.world.call.request == request
      requires Refused(e) ==> Spent(vendor.world, vendor.world.call.send)
      modifies vendor
      ensures vendor.Valid() && old(vendor.history) <= vendor.history && Drifts(old(vendor.world), vendor.world)
      ensures e.RequestRefused? ==> r == Ok(Rejected(None)) && vendor.world == old(vendor.world)
      ensures r.Ok? && !e.RequestRefused? ==>
                && OutcomeHolds(vendor.world, vendor.world.call.send, request, r.value)
                && vendor.world.call.send !in vendor.world.inFlight
      ensures SendReported(request, settlement, Err(e), read, hint, r)
      ensures vendor.asked == old(vendor.asked) + AskedAfter(read, hint)
    {
      hide ClassifyFailure, Class, IsCredentialError, LandedAs, HoldsOurs, Landed;
      hide UncertaintyReported, DuplicateReported, HintAsked, IsEvidence;
      ClassifiedRefusals(e);
      ClassifiedUncertainty(request, e);
      EmptyDrift(vendor.world);
      read, hint := None, None;
      match ClassifyFailure(e)
      case Refusal(refusal) => r := Ok(Rejected(refusal));
      case CredentialRefusal(code) => r := Ok(CredentialsRejected(code));
      case Open(code) => r, read := SettleUnconfirmed(request, settlement, OpenAnswer(Some(code)));
      case Down => r, read := SettleUnconfirmed(request, settlement, VendorDown);
      case Lost => r, read := SettleUnconfirmed(request, settlement, LostTransport);
      case Duplicate(code) =>
        var o;
        ghost var reply;
        o, reply, hint := SettleDuplicate(request, settlement, code);
        read := Some(reply);
        r := Ok(o);
    }

    /** `create_send`. */
    method CreateSend(request: CreateStepRequest, settlement: CreateSettlement)
      returns (r: Result<CreateOutcome, Unconfirmed>, ghost x: Exchange)
      requires vendor.Valid() && vendor.world.call.Cleared? && vendor.world.call.request == request
      modifies vendor
      ensures vendor.Valid() && old(vendor.history) <= vendor.history
      ensures vendor.world.permissions == old(vendor.world).permissions
      ensures vendor.world.sends == old(vendor.world).sends + if x.sent then 1 else 0
      ensures x.sent <==> x.reply != Err(RequestRefused)
      ensures !x.sent ==> r == Ok(Rejected(None))
      ensures r.Ok? ==> vendor.world.call.Idle?
      ensures r.Err? ==> vendor.world.call.Outstanding? && vendor.world.call.send == old(vendor.world).sends
                         && vendor.world.call.request == request
      ensures x.sent && r.Ok? ==> OutcomeHolds(vendor.world, old(vendor.world).sends, request, r.value)
      ensures SendReported(request, settlement, x.reply, x.read, x.hint, r)
      ensures vendor.asked == old(vendor.asked) + AskedAfter(x.read, x.hint)
    {
      hide SendReported, LandedAs, HoldsOurs, Spent, AskedAfter;
      var answer;
      ghost var sent, read, hint;
      answer, sent := vendor.Send(request);
      if answer.Ok? {
        hint := None;
        r, read := SettleAcknowledged(request, settlement, answer.value);
      } else {
        r, read, hint := SettleFailure(request, settlement, answer.error);
      }
      x := Exchange(Err(TransportFailure), sent, answer, read, hint);
      if r.Ok? {
        if sent {
          OutcomeOutlivesCall(vendor.world, vendor.world.sends - 1, request, r.value);
        }
        vendor.Conclude();
      }
    }

    /** `create_inner`: the leading query, and at most one send. */
    method CreateInner(request: CreateStepRequest) returns (r: Result<CreateOutcome, Unconfirmed>, ghost x: Exchange)
      requires vendor.Valid() && vendor.world.call == Checking(request)
      modifies vendor
      ensures vendor.Valid() && old(vendor.history) <= vendor.history
      ensures vendor.world.permissions == old(vendor.world).permissions
      ensures CallHolds(vendor.world, old(vendor.world).sends, request, Immediate, x, r)
      ensures vendor.asked == old(vendor.asked) + [Asked(OwnId, x.lead)] + AskedAfter(x.read, x.hint)
    {
      hide LeadReported, SendReported, ReplyPermits, QueryResult, SettledByQuery;
      var answer;
      ghost var lead;
      answer, lead := vendor.Query();
      x := Exchange(lead, false, Err(RequestRefused), None, None);
      SendGuard(lead, request);
      LeadingOutcome(lead, request);
      var settled := SettledByQuery(answer, request, true);
      if settled.Ok? && settled.value.Some? {
        r := Ok(settled.value.value);
      } else if settled == Err(QueryNotFound) && request.reversed.Some? {
        r := Ok(TargetChanged);
      } else if settled.Ok? || settled == Err(QueryNotFound) {
        PermittedInWorld(lead, request, Newest(vendor.world.records));
        vendor.Advance(vendor.world.(call := Cleared(request, |vendor.world.records|)));
        r, x := CreateSend(request, Immediate);
        x := x.(lead := lead);
        return;
      } else if settled == Err(QueryTransport) {
        return Err(LostTransport), x;
      } else {
        r := Ok(LeadingFailure(settled.error));
      }
      vendor.Conclude();
    }

    /** `protected_create`: the same call for an order that keeps its own record of uncertainty. */
    method ProtectedCreate(request: CreateStepRequest)
      returns (r: Result<CreateOutcome, Unconfirmed>, ghost x: Exchange)
      requires vendor.Valid() && vendor.world.call == Checking(request)
      modifies vendor
      ensures vendor.Valid() && old(vendor.history) <= vendor.history
      ensures vendor.world.permissions == old(vendor.world).permissions
      ensures CallHolds(vendor.world, old(vendor.world).sends, request, Retained, x, r)
      ensures vendor.asked == old(vendor.asked) + [Asked(OwnId, x.lead)] + AskedAfter(x.read, x.hint)
    {
      hide LeadReported, SendReported, ReplyPermits, QueryResult, SettledByQuery;
      var answer;
      ghost var lead;
      answer, lead := vendor.Query();
      x := Exchange(lead, false, Err(RequestRefused), None, None);
      SendGuard(lead, request);
      LeadingOutcome(lead, request);
      var settled := SettledByQuery(answer, request, true);
      if settled.Ok? && settled.value.Some? {
        r := Ok(settled.value.value);
      } else if settled.Ok? || settled == Err(QueryNotFound) {
        PermittedInWorld(lead, request, Newest(vendor.world.records));
        vendor.Advance(vendor.world.(call := Cleared(request, |vendor.world.records|)));
        r, x := CreateSend(request, Retained);
        x := x.(lead := lead);
        return;
      } else if settled == Err(QueryTransport) {
        return Err(LostTransport), x;
      } else {
        r := Ok(LeadingFailure(settled.error));
      }
      vendor.Conclude();
    }

    /** `create_once`: one granted permission, consumed whatever comes of it. */
    method CreateOnce(request: CreateStepRequest, permission: CreatePermission)
      returns (r: Result<CreateOutcome, Unconfirmed>, ghost x: Exchange)
      requires vendor.Valid() && vendor.world.call.Idle? && RequestOf(vendor.world, request)
      requires !permission.spent
      modifies vendor, permission
      ensures permission.spent
      ensures vendor.Valid() && old(vendor.history) <= vendor.history
      ensures vendor.world.permissions == old(vendor.world).permissions + 1
      ensures CallHolds(vendor.world, old(vendor.world).sends, request, Immediate, x, r)
      ensures vendor.asked == old(vendor.asked) + [Asked(OwnId, x.lead)] + AskedAfter(x.read, x.hint)
    {
      permission.spent := true;
      vendor.Advance(vendor.world.(call := Checking(request), permissions := vendor.world.permissions + 1));
      r, x := CreateInner(request);
    }

    /** A caller settles an uncertain send by evidence, and only then is free to ask again. */
    method SettleByEvidence(request: CreateStepRequest) returns (found: Option<FoundDocument>, ghost read: Reply)
      requires vendor.Valid() && vendor.world.call.Outstanding? && vendor.world.call.request == request
      modifies vendor
      ensures vendor.Valid() && old(vendor.history) <= vendor.history
      ensures found.Some? <==> IsEvidence(request, read)
      ensures vendor.asked == old(vendor.asked) + [Asked(OwnId, read)]
      ensures found.Some? ==>
                && read == Ok(found.value) && vendor.world.call.Idle?
                && LandedAs(vendor.world, old(vendor.world).call.send, found.value)
      ensures found.None? ==> vendor.world.call == old(vendor.world).call
    {
      var r;
      r, read := Reconcile(request);
      if r.Ok? && r.value.Created? {
        vendor.Conclude();
        return Some(r.value.doc), read;
      }
      return None, read;
    }
  }

  /** A settled refusal stays one: in no continuation of the run does its send produce anything. */
  lemma RefusalIsFinal(earlier: seq<World>, later: seq<World>, send: nat)
    requires Legal(later) && 0 < |earlier| && earlier <= later
    requires Spent(earlier[|earlier| - 1], send)
    ensures forall n | |earlier| <= n < |later| :: Spent(later[n], send)
  {
    forall n | |earlier| <= n < |later|
      ensures Spent(later[n], send)
    {
      SpentForever(later, |earlier| - 1, n, send);
    }
  }

  lemma EmptyDrift(w: World)
    ensures Drifts(w, w)
  {
  }
}
