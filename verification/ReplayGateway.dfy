/**
 One execution of a replay-enabled create (`create_replay_enabled`), exchange by exchange, while any
 number of earlier sends of the operation may be unresolved.
 */
module ReplayGateway {
  import opened Wrappers
  import opened Documents
  import opened ErrorCodes
  import opened CreateProtocol
  import opened GatewayAnswers
  import opened ReplayProtocol
  import opened ReplayGuards
  import opened CreateGateway

  /** Why a write stays unresolved. */
  datatype Diagnostic =
    | UnsupportedIntent | HolderDoesNotPermit | HolderCredentials(code: ErrorCode) | HolderQueryFailed | GuardRefused
    | SendUncertain(cause: Unconfirmed) | SendRefused(refusal: Option<ErrorCode>) | SendCredentials(code: ErrorCode)
    | SendDuplicate(code: ErrorCode) | NotEstablished

  /** `WriteResult`, for a create: only positive evidence is written, everything else stays unresolved. */
  datatype WriteResult = WriteCreate(outcome: CreateOutcome) | Unresolved(why: Diagnostic)

  /** `replay_create_result`. */
  function ReplayCreateResult(r: Result<CreateOutcome, Unconfirmed>): WriteResult {
    match r
    case Ok(CredentialsRejected(code)) => Unresolved(SendCredentials(code))
    case Ok(Rejected(refusal)) => Unresolved(SendRefused(refusal))
    case Ok(DuplicateOrder(code, _)) => Unresolved(SendDuplicate(code))
    case Ok(o) => if SaysNothingCreated(o) then Unresolved(NotEstablished) else WriteCreate(o)
    case Err(cause) => Unresolved(SendUncertain(cause))
  }

  /** The holder check of a fresh execution: `None` lets the guards and the send follow. */
  function ReplayHolder(answer: Result<FoundDocument, QueryError>, request: CreateStepRequest): Option<WriteResult> {
    match SeenOf(answer, request.order, request.kind)
    case Ok(SeenAbsent) => if request.reversed.None? then None else Some(Unresolved(HolderDoesNotPermit))
    case Ok(SeenReversed(d)) => if request.reversed == Some(d.number) then None else Some(WriteCreate(Reversed(d)))
    case Ok(SeenLive(d)) =>
      Some(if request.reversed != Some(d.number) then WriteCreate(Found(d)) else Unresolved(HolderDoesNotPermit))
    case Ok(SeenCollision(_)) => Some(Unresolved(HolderDoesNotPermit))
    case Err(QueryCredentials(code)) => Some(Unresolved(HolderCredentials(code)))
    case Err(_) => Some(Unresolved(HolderQueryFailed))
  }

  /** Why the leading reply of an execution does not let it go on, when it is no evidence. */
  function HolderReason(reply: Reply): Diagnostic {
    if RejectsCredentials(reply) then HolderCredentials(reply.error.code)
    else if Shows(reply, None) || Misses(reply) then HolderDoesNotPermit
    else HolderQueryFailed
  }

  /** Why the reply to a send leaves its write unresolved, when no evidence was read. */
  function SendReason(request: CreateStepRequest, reply: Result<Creation, ClientError>): Diagnostic {
    match Uncertainty(request, reply)
    case Some(cause) => SendUncertain(cause)
    case None =>
      match reply
      case Err(ApiError(code)) =>
        if IsCredentialError(code) then SendCredentials(code)
        else if Class(code).ClassDuplicateOrderNumber? then SendDuplicate(code)
        else SendRefused(Some(code))
      case _ => SendRefused(None)
  }

  /** The kinds replay is enabled for; a corrective base is never retained with them. */
  predicate Supported(request: CreateStepRequest) {
    request.kind != Corrective && request.corrected.None?
  }

  /** The holder check lets a send follow under the one condition of the leading query, and else keeps evidence. */
  lemma ReplayHolderDecides(reply: Reply, request: CreateStepRequest)
    requires Supported(request)
    ensures var holder := ReplayHolder(QueryResult(reply, None), request);
            && (holder.None? <==> ReplyPermits(request, reply))
            && (holder.Some? ==>
                  holder.value == if IsEvidence(request, reply)
                                  then WriteCreate(EvidenceOutcome(reply.value)) else Unresolved(HolderReason(reply)))
            && (holder.None? ==> !IsEvidence(request, reply))
  {
    QueryResultMeans(reply, None);
    if reply.Ok? {
      MatchesMeans(request, reply.value);
    }
    hide QueryResult, Shows, Matches, FoundDocument.IsOurs;
  }

  /** How a holder found after a duplicate refusal is reported. */
  function DuplicateOutcome(d: FoundDocument): CreateOutcome {
    if d.reversed == Some(true) then Reversed(d) else Reconciled(d)
  }

  /** The third policy keeps a duplicate's diagnostic exactly when it read matching evidence. */
  lemma DuplicateEvidenceKept(request: CreateStepRequest, code: ErrorCode, read: Reply, hint: Option<Reply>,
                              o: CreateOutcome)
    requires DuplicateReported(RetainedWithDuplicateEvidence, request, code, read, hint, o)
    requires Supported(request)
    ensures ReplayCreateResult(Ok(o))
            == if IsEvidence(request, read) then WriteCreate(DuplicateOutcome(read.value))
               else Unresolved(SendDuplicate(code))
  {
    hide IsEvidence, Validated, Shows, Matches, NamesDuplicate;
  }

  // ---------------------------------------------------------------- the vendor

  /** What a reply says of the send it answers, whatever the earlier sends may still do. */
  predicate ReplayReplyTruthful(w: ReplayWorld, send: nat, reply: Result<Creation, ClientError>) {
    match reply
    case Ok(Numbered(number)) => w.request.reversed != Some(number) ==> HoldsOursNow(w, number)
    case Ok(Unnumbered) => true
    case Err(e) => Refused(e) ==> ReplaySpent(w, send)
  }

  /** Some send of the operation produced the document with this number. */
  predicate HoldsOursNow(w: ReplayWorld, number: string) {
    exists i | 0 <= i < |w.records| ::
      && w.records[i].doc.number == number && w.records[i].Ours(w.request.order, w.request.kind)
      && w.records[i].origin.Some?
  }

  /** A run that did not overlap so far does not overlap afterwards. */
  ghost predicate NoNewOverlap(before: seq<ReplayWorld>, after: seq<ReplayWorld>) {
    NoOverlapAfter(before, 0) ==> NoOverlapAfter(after, 0)
  }

  lemma OneStepWithoutOverlap(history: seq<ReplayWorld>, next: ReplayWorld)
    requires |history| > 0 && (Permitted(Last(history), next) ==> Last(history).inFlight == {})
    ensures NoNewOverlap(history, history + [next])
  {
    hide Permitted;
    var longer := history + [next];
    if NoOverlapAfter(history, 0) {
      forall i | 0 < i < |longer| && Permitted(longer[i - 1], longer[i])
        ensures longer[i - 1].inFlight == {}
      {
        assert i < |history| ==> longer[i - 1] == history[i - 1] && longer[i] == history[i];
      }
    }
  }

  function NumberAsked(selector: Selector): Option<string> {
    if selector.ByNumber? then Some(selector.number) else None
  }

  class ReplayVendor {
    var world: ReplayWorld
    ghost var history: seq<ReplayWorld>
    /** Every query made, oldest first. */
    ghost var asked: seq<Asked>

    ghost predicate Valid()
      reads this
    {
      ReplayLegal(history) && history[|history| - 1] == world && ReplayInv(world)
    }

    constructor (start: ReplayWorld)
      requires ReplayInit(start)
      ensures Valid() && world == start && history == [start] && asked == []
    {
      ReplayInitHasInv(start);
      world := start;
      history := [start];
      asked := [];
    }

    /** One step of the machine. */
    method Advance(next: ReplayWorld)
      requires Valid() && ReplayStep(world, next)
      modifies this
      ensures Valid() && world == next && history == old(history) + [next] && asked == old(asked)
      ensures (Permitted(old(world), next) ==> old(world).inFlight == {}) ==> NoNewOverlap(old(history), history)
    {
      hide ReplayInv, ReplayStep, ReplayInit, NoNewOverlap, Permitted;
      ReplayStepKeepsInv(world, next);
      if Permitted(world, next) ==> world.inFlight == {} {
        OneStepWithoutOverlap(history, next);
      }
      world := next;
      history := history + [next];
    }

    method Environment()
      requires Valid()
      modifies this
      ensures Valid() && old(history) <= history && ReplayDrifts(old(world), world)
      ensures NoNewOverlap(old(history), history) && asked == old(asked)
    {
      hide ReplayInv, ReplayLegal, ReplayEnvironment, ReplaySpent, ReplayClears, ReplaySends, NoOverlapAfter;
      var steps: nat := *;
      while steps > 0
        invariant Valid() && old(history) <= history && ReplayDrifts(old(world), world)
        invariant NoNewOverlap(old(history), history) && asked == old(asked)
      {
        var next: ReplayWorld := *;
        if ReplayEnvironment(world, next) {
          ReplayEnvironmentDrifts(world, next);
          Advance(next);
        }
        steps := steps - 1;
      }
    }

    /** The query by external id, for the holder check and for the diagnostic. */
    method Query() returns (answer: Result<FoundDocument, QueryError>, ghost reply: Reply)
      requires Valid()
      modifies this
      ensures Valid() && old(history) <= history && ReplayDrifts(old(world), world)
      ensures NoNewOverlap(old(history), history)
      ensures answer == QueryResult(reply, None) && QueryTruthful(Newest(world.records), reply)
      ensures asked == old(asked) + [Asked(OwnId, reply)]
    {
      Environment();
      var received: Reply := *;
      if !QueryTruthful(Newest(world.records), received) {
        received := Err(TransportFailure);
      }
      reply := received;
      asked := asked + [Asked(OwnId, received)];
      answer := QueryResult(received, None);
    }

    /** A read of the order's other documents, by external id, number or order; this model does not hold them. */
    method QueryOther(selector: Selector) returns (answer: Result<FoundDocument, QueryError>, ghost reply: Reply)
      requires Valid()
      modifies this
      ensures Valid() && old(history) <= history && ReplayDrifts(old(world), world)
      ensures NoNewOverlap(old(history), history)
      ensures answer == QueryResult(reply, NumberAsked(selector))
      ensures asked == old(asked) + [Asked(selector, reply)]
    {
      Environment();
      var received: Reply := *;
      reply := received;
      asked := asked + [Asked(selector, received)];
      answer := QueryResult(received, NumberAsked(selector));
    }

    /** The create exchange. A request the client itself refuses is never sent. */
    method Send() returns (reply: Result<Creation, ClientError>, ghost sent: bool)
      requires Valid() && world.cleared
      modifies this
      ensures Valid() && old(history) <= history && world.request == old(world).request
      ensures NoNewOverlap(old(history), history) && asked == old(asked)
      ensures sent <==> reply != Err(RequestRefused)
      ensures world.sends == old(world).sends + if sent then 1 else 0
      ensures sent ==> ReplayReplyTruthful(world, old(world).sends, reply)
    {
      hide ReplayInv, ReplayLegal, ReplayEnvironment, ReplaySpent, NoOverlapAfter;
      reply := *;
      if reply == Err(RequestRefused) {
        return reply, false;
      }
      Environment();
      Advance(world.(cleared := false, inFlight := world.inFlight + {world.sends}, sends := world.sends + 1));
      Environment();
      sent := true;
      if !ReplayReplyTruthful(world, world.sends - 1, reply) {
        reply := Err(TransportFailure);
      }
    }

    /** While no execution overlapped another's send, every moment in the history was safe. */
    lemma AlwaysOneLive()
      requires Valid() && NoOverlapAfter(history, 0)
      ensures forall n | 0 <= n < |history| :: OneLiveAtMost(history[n])
    {
      forall n | 0 <= n < |history|
        ensures OneLiveAtMost(history[n])
      {
        WithoutOverlapOneLive(history, n);
      }
    }
  }

  // ---------------------------------------------------------------- an execution

  /** What one execution read, asked and was told. */
  datatype Execution = Execution(
    lead: Option<Reply>,
    guards: GuardReads,
    /** The queries of the guards. */
    guardLog: seq<Asked>,
    /** The holder check and the guards let the send be made. */
    attempted: bool,
    /** It left the client. */
    sent: bool,
    reply: Result<Creation, ClientError>,
    /** The diagnostic and the order hint after a duplicate refusal. */
    read: Option<Reply>,
    hint: Option<Reply>)

  const NOTHING_READ: GuardReads := GuardReads(map[], None, None, None)

  /** What a written result says: a document of some send of the operation, never the old reissue target. */
  ghost predicate WrittenHolds(w: ReplayWorld, r: WriteResult) {
    r.WriteCreate? ==>
      && !SaysNothingCreated(r.outcome)
      && ReportedNumber(r.outcome).Some? && ReportedNumber(r.outcome) != w.request.reversed
      && (r.outcome.Issued? ==> HoldsOursNow(w, r.outcome.number))
      && (r.outcome.Found? || r.outcome.Reversed? || r.outcome.Reconciled? ==>
            && LandedBySome(w, r.outcome.doc) && Validated(w.request, Ok(r.outcome.doc))
            && (r.outcome.Reversed? <==> r.outcome.doc.reversed == Some(true)))
  }

  /** A refusal with a duplicate code. */
  predicate IsDuplicate(reply: Result<Creation, ClientError>) {
    reply.Err? && reply.error.ApiError? && Class(reply.error.code).ClassDuplicateOrderNumber?
  }

  /**
   What the reply of this execution's send leaves: its number, the evidence of an earlier send, or
   nothing settled.
   */
  ghost predicate ReplayReported(w: ReplayWorld, send: nat, reply: Result<Creation, ClientError>,
                                 read: Option<Reply>, r: WriteResult)
  {
    && (read.Some? <==> IsDuplicate(reply))
    && r == (if reply.Ok? && reply.value.Numbered? && w.request.reversed != Some(reply.value.number)
             then WriteCreate(Issued(reply.value.number))
             else if read.Some? && IsEvidence(w.request, read.value)
             then WriteCreate(DuplicateOutcome(read.value.value))
             else Unresolved(SendReason(w.request, reply)))
    // A refusal speaks of this send; evidence beside it is of an earlier one.
    && (reply.Err? && Refused(reply.error) ==>
          ReplaySpent(w, send) && (r.WriteCreate? ==> LandedBefore(w, send, read.value.value)))
  }

  /** Each reply about another kind answers a query by that kind's external id. */
  ghost predicate KindsAsked(log: seq<Asked>, kinds: map<IssuedKind, Reply>) {
    forall kind | kind in kinds :: Asked(IdOfKind(kind), kinds[kind]) in log
  }

  /** Each reply about a pinned document answers a query by the number the request names. */
  ghost predicate ReferencesAsked(request: CreateStepRequest, log: seq<Asked>, prepayment: Option<Reply>,
                                  proforma: Option<Reply>)
  {
    && (prepayment.Some? ==> Prepaid(request).Some? && Asked(ByNumber(Prepaid(request).value), prepayment.value) in log)
    && (proforma.Some? ==> Requested(request).Some? && Asked(ByNumber(Requested(request).value), proforma.value) in log)
  }

  ghost predicate GuardsAsked(request: CreateStepRequest, log: seq<Asked>, guards: GuardReads) {
    && KindsAsked(log, guards.kinds) && ReferencesAsked(request, log, guards.prepayment, guards.proforma)
    && (guards.hint.Some? ==> Asked(OfOrder, guards.hint.value) in log)
  }

  /** The holder check comes first, then the guards, then the reads after the send. */
  ghost predicate ExecutionAsked(request: CreateStepRequest, log: seq<Asked>, e: Execution) {
    if e.lead.None? then log == []
    else && GuardsAsked(request, e.guardLog, e.guards)
         && log == [Asked(OwnId, e.lead.value)] + e.guardLog + AskedAfter(e.read, e.hint)
  }

  /** Evidence the vendor shows is a document of some send, so it may be written. */
  lemma EvidenceIsWritten(w: ReplayWorld, lead: Reply)
    requires ReplayInv(w) && QueryTruthful(Newest(w.records), lead) && IsEvidence(w.request, lead)
    ensures WrittenHolds(w, WriteCreate(EvidenceOutcome(lead.value)))
  {
    MatchesMeans(w.request, lead.value);
    EvidenceNamesASend(w, lead.value);
  }

  lemma IssuedIsWritten(w: ReplayWorld, number: string)
    requires HoldsOursNow(w, number) && w.request.reversed != Some(number)
    ensures WrittenHolds(w, WriteCreate(Issued(number)))
  {
  }

  lemma DuplicateIsWritten(w: ReplayWorld, read: Reply)
    requires IsEvidence(w.request, read) && LandedBySome(w, read.value)
    ensures WrittenHolds(w, WriteCreate(DuplicateOutcome(read.value)))
  {
  }

  lemma NothingIsWritten(request: CreateStepRequest)
    ensures forall w, why :: WrittenHolds(w, Unresolved(why))
    ensures GuardsAsked(request, [], NOTHING_READ)
  {
  }

  class ReplayCalls {
    const vendor: ReplayVendor

    constructor (vendor: ReplayVendor)
      ensures this.vendor == vendor
    {
      this.vendor := vendor;
    }

    /** `after_duplicate` under the policy that keeps duplicate evidence; earlier sends may be unresolved. */
    method KeepDuplicateEvidence(code: ErrorCode)
      returns (o: CreateOutcome, ghost read: Reply, ghost hint: Option<Reply>)
      requires vendor.Valid() && Supported(vendor.world.request)
      requires vendor.world.sends > 0 && ReplaySpent(vendor.world, vendor.world.sends - 1)
      modifies vendor
      ensures vendor.Valid() && old(vendor.history) <= vendor.history && ReplayDrifts(old(vendor.world), vendor.world)
      ensures NoNewOverlap(old(vendor.history), vendor.history)
      ensures hint.Some? <==> HintAsked(vendor.world.request, read)
      ensures vendor.asked == old(vendor.asked) + AskedAfter(Some(read), hint)
      ensures DuplicateReported(RetainedWithDuplicateEvidence, vendor.world.request, code, read, hint, o)
      ensures IsEvidence(vendor.world.request, read) ==>
                && LandedBySome(vendor.world, read.value)
                && LandedBefore(vendor.world, vendor.world.sends - 1, read.value)
    {
      hide AfterDuplicate, KeepDiagnostic, SettledByQuery, ReplayInv, ReplaySpent, ReplayLegal, QueryResult;
      hide DuplicateReported, NothingHeld, NoOverlapAfter;
      ghost var request := vendor.world.request;
      var answer;
      answer, read := vendor.Query();
      if IsEvidence(request, read) {
        MatchesMeans(request, read.value);
        EvidenceNamesASend(vendor.world, read.value);
        EvidenceAfterRefusal(vendor.world, read.value);
      }
      DiagnosticQuery(read, request);
      hint := None;
      var hinted: Result<FoundDocument, QueryError> := Err(QueryTransport);
      if SettledByQuery(answer, vendor.world.request, false) == Ok(None) && vendor.world.request.kind != Corrective {
        ghost var reply;
        hinted, reply := vendor.QueryOther(OfOrder);
        hint := Some(reply);
      }
      DuplicateDecided(RetainedWithDuplicateEvidence, request, code, read, hint);
      o := KeepDiagnostic(RetainedWithDuplicateEvidence, AfterDuplicate(answer, hinted, vendor.world.request, code),
                          vendor.world.request, code);
    }

    /** `create_send` under that policy, and `replay_create_result`. */
    method SendAndSettle()
      returns (r: WriteResult, ghost sent: bool, ghost reply: Result<Creation, ClientError>,
               ghost read: Option<Reply>, ghost hint: Option<Reply>)
      requires vendor.Valid() && vendor.world.cleared && Supported(vendor.world.request)
      modifies vendor
      ensures vendor.Valid() && old(vendor.history) <= vendor.history
      ensures vendor.world.request == old(vendor.world).request && NoNewOverlap(old(vendor.history), vendor.history)
      ensures sent <==> reply != Err(RequestRefused)
      ensures vendor.world.sends == old(vendor.world).sends + if sent then 1 else 0
      ensures WrittenHolds(vendor.world, r)
      ensures vendor.asked == old(vendor.asked) + AskedAfter(read, hint)
      ensures sent ==> ReplayReported(vendor.world, old(vendor.world).sends, reply, read, r)
      ensures !sent ==> r == Unresolved(SendRefused(None))
    {
      hide ClassifyFailure, Class, IsCredentialError, ReplayInv, ReplayLegal, ReplaySpent, HoldsOursNow, LandedBySome;
      hide WrittenHolds, Validated;
      NothingIsWritten(vendor.world.request);
      hide LandedBefore, NoOverlapAfter, FoundDocument.IsOurs, FoundDocument.MatchesBase;
      var answer;
      answer, sent := vendor.Send();
      reply, read, hint := answer, None, None;
      ghost var request := vendor.world.request;
      if answer.Ok? {
        var creation := answer.value;
        if creation.Numbered? && vendor.world.request.reversed != Some(creation.number) {
          IssuedIsWritten(vendor.world, creation.number);
          return ReplayCreateResult(Ok(Issued(creation.number))), sent, reply, read, hint;
        }
        r := ReplayCreateResult(Err(if creation.Numbered? then ReissueEcho else OpenAnswer(None)));
        return;
      }
      ClassifiedRefusals(answer.error);
      ClassifiedUncertainty(request, answer.error);
      match ClassifyFailure(answer.error)
      case Refusal(refusal) => r := ReplayCreateResult(Ok(Rejected(refusal)));
      case CredentialRefusal(code) => r := ReplayCreateResult(Ok(CredentialsRejected(code)));
      case Open(code) => r := ReplayCreateResult(Err(OpenAnswer(Some(code))));
      case Down => r := ReplayCreateResult(Err(VendorDown));
      case Lost => r := ReplayCreateResult(Err(LostTransport));
      case Duplicate(code) =>
        var o;
        ghost var diagnostic;
        o, diagnostic, hint := KeepDuplicateEvidence(code);
        read := Some(diagnostic);
        DuplicateEvidenceKept(vendor.world.request, code, diagnostic, hint, o);
        if IsEvidence(vendor.world.request, diagnostic) {
          DuplicateIsWritten(vendor.world, diagnostic);
        }
        r := ReplayCreateResult(Ok(o));
    }

    /** `check_replay_create_kinds`: the external ids of the order's other kinds, one after another. */
    method CheckKinds() returns (ok: bool, ghost kinds: map<IssuedKind, Reply>)
      requires vendor.Valid() && Supported(vendor.world.request)
      modifies vendor
      ensures vendor.Valid() && old(vendor.history) <= vendor.history && ReplayDrifts(old(vendor.world), vendor.world)
      ensures NoNewOverlap(old(vendor.history), vendor.history)
      ensures old(vendor.asked) <= vendor.asked && KindsAsked(vendor.asked[|old(vendor.asked)|..], kinds)
      ensures ok <==> OtherKindsClear(vendor.world.request, kinds)
    {
      hide ReplayLegal, ReplaySpent, KindClear, KindGuard, GuardedKinds, NoOverlapAfter, QueryResult;
      var request := vendor.world.request;
      assert Admitted(request);
      hide ReplayInv;
      kinds := map[];
      EmptyReplayDrift(vendor.world);
      if Prepaid(request).Some? {
        NamesMean(request, Prepaid(request).value);
      }
      if request.kind == Final && Prepaid(request).None? {
        return false, kinds;
      }
      GuardedKindsAreTheOthers(request.kind);
      var guarded := GuardedKinds(request.kind);
      for i := 0 to 3
        invariant vendor.Valid() && old(vendor.history) <= vendor.history
        invariant ReplayDrifts(old(vendor.world), vendor.world) && NoNewOverlap(old(vendor.history), vendor.history)
        invariant old(vendor.asked) <= vendor.asked && KindsAsked(vendor.asked[|old(vendor.asked)|..], kinds)
        invariant forall j | 0 <= j < i :: guarded[j] in kinds && KindClear(request, guarded[j], kinds[guarded[j]])
      {
        var kind := guarded[i];
        assert kind in guarded;
        var answer;
        ghost var reply;
        ghost var before := vendor.asked[|old(vendor.asked)|..];
        answer, reply := vendor.QueryOther(IdOfKind(kind));
        assert vendor.asked[|old(vendor.asked)|..] == before + [Asked(IdOfKind(kind), reply)];
        kinds := kinds[kind := reply];
        KindGuardDecides(request, kind, reply);
        if !KindGuard(request, kind, OwnershipOf(answer, request.order, kind)) {
          assert !KindClear(request, kind, kinds[kind]);
          return false, kinds;
        }
      }
      forall kind | kind != request.kind && kind != Corrective
        ensures kind in kinds && KindClear(request, kind, kinds[kind])
      {
        assert kind in guarded;
      }
      ok := true;
    }

    /** `check_replay_create_references`: the pinned prepayment and the pinned proforma, by number. */
    method CheckReferences() returns (ok: bool, ghost prepayment: Option<Reply>, ghost proforma: Option<Reply>)
      requires vendor.Valid()
      modifies vendor
      ensures vendor.Valid() && old(vendor.history) <= vendor.history && ReplayDrifts(old(vendor.world), vendor.world)
      ensures NoNewOverlap(old(vendor.history), vendor.history)
      ensures old(vendor.asked) <= vendor.asked
      ensures ReferencesAsked(vendor.world.request, vendor.asked[|old(vendor.asked)|..], prepayment, proforma)
      ensures ok <==> ReferencesShown(vendor.world.request, prepayment, proforma)
    {
      hide ReplayLegal, ReplaySpent, ReplayInv, NoOverlapAfter, QueryResult, PrepaymentGuard, ProformaGuard, ShownLive;
      var request := vendor.world.request;
      prepayment, proforma := None, None;
      EmptyReplayDrift(vendor.world);
      if Prepaid(request).Some? {
        var answer;
        ghost var reply;
        answer, reply := vendor.QueryOther(ByNumber(Prepaid(request).value));
        prepayment := Some(reply);
        NamesMean(request, Prepaid(request).value);
        OtherGuardsDecide(request, Prepaid(request).value, reply);
        if !PrepaymentGuard(request, answer) {
          return false, prepayment, proforma;
        }
      }
      if Requested(request).Some? {
        var answer;
        ghost var reply;
        ghost var before := vendor.asked[|old(vendor.asked)|..];
        answer, reply := vendor.QueryOther(ByNumber(Requested(request).value));
        assert vendor.asked[|old(vendor.asked)|..] == before + [Asked(ByNumber(Requested(request).value), reply)];
        proforma := Some(reply);
        NamesMean(request, Requested(request).value);
        OtherGuardsDecide(request, Requested(request).value, reply);
        if !ProformaGuard(request, answer) {
          return false, prepayment, proforma;
        }
      }
      ok := true;
    }

    /** The guards in their order, each only when the one before let pass. */
    method Guards() returns (ok: bool, ghost guards: GuardReads)
      requires vendor.Valid() && Supported(vendor.world.request)
      modifies vendor
      ensures vendor.Valid() && old(vendor.history) <= vendor.history && ReplayDrifts(old(vendor.world), vendor.world)
      ensures NoNewOverlap(old(vendor.history), vendor.history)
      ensures old(vendor.asked) <= vendor.asked
      ensures GuardsAsked(vendor.world.request, vendor.asked[|old(vendor.asked)|..], guards)
      ensures ok <==> NothingCompetes(vendor.world.request, guards)
    {
      hide ReplayLegal, ReplaySpent, ReplayInv, NoOverlapAfter, OtherKindsClear, ReferencesShown, QueryResult;
      ghost var kinds, prepayment, proforma, reply;
      guards := NOTHING_READ;
      ghost var n := |vendor.asked|;
      ok, kinds := CheckKinds();
      guards := guards.(kinds := kinds);
      ghost var first := vendor.asked[n..];
      if !ok {
        return;
      }
      ok, prepayment, proforma := CheckReferences();
      guards := guards.(prepayment := prepayment, proforma := proforma);
      ghost var second := vendor.asked[n + |first|..];
      assert vendor.asked[n..] == first + second;
      if !ok {
        return;
      }
      var hint;
      hint, reply := vendor.QueryOther(OfOrder);
      assert vendor.asked[n..] == first + second + [Asked(OfOrder, reply)];
      guards := guards.(hint := Some(reply));
      OtherGuardsDecide(vendor.world.request, "", reply);
      ok := HintGuard(vendor.world.request, hint);
    }

    /**
     `create_replay_enabled`: the fresh holder check, the guards, and at most one more send. Only a document
     of some send of the operation is ever written; a refusal settles nothing but its own send. An
     execution that starts with nothing unresolved overlaps nothing.
     */
    method CreateReplayEnabled() returns (r: WriteResult, ghost e: Execution)
      requires vendor.Valid()
      modifies vendor
      ensures vendor.Valid() && old(vendor.history) <= vendor.history
      ensures var request := vendor.world.request;
              && request == old(vendor.world).request
              && (e.lead.Some? <==> Supported(request))
              && (e.attempted <==>
                    e.lead.Some? && ReplyPermits(request, e.lead.value) && NothingCompetes(request, e.guards))
              && (!e.sent ==>
                    r == if e.lead.None? then Unresolved(UnsupportedIntent)
                         else if IsEvidence(request, e.lead.value) then WriteCreate(EvidenceOutcome(e.lead.value.value))
                         else if !ReplyPermits(request, e.lead.value) then Unresolved(HolderReason(e.lead.value))
                         else Unresolved(if e.attempted then SendRefused(None) else GuardRefused))
      ensures old(vendor.asked) <= vendor.asked
      ensures ExecutionAsked(vendor.world.request, vendor.asked[|old(vendor.asked)|..], e)
      ensures e.sent <==> e.attempted && e.reply != Err(RequestRefused)
      ensures vendor.world.sends == old(vendor.world).sends + if e.sent then 1 else 0
      ensures WrittenHolds(vendor.world, r)
      ensures e.sent ==> ReplayReported(vendor.world, old(vendor.world).sends, e.reply, e.read, r)
      ensures old(vendor.world).inFlight == {} ==> NoNewOverlap(old(vendor.history), vendor.history)
    {
      hide ReplayInv, ReplayLegal, ReplaySpent, ReplayReported, ReplayHolder, ReplyPermits, NothingCompetes;
      hide NoOverlapAfter, QueryResult, GuardsAsked, WrittenHolds, IsEvidence, QueryTruthful;
      NothingIsWritten(vendor.world.request);
      e := Execution(None, NOTHING_READ, [], false, false, Err(TransportFailure), None, None);
      if !(vendor.world.request.kind != Corrective && vendor.world.request.corrected.None?) {
        return Unresolved(UnsupportedIntent), e;
      }
      var answer;
      ghost var lead;
      answer, lead := vendor.Query();
      e := e.(lead := Some(lead));
      var holder := ReplayHolder(answer, vendor.world.request);
      ReplayHolderDecides(lead, vendor.world.request);
      if holder.Some? {
        r := holder.value;
        if r.WriteCreate? {
          EvidenceIsWritten(vendor.world, lead);
        }
        return;
      }
      PermittedInWorld(lead, vendor.world.request, Newest(vendor.world.records));
      PermitsNow(vendor.world);
      vendor.Advance(vendor.world.(cleared := true));
      var ok;
      ghost var guards;
      ghost var n := |vendor.asked|;
      ok, guards := Guards();
      e := e.(guards := guards, guardLog := vendor.asked[n..]);
      if !ok {
        return Unresolved(GuardRefused), e;
      }
      ghost var sent, reply, read, hint;
      r, sent, reply, read, hint := SendAndSettle();
      e := e.(attempted := true, sent := sent, reply := reply, read := read, hint := hint);
    }
  }

  lemma EmptyReplayDrift(w: ReplayWorld)
    ensures ReplayDrifts(w, w)
  {
  }

  lemma PermitsNow(w: ReplayWorld)
    requires LeadingPermits(Newest(w.records), w.request)
    ensures ReplayClears(w, w.(cleared := true))
  {
  }
}
