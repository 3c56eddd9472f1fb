/**
 The one-send issuing protocol as a state machine: the vendor's documents under one external id, the
 sends it may still act on, and the calls of one caller who follows the grant rule. Every step of the
 environment, the gateway and the caller is a step of this machine, in any order.
 */
module CreateProtocol {
  import opened Wrappers
  import opened Documents

  /** A document the vendor holds under the external id, and the send it came from, if one of ours. */
  datatype Record = Record(doc: FoundDocument, removed: bool, origin: Option<nat>)
  {
    predicate Ours(order: string, kind: IssuedKind) {
      doc.IsOurs(order, kind)
    }

    predicate Live() {
      !removed && doc.IsLive()
    }
  }

  /** Where the caller's one call stands. */
  datatype Call =
    | Idle
    /** Permission consumed; the leading query has not let anything through. */
    | Checking(request: CreateStepRequest)
    /** The leading query let the send proceed when `seen` documents had landed. */
    | Cleared(request: CreateStepRequest, seen: nat)
    /** Sent, and not settled. */
    | Outstanding(request: CreateStepRequest, seen: nat, send: nat)

  datatype World = World(
    externalId: string,
    order: string,
    kind: IssuedKind,
    /** Everything ever landed under the external id, oldest first. */
    records: seq<Record>,
    /** The sends the vendor may still act on, arbitrarily late. */
    inFlight: map<nat, CreateStepRequest>,
    sends: nat,
    permissions: nat,
    call: Call)

  /** The newest holder of the external id: what a query by it answers. */
  function Newest(records: seq<Record>): (r: Option<FoundDocument>) {
    if records == [] then None
    else
      var last := records[|records| - 1];
      if last.removed then Newest(records[..|records| - 1]) else Some(last.doc)
  }

  predicate NumberIsFresh(records: seq<Record>, number: string) {
    forall i | 0 <= i < |records| :: records[i].doc.number != number
  }

  /** The one condition under which a call may send: nothing there, or exactly the expected reversal. */
  predicate LeadingPermits(newest: Option<FoundDocument>, request: CreateStepRequest) {
    match newest
    case None => request.reversed.None?
    case Some(d) =>
      && d.IsOurs(request.order, request.kind) && d.MatchesBase(request.kind, request.corrected)
      && !d.IsLive() && request.reversed == Some(d.number)
  }

  /** A request of the business operation this external id belongs to. */
  predicate RequestOf(w: World, request: CreateStepRequest) {
    Admitted(request) && request.externalId == w.externalId && request.order == w.order && request.kind == w.kind
  }

  // ---------------------------------------------------------------- the vendor and the world around it

  /** Anyone reverses a document; a reversal is permanent. */
  predicate ReversesOne(before: seq<Record>, after: seq<Record>) {
    exists i | 0 <= i < |before| ::
      !before[i].removed && after == before[i := before[i].(doc := before[i].doc.(reversed := Some(true)))]
  }

  /** A live document disappears, as a deleted or consumed proforma does. */
  predicate RemovesOne(before: seq<Record>, after: seq<Record>) {
    exists i | 0 <= i < |before| :: before[i].Live() && after == before[i := before[i].(removed := true)]
  }

  /** Somebody else's document takes the external id, which the vendor does not keep unique. */
  predicate AddsForeign(before: seq<Record>, after: seq<Record>, order: string, kind: IssuedKind) {
    && |after| > 0
    && var r := after[|after| - 1];
       && after == before + [r] && r == Record(r.doc, false, None)
       && !r.doc.IsOurs(order, kind) && NumberIsFresh(before, r.doc.number)
  }

  /** The document of a send takes the external id. */
  predicate AddsIssued(before: seq<Record>, after: seq<Record>, create: CreateInvoice, send: nat) {
    && |after| > 0
    && var r := after[|after| - 1];
       && after == before + [r] && r == Record(r.doc, false, Some(send))
       && Issues(create, r.doc) && NumberIsFresh(before, r.doc.number)
  }

  predicate Reverses(w: World, w': World) {
    ReversesOne(w.records, w'.records) && w' == w.(records := w'.records)
  }

  predicate Removes(w: World, w': World) {
    RemovesOne(w.records, w'.records) && w' == w.(records := w'.records)
  }

  predicate Intrudes(w: World, w': World) {
    AddsForeign(w.records, w'.records, w.order, w.kind) && w' == w.(records := w'.records)
  }

  /** The vendor acts on a send, now or long after; its document takes the external id the send carried. */
  predicate Lands(w: World, w': World) {
    exists s | s in w.inFlight ::
      && w.inFlight[s].create.externalId == Some(w.externalId)
      && AddsIssued(w.records, w'.records, w.inFlight[s].create, s)
      && w' == w.(records := w'.records, inFlight := w.inFlight - {s})
  }

  /** The vendor will never act on a send. */
  predicate Drops(w: World, w': World) {
    exists s | s in w.inFlight :: w' == w.(inFlight := w.inFlight - {s})
  }

  predicate EnvironmentStep(w: World, w': World) {
    w' == w || Reverses(w, w') || Removes(w, w') || Intrudes(w, w') || Lands(w, w') || Drops(w, w')
  }

  /** Nothing restrains the environment but the assumptions: any holder, any foreign document, any send, at any time. */
  lemma EnvironmentIsFree(w: World, i: nat, d: FoundDocument, send: nat)
    ensures i < |w.records| && !w.records[i].removed ==>
              var reversed := w.records[i].(doc := w.records[i].doc.(reversed := Some(true)));
              EnvironmentStep(w, w.(records := w.records[i := reversed]))
    ensures i < |w.records| && w.records[i].Live() ==>
              EnvironmentStep(w, w.(records := w.records[i := w.records[i].(removed := true)]))
    ensures NumberIsFresh(w.records, d.number) && !d.IsOurs(w.order, w.kind) ==>
              EnvironmentStep(w, w.(records := w.records + [Record(d, false, None)]))
    ensures send in w.inFlight ==> EnvironmentStep(w, w.(inFlight := w.inFlight - {send}))
    ensures NumberIsFresh(w.records, d.number) && send in w.inFlight && Issues(w.inFlight[send].create, d)
            && w.inFlight[send].create.externalId == Some(w.externalId) ==>
              EnvironmentStep(w, w.(records := w.records + [Record(d, false, Some(send))],
                                    inFlight := w.inFlight - {send}))
  {
    var landed := w.records + [Record(d, false, Some(send))];
    if NumberIsFresh(w.records, d.number) && send in w.inFlight && Issues(w.inFlight[send].create, d) {
      assert AddsIssued(w.records, landed, w.inFlight[send].create, send);
    }
  }

  // ---------------------------------------------------------------- the caller and the gateway

  /** A permission is granted and consumed only while no earlier send is unresolved. */
  predicate Grants(w: World, w': World) {
    && w.call.Idle? && w'.call.Checking? && RequestOf(w, w'.call.request)
    && w' == w.(call := w'.call, permissions := w.permissions + 1)
  }

  /** The leading query, answered now, lets the send proceed. */
  predicate Clears(w: World, w': World) {
    && w.call.Checking? && LeadingPermits(Newest(w.records), w.call.request)
    && w' == w.(call := Cleared(w.call.request, |w.records|))
  }

  predicate Sends(w: World, w': World) {
    && w.call.Cleared?
    && w' == w.(call := Outstanding(w.call.request, w.call.seen, w.sends),
                inFlight := w.inFlight[w.sends := w.call.request],
                sends := w.sends + 1)
  }

  /** A call ends without a send, or a sent one is settled: the vendor cannot act on it any more. */
  predicate Concludes(w: World, w': World) {
    && !w.call.Idle? && (w.call.Outstanding? ==> w.call.send !in w.inFlight)
    && w' == w.(call := Idle)
  }

  predicate Step(w: World, w': World) {
    EnvironmentStep(w, w') || Grants(w, w') || Clears(w, w') || Sends(w, w') || Concludes(w, w')
  }

  /** Before the first call: earlier documents may be there, at most the last of ours live. */
  predicate Init(w: World) {
    && w.inFlight == map[] && w.sends == 0 && w.permissions == 0 && w.call.Idle?
    && RecordsInv(w.records, w.order, w.kind)
    && forall i | 0 <= i < |w.records| :: w.records[i].origin.None?
  }

  /** A run: a legal start and one step after another. */
  ghost predicate Legal(history: seq<World>) {
    && |history| > 0 && Init(history[0])
    && forall i | 0 < i < |history| :: Step(history[i - 1], history[i])
  }

  // ---------------------------------------------------------------- what every reachable world keeps

  predicate NumbersUnique(records: seq<Record>) {
    forall i, j | 0 <= i < j < |records| :: records[i].doc.number != records[j].doc.number
  }

  /** Of our documents only the last landed can be live. */
  predicate OnlyLastLive(records: seq<Record>, order: string, kind: IssuedKind) {
    forall i, j | 0 <= i < j < |records| ::
      records[i].Ours(order, kind) && records[j].Ours(order, kind) ==> !records[i].Live()
  }

  /** A reversed document is never removed. */
  predicate OnlyLiveRemoved(records: seq<Record>) {
    forall i | 0 <= i < |records| :: records[i].removed ==> records[i].doc.IsLive()
  }

  predicate RecordsInv(records: seq<Record>, order: string, kind: IssuedKind) {
    NumbersUnique(records) && OnlyLastLive(records, order, kind) && OnlyLiveRemoved(records)
  }

  /** The sends that produced a document. */
  function CountLanded(records: seq<Record>): nat {
    if records == [] then 0
    else CountLanded(records[..|records| - 1]) + if records[|records| - 1].origin.Some? then 1 else 0
  }

  predicate Landed(records: seq<Record>, send: nat) {
    exists i | 0 <= i < |records| :: records[i].origin == Some(send)
  }

  /** The send was made, produced nothing, and never will. */
  predicate Spent(w: World, send: nat) {
    send < w.sends && send !in w.inFlight && !Landed(w.records, send)
  }

  /** What the leading query saw still anchors the documents below `seen`. */
  predicate Anchored(records: seq<Record>, request: CreateStepRequest, seen: nat) {
    && seen <= |records|
    && match request.reversed
       case None => forall i | 0 <= i < seen :: records[i].removed
       case Some(number) => exists e | 0 <= e < seen :: AnchoredAt(records, request, number, seen, e)
  }

  predicate AnchoredAt(records: seq<Record>, request: CreateStepRequest, number: string, seen: nat, e: nat)
    requires e < seen <= |records|
  {
    && records[e].doc.number == number && records[e].Ours(request.order, request.kind)
    && !records[e].removed && !records[e].doc.IsLive()
    && forall i | e < i < seen :: records[i].removed
  }

  /** The documents of ours that landed after the leading query all come from `send`, if from any. */
  predicate LaterOursFrom(records: seq<Record>, request: CreateStepRequest, seen: nat, send: Option<nat>) {
    forall i | seen <= i < |records| ::
      records[i].Ours(request.order, request.kind) ==> send.Some? && records[i].origin == send
  }

  predicate CallConsistent(w: World) {
    match w.call
    case Idle => w.inFlight == map[]
    case Checking(request) => w.inFlight == map[] && RequestOf(w, request)
    case Cleared(request, seen) =>
      && w.inFlight == map[] && RequestOf(w, request)
      && Anchored(w.records, request, seen) && LaterOursFrom(w.records, request, seen, None)
    case Outstanding(request, seen, send) =>
      && RequestOf(w, request) && send < w.sends
      && Anchored(w.records, request, seen) && LaterOursFrom(w.records, request, seen, Some(send))
      && (w.inFlight == map[] || (w.inFlight == map[send := request] && !Landed(w.records, send)))
  }

  predicate Inv(w: World) {
    && RecordsInv(w.records, w.order, w.kind) && CallConsistent(w)
    && (forall i | 0 <= i < |w.records| :: w.records[i].origin.Some? ==> w.records[i].origin.value < w.sends)
    && |w.inFlight| + CountLanded(w.records) <= w.sends
    && w.sends + (if w.call.Checking? || w.call.Cleared? then 1 else 0) <= w.permissions
  }

  predicate LiveOursAt(w: World, i: nat)
    requires i < |w.records|
  {
    w.records[i].Ours(w.order, w.kind) && w.records[i].Live()
  }

  predicate AtMostOneLive(w: World) {
    forall i, j | 0 <= i < |w.records| && 0 <= j < |w.records| :: LiveOursAt(w, i) && LiveOursAt(w, j) ==> i == j
  }

  /** At no moment two live documents of ours, and no more effects than permissions. */
  predicate Safe(w: World) {
    && AtMostOneLive(w)
    && |w.inFlight| + CountLanded(w.records) <= w.sends <= w.permissions
  }

  /** A run may start with nothing held, for any business operation. */
  lemma EmptyStart(externalId: string, order: string, kind: IssuedKind)
    ensures Init(World(externalId, order, kind, [], map[], 0, 0, Idle))
  {
  }

  lemma InitHasInv(w: World)
    requires Init(w)
    ensures Inv(w)
  {
    NoneLanded(w.records);
  }

  lemma {:induction false} NoneLanded(records: seq<Record>)
    requires forall i | 0 <= i < |records| :: records[i].origin.None?
    ensures CountLanded(records) == 0
  {
    if records == [] {
    } else {
      NoneLanded(records[..|records| - 1]);
    }
  }

  lemma CountAppend(records: seq<Record>, r: Record)
    ensures CountLanded(records + [r]) == CountLanded(records) + if r.origin.Some? then 1 else 0
  {
    assert (records + [r])[..|records|] == records;
  }

  lemma {:induction false} CountUpdate(records: seq<Record>, i: nat, r: Record)
    requires i < |records| && r.origin == records[i].origin
    ensures CountLanded(records[i := r]) == CountLanded(records)
  {
    var n := |records| - 1;
    if i < n {
      CountUpdate(records[..n], i, r);
      assert records[i := r][..n] == records[..n][i := r];
    } else {
      assert records[i := r][..n] == records[..n];
    }
  }

  /** An update that keeps who a document is, and never revives or restores it. */
  predicate Ages(records: seq<Record>, records': seq<Record>) {
    && |records| == |records'|
    && forall i | 0 <= i < |records| ::
         && records'[i].doc == records[i].doc.(reversed := records'[i].doc.reversed)
         && records'[i].origin == records[i].origin
         && (records[i].removed ==> records'[i] == records[i])
         && (!records[i].doc.IsLive() ==> !records'[i].doc.IsLive() && records'[i].removed == records[i].removed)
         && (records'[i].removed ==> records'[i].doc.IsLive())
  }

  lemma AgingKeepsRecords(records: seq<Record>, records': seq<Record>, order: string, kind: IssuedKind)
    requires RecordsInv(records, order, kind) && Ages(records, records')
    ensures RecordsInv(records', order, kind)
  {
    assert forall i | 0 <= i < |records| :: records'[i].Ours(order, kind) == records[i].Ours(order, kind);
    assert forall i | 0 <= i < |records| :: records'[i].Live() ==> records[i].Live();
  }

  lemma AgingKeepsAnchor(records: seq<Record>, records': seq<Record>, request: CreateStepRequest, seen: nat)
    requires Anchored(records, request, seen) && Ages(records, records')
    ensures Anchored(records', request, seen)
  {
    if request.reversed.Some? {
      var e :| 0 <= e < seen && AnchoredAt(records, request, request.reversed.value, seen, e);
      assert AnchoredAt(records', request, request.reversed.value, seen, e);
    }
  }

  lemma AgingKeepsOrigins(records: seq<Record>, records': seq<Record>, request: CreateStepRequest, seen: nat,
                          send: Option<nat>)
    requires LaterOursFrom(records, request, seen, send) && Ages(records, records')
    ensures LaterOursFrom(records', request, seen, send)
    ensures forall s: nat :: Landed(records', s) ==> Landed(records, s)
  {
    forall i | seen <= i < |records'|
      ensures records'[i].Ours(request.order, request.kind) ==> send.Some? && records'[i].origin == send
    {
      assert records'[i].Ours(request.order, request.kind) == records[i].Ours(request.order, request.kind);
    }
  }

  lemma AgingKeepsInv(w: World, w': World)
    requires Inv(w) && w' == w.(records := w'.records)
    requires Ages(w.records, w'.records) && CountLanded(w'.records) == CountLanded(w.records)
    ensures Inv(w')
  {
    hide OnlyLastLive, NumbersUnique, Anchored, LaterOursFrom, CountLanded, RecordsInv, Landed;
    AgingKeepsRecords(w.records, w'.records, w.order, w.kind);
    if w.call.Cleared? {
      AgingKeepsAnchor(w.records, w'.records, w.call.request, w.call.seen);
      AgingKeepsOrigins(w.records, w'.records, w.call.request, w.call.seen, None);
    } else if w.call.Outstanding? {
      AgingKeepsAnchor(w.records, w'.records, w.call.request, w.call.seen);
      AgingKeepsOrigins(w.records, w'.records, w.call.request, w.call.seen, Some(w.call.send));
    }
  }

  lemma ReversesKeepsInv(w: World, w': World)
    requires Inv(w) && Reverses(w, w')
    ensures Inv(w')
  {
    ReversalAges(w.records, w'.records);
    hide Inv, Ages, CountLanded, ReversesOne;
    AgingKeepsInv(w, w');
  }

  lemma ReversalAges(before: seq<Record>, after: seq<Record>)
    requires OnlyLiveRemoved(before) && ReversesOne(before, after)
    ensures Ages(before, after) && CountLanded(after) == CountLanded(before)
  {
    var i :| 0 <= i < |before| && !before[i].removed
             && after == before[i := before[i].(doc := before[i].doc.(reversed := Some(true)))];
    CountUpdate(before, i, after[i]);
  }

  lemma RemovesKeepsInv(w: World, w': World)
    requires Inv(w) && Removes(w, w')
    ensures Inv(w')
  {
    RemovalAges(w.records, w'.records);
    hide Inv, Ages, CountLanded, RemovesOne;
    AgingKeepsInv(w, w');
  }

  lemma RemovalAges(before: seq<Record>, after: seq<Record>)
    requires OnlyLiveRemoved(before) && RemovesOne(before, after)
    ensures Ages(before, after) && CountLanded(after) == CountLanded(before)
  {
    var i :| 0 <= i < |before| && before[i].Live() && after == before[i := before[i].(removed := true)];
    CountUpdate(before, i, after[i]);
  }

  lemma AppendKeepsRecords(records: seq<Record>, r: Record, order: string, kind: IssuedKind)
    requires RecordsInv(records, order, kind) && NumberIsFresh(records, r.doc.number) && !r.removed
    requires r.Ours(order, kind) ==>
               forall i | 0 <= i < |records| :: records[i].Ours(order, kind) ==> !records[i].Live()
    ensures RecordsInv(records + [r], order, kind)
  {
  }

  lemma AppendKeepsAnchor(records: seq<Record>, r: Record, request: CreateStepRequest, seen: nat)
    requires Anchored(records, request, seen)
    ensures Anchored(records + [r], request, seen)
  {
    if request.reversed.Some? {
      var e :| 0 <= e < seen && AnchoredAt(records, request, request.reversed.value, seen, e);
      assert AnchoredAt(records + [r], request, request.reversed.value, seen, e);
    }
  }

  lemma AppendKeepsOrigins(records: seq<Record>, r: Record, request: CreateStepRequest, seen: nat, send: Option<nat>)
    requires LaterOursFrom(records, request, seen, send)
    requires r.Ours(request.order, request.kind) ==> send.Some? && r.origin == send
    ensures LaterOursFrom(records + [r], request, seen, send)
    ensures forall s: nat :: Landed(records + [r], s) <==> Landed(records, s) || r.origin == Some(s)
  {
    forall s: nat
      ensures Landed(records + [r], s) <==> Landed(records, s) || r.origin == Some(s)
    {
      assert (records + [r])[|records|] == r;
      if Landed(records, s) {
        var i :| 0 <= i < |records| && records[i].origin == Some(s);
        assert (records + [r])[i].origin == Some(s);
      }
    }
  }

  lemma IntrudesKeepsInv(w: World, w': World)
    requires Inv(w) && Intrudes(w, w')
    ensures Inv(w')
  {
    var r := w'.records[|w'.records| - 1];
    assert w'.records == w.records + [r] && r.origin.None?;
    CountAppend(w.records, r);
    AppendKeepsRecords(w.records, r, w.order, w.kind);
    hide AddsForeign, FoundDocument.IsOurs, Admitted;
    hide OnlyLastLive, NumbersUnique, Anchored, LaterOursFrom, CountLanded, RecordsInv, Landed, NumberIsFresh;
    if w.call.Cleared? {
      AppendKeepsAnchor(w.records, r, w.call.request, w.call.seen);
      AppendKeepsOrigins(w.records, r, w.call.request, w.call.seen, None);
    } else if w.call.Outstanding? {
      AppendKeepsAnchor(w.records, r, w.call.request, w.call.seen);
      AppendKeepsOrigins(w.records, r, w.call.request, w.call.seen, Some(w.call.send));
    }
  }

  /** A send in flight has no live document of ours to collide with when it lands. */
  lemma NothingLiveBeforeLanding(records: seq<Record>, request: CreateStepRequest, seen: nat, send: nat)
    requires OnlyLastLive(records, request.order, request.kind) && Anchored(records, request, seen)
    requires LaterOursFrom(records, request, seen, Some(send)) && !Landed(records, send)
    ensures forall i | 0 <= i < |records| :: records[i].Ours(request.order, request.kind) ==> !records[i].Live()
  {
    if request.reversed.Some? {
      var e :| 0 <= e < seen && AnchoredAt(records, request, request.reversed.value, seen, e);
    }
  }

  lemma LandsKeepsInv(w: World, w': World)
    requires Inv(w) && Lands(w, w')
    ensures Inv(w')
  {
    var r := w'.records[|w'.records| - 1];
    var request, seen, send := w.call.request, w.call.seen, w.call.send;
    assert w.inFlight == map[send := request];
    CountAppend(w.records, r);
    AdmittedMeansIssuedIsEvidence(request, r.doc);
    NothingLiveBeforeLanding(w.records, request, seen, send);
    AppendKeepsRecords(w.records, r, w.order, w.kind);
    hide OnlyLastLive, NumbersUnique, Anchored, LaterOursFrom, CountLanded, RecordsInv, Landed, NumberIsFresh;
    AppendKeepsAnchor(w.records, r, request, seen);
    AppendKeepsOrigins(w.records, r, request, seen, Some(send));
    assert w'.inFlight == map[] && |w.inFlight| == 1;
  }

  lemma DropsKeepsInv(w: World, w': World)
    requires Inv(w) && Drops(w, w')
    ensures Inv(w')
  {
    hide OnlyLastLive, NumbersUnique, Anchored, LaterOursFrom, CountLanded, RecordsInv, Landed;
    assert w'.inFlight == map[] && |w'.inFlight| <= |w.inFlight|;
  }

  lemma ClearsKeepsInv(w: World, w': World)
    requires Inv(w) && Clears(w, w')
    ensures Inv(w')
  {
    LeadAnchors(w.records, w.call.request);
    hide OnlyLastLive, NumbersUnique, CountLanded, RecordsInv, Anchored;
  }

  /** What permits a send anchors every document landed until then. */
  lemma LeadAnchors(records: seq<Record>, request: CreateStepRequest)
    requires LeadingPermits(Newest(records), request)
    ensures Anchored(records, request, |records|)
  {
    var e := NewestIndex(records);
    if e.Some? {
      assert AnchoredAt(records, request, request.reversed.value, |records|, e.value);
    }
  }

  /** Where the newest holder stands: everything after it has been removed. */
  lemma {:induction false} NewestIndex(records: seq<Record>) returns (e: Option<nat>)
    ensures Newest(records).Some? <==> e.Some?
    ensures e.Some? ==>
              && e.value < |records| && !records[e.value].removed && Newest(records) == Some(records[e.value].doc)
              && forall i | e.value < i < |records| :: records[i].removed
    ensures e.None? ==> forall i | 0 <= i < |records| :: records[i].removed
  {
    if records == [] {
      e := None;
    } else if records[|records| - 1].removed {
      e := NewestIndex(records[..|records| - 1]);
      assert forall i | 0 <= i < |records| - 1 :: records[..|records| - 1][i] == records[i];
    } else {
      e := Some(|records| - 1);
    }
  }

  lemma SendsKeepsInv(w: World, w': World)
    requires Inv(w) && Sends(w, w')
    ensures Inv(w')
  {
    assert !Landed(w.records, w.sends);
    assert LaterOursFrom(w.records, w.call.request, w.call.seen, Some(w.sends));
    hide OnlyLastLive, NumbersUnique, Anchored, LaterOursFrom, CountLanded, RecordsInv, Landed;
    assert w'.inFlight == map[w.sends := w.call.request];
  }

  lemma ConcludesKeepsInv(w: World, w': World)
    requires Inv(w) && Concludes(w, w')
    ensures Inv(w')
  {
    hide OnlyLastLive, NumbersUnique, Anchored, LaterOursFrom, CountLanded, RecordsInv, Landed;
  }

  lemma StepKeepsInv(w: World, w': World)
    requires Inv(w) && Step(w, w')
    ensures Inv(w')
  {
    hide Inv;
    if Reverses(w, w') {
      ReversesKeepsInv(w, w');
    } else if Removes(w, w') {
      RemovesKeepsInv(w, w');
    } else if Intrudes(w, w') {
      IntrudesKeepsInv(w, w');
    } else if Lands(w, w') {
      LandsKeepsInv(w, w');
    } else if Drops(w, w') {
      DropsKeepsInv(w, w');
    } else if Clears(w, w') {
      ClearsKeepsInv(w, w');
    } else if Sends(w, w') {
      SendsKeepsInv(w, w');
    } else if Concludes(w, w') {
      ConcludesKeepsInv(w, w');
    } else if Grants(w, w') {
      GrantsKeepsInv(w, w');
    }
  }

  lemma GrantsKeepsInv(w: World, w': World)
    requires Inv(w) && Grants(w, w')
    ensures Inv(w')
  {
  }

  lemma {:induction false} ReachableInv(history: seq<World>, n: nat)
    requires Legal(history) && n < |history|
    ensures Inv(history[n])
  {
    if n == 0 {
      InitHasInv(history[0]);
    } else {
      ReachableInv(history, n - 1);
      StepKeepsInv(history[n - 1], history[n]);
    }
  }

  /**
   Safety over every run: at every moment of every interleaving, with sends landing arbitrarily late
   and documents reversed, removed and hidden in between, the external id carries at most one live
   document of ours, and sends in flight and landed never exceed the permissions consumed.
   */
  lemma EveryRunIsSafe(history: seq<World>)
    requires Legal(history)
    ensures forall n | 0 <= n < |history| :: Safe(history[n])
  {
    forall n | 0 <= n < |history|
      ensures Safe(history[n])
    {
      ReachableInv(history, n);
    }
  }

  // ---------------------------------------------------------------- evidence

  /** A document of this send. */
  predicate LandedAs(w: World, send: nat, d: FoundDocument) {
    exists i | 0 <= i < |w.records| :: w.records[i].origin == Some(send) && w.records[i].doc == d
  }

  /** A newest holder from before the send is the expected old document, still reversed. */
  lemma AnchorIsNewest(records: seq<Record>, request: CreateStepRequest, seen: nat, e: nat)
    requires Anchored(records, request, seen) && e < |records| && !records[e].removed
    requires forall i | e < i < |records| :: records[i].removed
    ensures e < seen ==> request.reversed == Some(records[e].doc.number) && !records[e].doc.IsLive()
  {
    if request.reversed.Some? {
      var a :| 0 <= a < seen && AnchoredAt(records, request, request.reversed.value, seen, a);
      assert !(e < a);
      assert e < seen ==> a == e;
    }
  }

  /**
   What makes positive evidence sound: while a send is outstanding, a holder of ours other than the
   expected old one can only be that send's own document, however late it landed; so the send is settled.
   */
  lemma EvidenceNamesTheSend(w: World, d: FoundDocument)
    requires Inv(w) && w.call.Outstanding? && Newest(w.records) == Some(d)
    requires d.IsOurs(w.order, w.kind) && w.call.request.reversed != Some(d.number)
    ensures LandedAs(w, w.call.send, d) && w.call.send !in w.inFlight
  {
    var request, seen := w.call.request, w.call.seen;
    var e := NewestIndex(w.records);
    AnchorIsNewest(w.records, request, seen, e.value);
    assert w.records[e.value].Ours(request.order, request.kind);
    assert w.records[e.value].origin == Some(w.call.send);
  }

  /** After a send that the vendor refused, no holder of ours but the expected old one, still reversed. */
  lemma RefusalLeavesNoEvidence(w: World, d: FoundDocument)
    requires Inv(w) && w.call.Outstanding? && Newest(w.records) == Some(d)
    requires Spent(w, w.call.send) && d.IsOurs(w.order, w.kind)
    ensures w.call.request.reversed == Some(d.number) && !d.IsLive()
  {
    var request, seen := w.call.request, w.call.seen;
    var e := NewestIndex(w.records);
    AnchorIsNewest(w.records, request, seen, e.value);
    assert w.records[e.value].Ours(request.order, request.kind);
    assert w.records[e.value].origin != Some(w.call.send);
  }

  lemma EnvironmentKeepsSpent(w: World, w': World, send: nat)
    requires EnvironmentStep(w, w') && Spent(w, send)
    ensures Spent(w', send)
  {
    if Lands(w, w') {
      assert forall i | 0 <= i < |w.records| :: w'.records[i] == w.records[i];
    }
  }

  lemma StepKeepsSpent(w: World, w': World, send: nat)
    requires Step(w, w') && Spent(w, send)
    ensures Spent(w', send)
  {
    if EnvironmentStep(w, w') {
      EnvironmentKeepsSpent(w, w', send);
    }
  }

  /** What has produced nothing and is not in flight never produces anything, however the run goes on. */
  lemma {:induction false} SpentForever(history: seq<World>, m: nat, n: nat, send: nat)
    requires Legal(history) && m <= n < |history| && Spent(history[m], send)
    ensures Spent(history[n], send)
    decreases n
  {
    if m == n {
    } else {
      SpentForever(history, m, n - 1, send);
      StepKeepsSpent(history[n - 1], history[n], send);
    }
  }

  /** What any stretch of environment steps leaves as it was. */
  ghost predicate Drifts(w: World, w': World) {
    && w'.externalId == w.externalId && w'.order == w.order && w'.kind == w.kind
    && w'.sends == w.sends && w'.permissions == w.permissions && w'.call == w.call
    && w'.inFlight.Keys <= w.inFlight.Keys
    && forall s: nat | Spent(w, s) :: Spent(w', s)
  }

  lemma EnvironmentDrifts(w: World, w': World)
    requires EnvironmentStep(w, w')
    ensures Drifts(w, w')
  {
    hide Spent, Newest, NumberIsFresh;
    forall s: nat | Spent(w, s)
      ensures Spent(w', s)
    {
      EnvironmentKeepsSpent(w, w', s);
    }
  }

  // ---------------------------------------------------------------- why the grant rule is needed

  lemma LandsOf(w: World, w': World, r: Record, send: nat)
    requires send in w.inFlight && r == Record(r.doc, false, Some(send)) && Issues(w.inFlight[send].create, r.doc)
    requires w.inFlight[send].create.externalId == Some(w.externalId) && NumberIsFresh(w.records, r.doc.number)
    requires w' == w.(records := w.records + [r], inFlight := w.inFlight - {send})
    ensures Lands(w, w')
  {
    assert AddsIssued(w.records, w'.records, w.inFlight[send].create, send);
  }

  ghost function LongestNumber(records: seq<Record>): (n: nat)
    ensures forall i | 0 <= i < |records| :: |records[i].doc.number| <= n
  {
    if records == [] then 0
    else
      var n := LongestNumber(records[..|records| - 1]);
      var last := |records[|records| - 1].doc.number|;
      if last > n then last else n
  }

  /** The vendor can always issue one more document. */
  lemma FreshDocument(records: seq<Record>, create: CreateInvoice) returns (d: FoundDocument)
    requires IssuedAs(create.kind).Some?
    ensures Issues(create, d) && NumberIsFresh(records, d.number)
  {
    var number := seq(LongestNumber(records) + 1, _ => '0');
    var documentType := TypeOf(IssuedAs(create.kind).value);
    d := FoundDocument(0, number, documentType, create.orderNumber, None, OutboundBase(create.kind), 0, None);
    assert forall i | 0 <= i < |records| :: |records[i].doc.number| < |number|;
  }

  /** The caller takes what it read for settlement and is free to ask again. */
  predicate GivesUp(w: World, w': World) {
    w.call.Outstanding? && w' == w.(call := Idle)
  }

  /** A continuation that starts with giving the outstanding call up and is legal from there on. */
  ghost predicate GivenUpThenLegal(history: seq<World>, longer: seq<World>) {
    && 0 < |history| < |longer| && history <= longer
    && GivesUp(history[|history| - 1], longer[|history|])
    && forall i | |history| < i < |longer| :: Step(longer[i - 1], longer[i])
  }

  /** Giving a settled call up is a legal step, so nothing can go wrong. */
  lemma SettledCallsMayEnd(history: seq<World>, longer: seq<World>)
    requires Legal(history) && GivenUpThenLegal(history, longer)
    requires var w := history[|history| - 1]; w.call.send !in w.inFlight
    ensures AtMostOneLive(longer[|longer| - 1])
  {
    hide Step, Init;
    forall i | 0 < i < |longer|
      ensures Step(longer[i - 1], longer[i])
    {
      if i < |history| {
        assert longer[i - 1] == history[i - 1] && longer[i] == history[i];
      } else if i == |history| {
        ConcludesIsStep(longer[i - 1], longer[i]);
      }
    }
    EveryRunIsSafe(longer);
  }

  lemma ConcludesIsStep(w: World, w': World)
    requires w.call.Outstanding? && w.call.send !in w.inFlight && GivesUp(w, w')
    ensures Step(w, w')
  {
  }

  /** Two sends of one request in flight can both land and stay live. */
  lemma BothLand(w: World, request: CreateStepRequest, s: nat, t: nat) returns (w': World, w'': World)
    requires RequestOf(w, request) && s != t
    requires s in w.inFlight && t in w.inFlight && w.inFlight[s] == w.inFlight[t] == request
    ensures Step(w, w') && Step(w', w'') && !AtMostOneLive(w'')
  {
    var n := |w.records|;
    var first := FreshDocument(w.records, request.create);
    var r := Record(first, false, Some(s));
    var second := FreshDocument(w.records + [r], request.create);
    AdmittedMeansIssuedIsEvidence(request, first);
    AdmittedMeansIssuedIsEvidence(request, second);
    w' := w.(records := w.records + [r], inFlight := w.inFlight - {s});
    w'' := w'.(records := w'.records + [Record(second, false, Some(t))], inFlight := w'.inFlight - {t});
    LandsOf(w, w', r, s);
    LandsOf(w', w'', Record(second, false, Some(t)), t);
    assert w''.records[n] == r;
    assert LiveOursAt(w'', n) && LiveOursAt(w'', n + 1);
  }

  /** The caller asks again and, on the same read, sends again. */
  lemma AsksAgain(w: World, request: CreateStepRequest) returns (w1: World, w2: World, w3: World)
    requires w.call.Idle? && RequestOf(w, request) && LeadingPermits(Newest(w.records), request)
    ensures Step(w, w1) && Step(w1, w2) && Step(w2, w3)
    ensures w3 == w.(call := Outstanding(request, |w.records|, w.sends), inFlight := w.inFlight[w.sends := request],
                     sends := w.sends + 1, permissions := w.permissions + 1)
  {
    w1 := w.(call := Checking(request), permissions := w.permissions + 1);
    w2 := w1.(call := Cleared(request, |w.records|));
    w3 := w2.(call := Outstanding(request, |w.records|, w.sends), inFlight := w.inFlight[w.sends := request],
              sends := w.sends + 1);
    assert Grants(w, w1) && Clears(w1, w2) && Sends(w2, w3);
  }

  /**
   Giving an unsettled call up on a read that would let a send proceed: the caller asks again, sends again,
   and both sends land.
   */
  lemma UnsettledCallDoubles(history: seq<World>) returns (longer: seq<World>)
    requires |history| > 0 && Inv(history[|history| - 1])
    requires var w := history[|history| - 1];
             && w.call.Outstanding? && w.call.send in w.inFlight
             && LeadingPermits(Newest(w.records), w.call.request)
    ensures GivenUpThenLegal(history, longer) && !AtMostOneLive(longer[|longer| - 1])
  {
    var w := history[|history| - 1];
    var request, s := w.call.request, w.call.send;
    assert w.inFlight == map[s := request] && RequestOf(w, request) && s < w.sends;
    hide Inv, LeadingPermits, Newest, Step, AtMostOneLive, Admitted;
    var idle := w.(call := Idle);
    var w1, w2, w3 := AsksAgain(idle, request);
    var w4, w5 := BothLand(w3, request, s, w.sends);
    longer := GivenUpRun(history, idle, w1, w2, w3, w4, w5);
  }

  lemma GivenUpRun(history: seq<World>, w0: World, w1: World, w2: World, w3: World, w4: World, w5: World)
    returns (longer: seq<World>)
    requires |history| > 0 && GivesUp(history[|history| - 1], w0)
    requires Step(w0, w1) && Step(w1, w2) && Step(w2, w3) && Step(w3, w4) && Step(w4, w5)
    ensures GivenUpThenLegal(history, longer) && longer[|longer| - 1] == w5
  {
    hide Step, GivesUp;
    longer := history + [w0, w1, w2, w3, w4, w5];
    forall i | |history| < i < |longer|
      ensures Step(longer[i - 1], longer[i])
    {
    }
  }

  /**
   Absence and the old reissue target do not settle a send. After a read that would let a send proceed, for an
   initial create or a reissue, giving the outstanding call up is safe in every continuation if and only
   if its send can no longer land, which no read of that kind tells.
   */
  lemma GivingUpIsSafeExactlyWhenSettled(history: seq<World>)
    requires Legal(history)
    requires var w := history[|history| - 1];
             w.call.Outstanding? && LeadingPermits(Newest(w.records), w.call.request)
    ensures var w := history[|history| - 1];
            (forall longer | GivenUpThenLegal(history, longer) :: AtMostOneLive(longer[|longer| - 1]))
            <==> w.call.send !in w.inFlight
  {
    var w := history[|history| - 1];
    if w.call.send in w.inFlight {
      ReachableInv(history, |history| - 1);
      var longer := UnsettledCallDoubles(history);
    } else {
      hide AtMostOneLive, GivenUpThenLegal;
      forall longer | GivenUpThenLegal(history, longer)
        ensures AtMostOneLive(longer[|longer| - 1])
      {
        SettledCallsMayEnd(history, longer);
      }
    }
  }

  /** Such a read with the send still in flight occurs after every start that lets a request be sent. */
  lemma UnsettledReadIsReachable(start: World, request: CreateStepRequest) returns (history: seq<World>)
    requires Init(start) && RequestOf(start, request) && LeadingPermits(Newest(start.records), request)
    ensures Legal(history) && history[0] == start
    ensures var w := history[|history| - 1];
            && w.call.Outstanding? && w.call.request == request && w.call.send in w.inFlight
            && LeadingPermits(Newest(w.records), request)
  {
    var w1, w2, w3 := AsksAgain(start, request);
    history := [start, w1, w2, w3];
  }
}
