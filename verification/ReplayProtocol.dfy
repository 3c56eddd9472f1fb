/**
 Replay-enabled issuing: an open run of one retained operation may send again while earlier sends of it
 are unresolved. The one-send safety is given up knowingly; what stays true of every run, and what the
 accepted risk is, is proved here.
 */
module ReplayProtocol {
  import opened Wrappers
  import opened Documents
  import opened CreateProtocol

  /** One admitted operation: its documents, and the sends of it the vendor may still act on. */
  datatype ReplayWorld = ReplayWorld(
    request: CreateStepRequest,
    /** Everything ever landed under the external id, oldest first. */
    records: seq<Record>,
    /** How many documents had landed when the operation was admitted. */
    seen: nat,
    inFlight: set<nat>,
    sends: nat,
    /** The fresh leading query of the current execution permits a send. */
    cleared: bool)

  predicate ReplayLands(w: ReplayWorld, w': ReplayWorld) {
    exists s | s in w.inFlight ::
      && AddsIssued(w.records, w'.records, w.request.create, s)
      && w' == w.(records := w'.records, inFlight := w.inFlight - {s})
  }

  predicate ReplayDrops(w: ReplayWorld, w': ReplayWorld) {
    exists s | s in w.inFlight :: w' == w.(inFlight := w.inFlight - {s})
  }

  /** What happens to the records themselves: reversals, removals, foreign holders. */
  predicate ReplayDisturbs(w: ReplayWorld, w': ReplayWorld) {
    && (ReversesOne(w.records, w'.records) || RemovesOne(w.records, w'.records)
        || AddsForeign(w.records, w'.records, w.request.order, w.request.kind))
    && w' == w.(records := w'.records)
  }

  predicate ReplayEnvironment(w: ReplayWorld, w': ReplayWorld) {
    w' == w || ReplayDisturbs(w, w') || ReplayLands(w, w') || ReplayDrops(w, w')
  }

  /** An execution starts over: only a fresh query that permits a send clears it. */
  predicate ReplayClears(w: ReplayWorld, w': ReplayWorld) {
    w' == w.(cleared := LeadingPermits(Newest(w.records), w.request))
  }

  /** A send of the operation, whatever became of the earlier ones. */
  predicate ReplaySends(w: ReplayWorld, w': ReplayWorld) {
    w.cleared && w' == w.(cleared := false, inFlight := w.inFlight + {w.sends}, sends := w.sends + 1)
  }

  predicate ReplayStep(w: ReplayWorld, w': ReplayWorld) {
    ReplayEnvironment(w, w') || ReplayClears(w, w') || ReplaySends(w, w')
  }

  /** Admission: the lookup saw nothing, or exactly the expected reversal, and nothing was sent yet. */
  predicate ReplayInit(w: ReplayWorld) {
    && Admitted(w.request) && LeadingPermits(Newest(w.records), w.request) && w.seen == |w.records|
    && w.inFlight == {} && w.sends == 0 && !w.cleared
    && OnlyLiveRemoved(w.records) && NumbersUnique(w.records)
    && OnlyLastLive(w.records, w.request.order, w.request.kind)
    && forall i | 0 <= i < |w.records| :: w.records[i].origin.None?
  }

  ghost predicate ReplayLegal(history: seq<ReplayWorld>) {
    && |history| > 0 && ReplayInit(history[0])
    && forall i | 0 < i < |history| :: ReplayStep(history[i - 1], history[i])
  }

  function Last(history: seq<ReplayWorld>): ReplayWorld
    requires |history| > 0
  {
    history[|history| - 1]
  }

  // ---------------------------------------------------------------- what every reachable world keeps

  /** Documents landed after admission that are ours come from sends of the operation. */
  predicate OursFromSends(records: seq<Record>, request: CreateStepRequest, seen: nat) {
    forall i | seen <= i < |records| :: records[i].Ours(request.order, request.kind) ==> records[i].origin.Some?
  }

  /** A send lands at most once, and not while it is in flight. */
  predicate OriginsSound(records: seq<Record>, inFlight: set<nat>, sends: nat) {
    && (forall i | 0 <= i < |records| ::
          records[i].origin.Some? ==> records[i].origin.value < sends && records[i].origin.value !in inFlight)
    && forall i, j | 0 <= i < j < |records| :: records[i].origin.Some? ==> records[i].origin != records[j].origin
  }

  /** No document of ours from before the admission is live. */
  predicate NothingLiveBefore(records: seq<Record>, request: CreateStepRequest, seen: nat) {
    forall i | 0 <= i < seen && i < |records| :: records[i].Ours(request.order, request.kind) ==> !records[i].Live()
  }

  predicate ReplayInv(w: ReplayWorld) {
    && Admitted(w.request) && OnlyLiveRemoved(w.records) && NumbersUnique(w.records)
    && Anchored(w.records, w.request, w.seen) && NothingLiveBefore(w.records, w.request, w.seen)
    && OursFromSends(w.records, w.request, w.seen)
    && OriginsSound(w.records, w.inFlight, w.sends)
    && (forall s | s in w.inFlight :: s < w.sends)
    && |w.inFlight| + CountLanded(w.records) <= w.sends
  }

  lemma ReplayInitHasInv(w: ReplayWorld)
    requires ReplayInit(w)
    ensures ReplayInv(w)
  {
    NoneLanded(w.records);
    LeadAnchors(w.records, w.request);
    NothingLiveAtAdmission(w.records, w.request);
  }

  lemma NothingLiveAtAdmission(records: seq<Record>, request: CreateStepRequest)
    requires LeadingPermits(Newest(records), request) && OnlyLastLive(records, request.order, request.kind)
    ensures NothingLiveBefore(records, request, |records|)
  {
    var e := NewestIndex(records);
    if e.Some? {
      assert records[e.value].Ours(request.order, request.kind) && !records[e.value].Live();
    }
  }

  lemma AgingKeepsOurs(records: seq<Record>, records': seq<Record>, request: CreateStepRequest)
    requires Ages(records, records')
    ensures forall i | 0 <= i < |records| ::
              && records'[i].Ours(request.order, request.kind) == records[i].Ours(request.order, request.kind)
              && (records'[i].Live() ==> records[i].Live())
  {
  }

  lemma AgingKeepsReplay(w: ReplayWorld, w': ReplayWorld)
    requires ReplayInv(w) && Ages(w.records, w'.records) && w' == w.(records := w'.records)
    requires CountLanded(w'.records) == CountLanded(w.records)
    ensures ReplayInv(w')
  {
    AgingKeepsAnchor(w.records, w'.records, w.request, w.seen);
    AgingKeepsOurs(w.records, w'.records, w.request);
    hide Anchored, Admitted, CountLanded;
  }

  lemma AppendKeepsReplay(w: ReplayWorld, w': ReplayWorld, r: Record)
    requires ReplayInv(w) && w'.records == w.records + [r] && !r.removed
    requires w'.request == w.request && w'.seen == w.seen && w'.sends == w.sends
    requires r.Ours(w.request.order, w.request.kind) ==> r.origin.Some?
    requires NumberIsFresh(w.records, r.doc.number)
    requires w'.inFlight == if r.origin.Some? then w.inFlight - {r.origin.value} else w.inFlight
    requires r.origin.Some? ==> r.origin.value in w.inFlight
    ensures ReplayInv(w')
  {
    CountAppend(w.records, r);
    AppendKeepsAnchor(w.records, r, w.request, w.seen);
    AppendKeepsSound(w.records, r, w.inFlight, w'.inFlight, w.sends);
    hide Anchored, Admitted, CountLanded, OriginsSound, FoundDocument.IsOurs;
  }

  lemma AppendKeepsSound(records: seq<Record>, r: Record, inFlight: set<nat>, inFlight': set<nat>, sends: nat)
    requires OriginsSound(records, inFlight, sends) && forall s | s in inFlight :: s < sends
    requires r.origin.Some? ==> r.origin.value in inFlight
    requires inFlight' == if r.origin.Some? then inFlight - {r.origin.value} else inFlight
    ensures OriginsSound(records + [r], inFlight', sends)
  {
  }

  lemma ReplayEnvironmentKeepsInv(w: ReplayWorld, w': ReplayWorld)
    requires ReplayInv(w) && ReplayEnvironment(w, w')
    ensures ReplayInv(w')
  {
    if ReplayDisturbs(w, w') {
      if ReversesOne(w.records, w'.records) {
        ReversalAges(w.records, w'.records);
        hide ReplayInv, Ages, ReplayDisturbs, ReversesOne, RemovesOne, AddsForeign;
        AgingKeepsReplay(w, w');
      } else if RemovesOne(w.records, w'.records) {
        RemovalAges(w.records, w'.records);
        hide ReplayInv, Ages, ReplayDisturbs, ReversesOne, RemovesOne, AddsForeign;
        AgingKeepsReplay(w, w');
      } else {
        hide ReplayInv;
        AppendKeepsReplay(w, w', w'.records[|w'.records| - 1]);
      }
    } else if ReplayLands(w, w') {
      hide ReplayInv;
      AppendKeepsReplay(w, w', w'.records[|w'.records| - 1]);
    }
  }

  lemma ReplayStepKeepsInv(w: ReplayWorld, w': ReplayWorld)
    requires ReplayInv(w) && ReplayStep(w, w')
    ensures ReplayInv(w')
  {
    if ReplayEnvironment(w, w') {
      hide ReplayInv;
      ReplayEnvironmentKeepsInv(w, w');
    } else {
      hide Anchored, OursFromSends, NothingLiveBefore, OnlyLiveRemoved;
    }
  }

  lemma {:induction false} ReplayReachable(history: seq<ReplayWorld>, n: nat)
    requires ReplayLegal(history) && n < |history|
    ensures ReplayInv(history[n])
  {
    if n == 0 {
      ReplayInitHasInv(history[0]);
    } else {
      ReplayReachable(history, n - 1);
      ReplayStepKeepsInv(history[n - 1], history[n]);
    }
  }

  /** A live document of ours. */
  predicate LiveOurs(w: ReplayWorld, i: nat) {
    i < |w.records| && w.records[i].Ours(w.request.order, w.request.kind) && w.records[i].Live()
  }

  ghost predicate OneLiveAtMost(w: ReplayWorld) {
    forall i: nat, j: nat | LiveOurs(w, i) && LiveOurs(w, j) :: i == j
  }

  function CountLive(records: seq<Record>, request: CreateStepRequest): nat {
    if records == [] then 0
    else
      var last := records[|records| - 1];
      CountLive(records[..|records| - 1], request)
      + if last.Ours(request.order, request.kind) && last.Live() then 1 else 0
  }

  lemma {:induction false} LiveAreLanded(records: seq<Record>, request: CreateStepRequest)
    requires forall i | 0 <= i < |records| ::
               records[i].Ours(request.order, request.kind) && records[i].Live() ==> records[i].origin.Some?
    ensures CountLive(records, request) <= CountLanded(records)
  {
    if records == [] {
    } else {
      LiveAreLanded(records[..|records| - 1], request);
    }
  }

  /**
   What replay keeps in every run: live documents of ours are never more than the sends, and any two of
   them come from different sends.
   */
  lemma LiveDocumentsOfDifferentSends(history: seq<ReplayWorld>, n: nat)
    requires ReplayLegal(history) && n < |history|
    ensures CountLive(history[n].records, history[n].request) + |history[n].inFlight| <= history[n].sends
    ensures forall i: nat, j: nat | LiveOurs(history[n], i) && LiveOurs(history[n], j) && i != j ::
              && history[n].records[i].origin.Some? && history[n].records[j].origin.Some?
              && history[n].records[i].origin != history[n].records[j].origin
  {
    ReplayReachable(history, n);
    LiveAreLanded(history[n].records, history[n].request);
  }

  // ---------------------------------------------------------------- when a second live document is impossible

  /** Everything of ours before `at` is not live, and from there on at most the document of the last send. */
  predicate Quiet(w: ReplayWorld, at: nat) {
    && at <= |w.records| && NothingLiveBefore(w.records, w.request, at)
    && (forall s | s in w.inFlight :: s + 1 == w.sends)
    && (forall i | at <= i < |w.records| ::
          w.records[i].Ours(w.request.order, w.request.kind) ==> IsOf(w.records[i], w.sends))
    && (w.cleared ==>
          && w.inFlight == {}
          && forall i | at <= i < |w.records| :: !w.records[i].Ours(w.request.order, w.request.kind))
  }

  /** The document of the last of so many sends. */
  predicate IsOf(r: Record, sends: nat) {
    r.origin.Some? && r.origin.value + 1 == sends
  }

  lemma QuietIsSafe(w: ReplayWorld, at: nat)
    requires ReplayInv(w) && Quiet(w, at)
    ensures OneLiveAtMost(w)
  {
    hide Anchored;
    forall i: nat, j: nat | LiveOurs(w, i) && LiveOurs(w, j)
      ensures i == j
    {
      assert at <= i && at <= j;
      assert IsOf(w.records[i], w.sends) && IsOf(w.records[j], w.sends);
    }
  }

  /** A query that permits a send rules out every live document of ours landed so far, whatever was sent. */
  lemma PermitsMeansNothingLive(w: ReplayWorld)
    requires ReplayInv(w) && LeadingPermits(Newest(w.records), w.request)
    ensures NothingLiveBefore(w.records, w.request, |w.records|)
  {
    var e := NewestIndex(w.records);
    hide OnlyLiveRemoved, OriginsSound, OursFromSends;
    if e.Some? {
      var a :| 0 <= a < w.seen && AnchoredAt(w.records, w.request, w.request.reversed.value, w.seen, a);
      assert a == e.value;
    }
  }

  /** The step by which a fresh query lets a send follow. */
  predicate Permitted(w: ReplayWorld, w': ReplayWorld) {
    !w.cleared && w'.cleared
  }

  lemma QuietStep(w: ReplayWorld, w': ReplayWorld, at: nat) returns (at': nat)
    requires ReplayInv(w) && ReplayStep(w, w') && Quiet(w, at)
    requires Permitted(w, w') ==> w.inFlight == {}
    ensures Quiet(w', at')
  {
    at' := at;
    if ReplayEnvironment(w, w') {
      QuietDrifts(w, w', at);
    } else if ReplaySends(w, w') {
    } else if Permitted(w, w') {
      PermitsMeansNothingLive(w);
      at' := |w.records|;
    }
  }

  lemma QuietDrifts(w: ReplayWorld, w': ReplayWorld, at: nat)
    requires ReplayInv(w) && ReplayEnvironment(w, w') && Quiet(w, at)
    ensures Quiet(w', at)
  {
    if ReplayDisturbs(w, w') && !AddsForeign(w.records, w'.records, w.request.order, w.request.kind) {
      if ReversesOne(w.records, w'.records) {
        ReversalAges(w.records, w'.records);
      } else {
        RemovalAges(w.records, w'.records);
      }
      hide ReplayInv, ReversesOne, RemovesOne, AddsForeign, ReplayEnvironment;
      QuietAges(w, w', at);
    } else if w' != w && (ReplayDisturbs(w, w') || ReplayLands(w, w')) {
      hide ReplayInv;
      var r := w'.records[|w'.records| - 1];
      assert w'.records == w.records + [r];
      QuietGrows(w, w', at, r);
    }
  }

  lemma QuietAges(w: ReplayWorld, w': ReplayWorld, at: nat)
    requires Quiet(w, at) && Ages(w.records, w'.records) && w' == w.(records := w'.records)
    ensures Quiet(w', at)
  {
    AgingKeepsOurs(w.records, w'.records, w.request);
  }

  lemma QuietGrows(w: ReplayWorld, w': ReplayWorld, at: nat, r: Record)
    requires Quiet(w, at) && w'.records == w.records + [r] && w'.inFlight <= w.inFlight
    requires w'.request == w.request && w'.sends == w.sends && w'.cleared == w.cleared
    requires r.Ours(w.request.order, w.request.kind) ==> r.origin.Some? && r.origin.value in w.inFlight
    ensures Quiet(w', at)
  {
    forall i | at <= i < |w'.records| && w'.records[i].Ours(w.request.order, w.request.kind)
      ensures IsOf(w'.records[i], w'.sends)
    {
      assert i < |w.records| ==> w'.records[i] == w.records[i];
    }
  }

  /** After `m` every permitting query is asked with no send unresolved. */
  ghost predicate NoOverlapAfter(history: seq<ReplayWorld>, m: nat) {
    forall i | m < i < |history| :: Permitted(history[i - 1], history[i]) ==> history[i - 1].inFlight == {}
  }

  lemma {:induction false} QuietAlong(history: seq<ReplayWorld>, m: nat, n: nat, at: nat) returns (at': nat)
    requires ReplayLegal(history) && m <= n < |history|
    requires Quiet(history[m], at) && NoOverlapAfter(history, m)
    ensures Quiet(history[n], at')
    decreases n
  {
    if m == n {
      at' := at;
    } else {
      hide Quiet, ReplayLegal, NoOverlapAfter;
      at' := QuietAlong(history, m, n - 1, at);
      at' := QuietOneMore(history, m, n, at');
    }
  }

  lemma QuietOneMore(history: seq<ReplayWorld>, m: nat, n: nat, at: nat) returns (at': nat)
    requires ReplayLegal(history) && m < n < |history|
    requires Quiet(history[n - 1], at) && NoOverlapAfter(history, m)
    ensures Quiet(history[n], at')
  {
    hide Quiet, ReplayInv, ReplayStep, ReplayInit, Permitted;
    ReplayReachable(history, n - 1);
    at' := QuietStep(history[n - 1], history[n], at);
  }

  /**
   Replay without overlap is as safe as a single send: in every run, of an initial create or a reissue and of any
   number of sends, in which no earlier send is unresolved when a fresh query permits the next, at most
   one document of ours is live at every moment.
   */
  lemma WithoutOverlapOneLive(history: seq<ReplayWorld>, n: nat)
    requires ReplayLegal(history) && NoOverlapAfter(history, 0) && n < |history|
    ensures OneLiveAtMost(history[n])
  {
    InitIsQuiet(history[0]);
    ReplayReachable(history, n);
    hide ReplayLegal, NoOverlapAfter, Quiet, ReplayInv;
    var at := QuietAlong(history, 0, n, |history[0].records|);
    QuietIsSafe(history[n], at);
  }

  lemma InitIsQuiet(w: ReplayWorld)
    requires ReplayInit(w)
    ensures Quiet(w, |w.records|)
  {
    NothingLiveAtAdmission(w.records, w.request);
  }

  // ---------------------------------------------------------------- and exactly when it is possible

  /** One more execution: a fresh query permits its send now, and what follows does not overlap again. */
  ghost predicate AnotherExecution(history: seq<ReplayWorld>, longer: seq<ReplayWorld>) {
    && 0 < |history| < |longer| && history <= longer && ReplayLegal(longer)
    && ReplayClears(Last(history), longer[|history|]) && longer[|history|].cleared
    && NoOverlapAfter(longer, |history|)
  }

  lemma SettledStartIsQuiet(w: ReplayWorld, w': ReplayWorld)
    requires ReplayInv(w) && ReplayClears(w, w') && w'.cleared && w.inFlight == {}
    ensures Quiet(w', |w.records|)
  {
    PermitsMeansNothingLive(w);
  }

  lemma SettledExecutionIsSafe(history: seq<ReplayWorld>, longer: seq<ReplayWorld>)
    requires ReplayLegal(history) && AnotherExecution(history, longer) && Last(history).inFlight == {}
    ensures OneLiveAtMost(Last(longer))
  {
    hide ReplayLegal, Quiet, ReplayInv, NoOverlapAfter, ReplayClears;
    var m, n := |history|, |longer| - 1;
    ReplayReachable(history, m - 1);
    SettledStartIsQuiet(Last(history), longer[m]);
    ReplayReachable(longer, n);
    var at := QuietAlong(longer, m, n, |Last(history).records|);
    QuietIsSafe(longer[n], at);
  }

  lemma LandsOne(w: ReplayWorld, s: nat) returns (w': ReplayWorld)
    requires Admitted(w.request) && s in w.inFlight
    ensures ReplayStep(w, w') && |w'.records| == |w.records| + 1 && w.records <= w'.records
    ensures w' == w.(records := w'.records, inFlight := w.inFlight - {s})
    ensures w'.records[|w.records|].origin == Some(s) && LiveOurs(w', |w.records|)
  {
    var d := FreshDocument(w.records, w.request.create);
    AdmittedMeansIssuedIsEvidence(w.request, d);
    w' := w.(records := w.records + [Record(d, false, Some(s))], inFlight := w.inFlight - {s});
    assert AddsIssued(w.records, w'.records, w.request.create, s);
    assert ReplayLands(w, w');
  }

  /** With a send unresolved, one more execution can end in two live documents. */
  lemma OverlapDoubles(history: seq<ReplayWorld>, s: nat) returns (longer: seq<ReplayWorld>)
    requires ReplayLegal(history)
    requires var w := Last(history); s in w.inFlight && LeadingPermits(Newest(w.records), w.request)
    ensures AnotherExecution(history, longer) && !OneLiveAtMost(Last(longer))
  {
    var w := Last(history);
    var n, t := |w.records|, w.sends;
    ReplayReachable(history, |history| - 1);
    assert Admitted(w.request) && s < t;
    var w1 := w.(cleared := true);
    var w2 := w1.(cleared := false, inFlight := w1.inFlight + {t}, sends := t + 1);
    assert ReplayClears(w, w1) && ReplaySends(w1, w2);
    hide LeadingPermits, Newest, ReplayInv, Admitted, ReplayEnvironment;
    var w3 := LandsOne(w2, s);
    var w4 := LandsOne(w3, t);
    assert LiveOurs(w4, n) && LiveOurs(w4, n + 1);
    longer := ExtendedRun(history, w1, w2, w3, w4);
  }

  lemma ExtendedRun(history: seq<ReplayWorld>, w1: ReplayWorld, w2: ReplayWorld, w3: ReplayWorld, w4: ReplayWorld)
    returns (longer: seq<ReplayWorld>)
    requires ReplayLegal(history) && ReplayStep(Last(history), w1)
    requires ReplayStep(w1, w2) && ReplayStep(w2, w3) && ReplayStep(w3, w4)
    requires !w2.cleared && !w3.cleared && !w4.cleared
    ensures longer == history + [w1, w2, w3, w4] && ReplayLegal(longer) && NoOverlapAfter(longer, |history|)
  {
    hide ReplayInit, ReplayStep;
    longer := history + [w1, w2, w3, w4];
    forall i | 0 < i < |longer|
      ensures ReplayStep(longer[i - 1], longer[i])
    {
      assert i < |history| ==> longer[i - 1] == history[i - 1] && longer[i] == history[i];
    }
  }

  /**
   The accepted risk, exactly: after any run, one more execution whose query permits a send is safe in
   every continuation if and only if no earlier send is unresolved at that moment.
   */
  lemma SafeExactlyWithoutOverlap(history: seq<ReplayWorld>)
    requires ReplayLegal(history)
    requires var w := Last(history); LeadingPermits(Newest(w.records), w.request)
    ensures (forall longer | AnotherExecution(history, longer) :: OneLiveAtMost(Last(longer)))
            <==> Last(history).inFlight == {}
  {
    var w := Last(history);
    if w.inFlight != {} {
      var s :| s in w.inFlight;
      var longer := OverlapDoubles(history, s);
    } else {
      hide AnotherExecution, OneLiveAtMost, ReplayLegal;
      forall longer | AnotherExecution(history, longer)
        ensures OneLiveAtMost(Last(longer))
      {
        SettledExecutionIsSafe(history, longer);
      }
    }
  }

  // ---------------------------------------------------------------- evidence and refusals

  /** A document of some send of the operation, which is settled by it. */
  predicate LandedBySome(w: ReplayWorld, d: FoundDocument) {
    exists i | 0 <= i < |w.records| ::
      w.records[i].doc == d && w.records[i].origin.Some?
      && w.records[i].origin.value < w.sends && w.records[i].origin.value !in w.inFlight
  }

  /** A document of a send before `send`. */
  predicate LandedBefore(w: ReplayWorld, send: nat, d: FoundDocument) {
    exists i | 0 <= i < |w.records| ::
      w.records[i].doc == d && w.records[i].origin.Some? && w.records[i].origin.value < send
  }

  /** The send was made, produced nothing and never will. */
  predicate ReplaySpent(w: ReplayWorld, send: nat) {
    send < w.sends && send !in w.inFlight && !Landed(w.records, send)
  }

  /** With any number of sends unresolved, a holder of ours other than the expected old one is one of theirs. */
  lemma EvidenceNamesASend(w: ReplayWorld, d: FoundDocument)
    requires ReplayInv(w) && Newest(w.records) == Some(d)
    requires d.IsOurs(w.request.order, w.request.kind) && w.request.reversed != Some(d.number)
    ensures LandedBySome(w, d)
  {
    var e := NewestIndex(w.records);
    AnchorIsNewest(w.records, w.request, w.seen, e.value);
    hide Anchored, OnlyLiveRemoved, NothingLiveBefore;
    assert w.records[e.value].Ours(w.request.order, w.request.kind);
  }

  /** After the last send was refused, such a holder is the document of an earlier one. */
  lemma EvidenceAfterRefusal(w: ReplayWorld, d: FoundDocument)
    requires ReplayInv(w) && Newest(w.records) == Some(d)
    requires d.IsOurs(w.request.order, w.request.kind) && w.request.reversed != Some(d.number)
    requires w.sends > 0 && ReplaySpent(w, w.sends - 1)
    ensures LandedBefore(w, w.sends - 1, d)
  {
    EvidenceNamesASend(w, d);
    var i :| 0 <= i < |w.records| && w.records[i].doc == d && w.records[i].origin.Some?
             && w.records[i].origin.value < w.sends && w.records[i].origin.value !in w.inFlight;
    assert w.records[i].origin != Some(w.sends - 1);
  }

  /** What any stretch of environment steps leaves as it was. */
  ghost predicate ReplayDrifts(w: ReplayWorld, w': ReplayWorld) {
    && w'.request == w.request && w'.seen == w.seen && w'.sends == w.sends && w'.cleared == w.cleared
    && w'.inFlight <= w.inFlight
    && forall s: nat | ReplaySpent(w, s) :: ReplaySpent(w', s)
  }

  lemma ReplayEnvironmentDrifts(w: ReplayWorld, w': ReplayWorld)
    requires ReplayEnvironment(w, w')
    ensures ReplayDrifts(w, w')
  {
    assert forall i | 0 <= i < |w.records| :: w'.records[i].origin == w.records[i].origin;
    forall s: nat | ReplaySpent(w, s)
      ensures ReplaySpent(w', s)
    {
      assert !Landed(w.records, s);
    }
  }

  lemma ReplayStepKeepsSpent(w: ReplayWorld, w': ReplayWorld, send: nat)
    requires ReplayStep(w, w') && ReplaySpent(w, send)
    ensures ReplaySpent(w', send)
  {
    if ReplayEnvironment(w, w') {
      ReplayEnvironmentDrifts(w, w');
    }
  }

  /** A refused send stays without effect in every continuation, executions that follow included. */
  lemma {:induction false} ReplaySpentForever(history: seq<ReplayWorld>, m: nat, n: nat, send: nat)
    requires ReplayLegal(history) && m <= n < |history| && ReplaySpent(history[m], send)
    ensures ReplaySpent(history[n], send)
    decreases n
  {
    hide ReplaySpent, ReplayStep, ReplayInit;
    if m == n {
    } else {
      ReplaySpentForever(history, m, n - 1, send);
      ReplayStepKeepsSpent(history[n - 1], history[n], send);
    }
  }

  // ---------------------------------------------------------------- what a refusal leaves open

  predicate LandsBetween(w: ReplayWorld, w': ReplayWorld, send: nat) {
    send < w.sends && !Landed(w.records, send) && Landed(w'.records, send)
  }

  /** A send made before the end of `history` produces a document after it. */
  ghost predicate ProducesLater(history: seq<ReplayWorld>, longer: seq<ReplayWorld>) {
    && 0 < |history| <= |longer| && history <= longer && ReplayLegal(longer)
    && exists s: nat :: LandsBetween(Last(history), Last(longer), s)
  }

  /**
   A refusal speaks of its own send only: after the last send was refused, some send already made can still
   produce a document if and only if another one is in flight.
   */
  lemma RefusalLeavesOpenWhatIsInFlight(history: seq<ReplayWorld>)
    requires ReplayLegal(history)
    requires Last(history).sends > 0 && ReplaySpent(Last(history), Last(history).sends - 1)
    ensures (exists longer :: ProducesLater(history, longer)) <==> Last(history).inFlight != {}
  {
    var w := Last(history);
    if s :| s in w.inFlight {
      var longer := InFlightProduces(history, s);
    } else {
      assert w.inFlight == {};
      forall longer
        ensures !ProducesLater(history, longer)
      {
        if ProducesLater(history, longer) {
          NothingInFlightProducesNothing(history, longer);
        }
      }
    }
  }

  lemma NothingInFlightProducesNothing(history: seq<ReplayWorld>, longer: seq<ReplayWorld>)
    requires |history| > 0 && Last(history).inFlight == {}
    ensures !ProducesLater(history, longer)
  {
    if ProducesLater(history, longer) {
      var w := Last(history);
      var s: nat :| LandsBetween(w, Last(longer), s);
      assert longer[|history| - 1] == w;
      ReplaySpentForever(longer, |history| - 1, |longer| - 1, s);
    }
  }

  lemma OneStepOn(history: seq<ReplayWorld>, w': ReplayWorld) returns (longer: seq<ReplayWorld>)
    requires ReplayLegal(history) && ReplayStep(Last(history), w')
    ensures longer == history + [w'] && ReplayLegal(longer) && history <= longer && Last(longer) == w'
  {
    hide ReplayInit, ReplayStep;
    longer := history + [w'];
    forall i | 0 < i < |longer|
      ensures ReplayStep(longer[i - 1], longer[i])
    {
      assert i < |history| ==> longer[i - 1] == history[i - 1] && longer[i] == history[i];
    }
  }

  lemma InFlightProduces(history: seq<ReplayWorld>, s: nat) returns (longer: seq<ReplayWorld>)
    requires ReplayLegal(history) && s in Last(history).inFlight
    ensures ProducesLater(history, longer)
  {
    var w := Last(history);
    ReplayReachable(history, |history| - 1);
    assert Admitted(w.request) && s < w.sends && !Landed(w.records, s);
    hide ReplayInv, Admitted, ReplayStep;
    var w' := LandsOne(w, s);
    longer := OneStepOn(history, w');
    assert LandsBetween(w, w', s);
  }

  /** Both situations occur, for every admitted operation: an initial create and a reissue alike. */
  lemma ReplayRisk(start: ReplayWorld) returns (overlap: seq<ReplayWorld>, refused: seq<ReplayWorld>)
    requires ReplayInit(start)
    ensures ReplayLegal(overlap) && overlap[0] == start
    ensures exists longer :: AnotherExecution(overlap, longer) && !OneLiveAtMost(Last(longer))
    ensures ReplayLegal(refused) && refused[0] == start
    ensures var w := Last(refused); w.sends == 2 && ReplaySpent(w, 1)
    ensures exists longer :: ProducesLater(refused, longer)
  {
    var w1 := start.(cleared := true);
    var w2 := start.(inFlight := {0}, sends := 1);
    var w3 := w2.(cleared := true);
    var w4 := w2.(inFlight := {0, 1}, sends := 2);
    var w5 := w4.(inFlight := {0});
    assert ReplaySends(w1, w2) && ReplaySends(w3, w4) by {
      assert w1.inFlight + {0} == {0} && w3.inFlight + {1} == {0, 1};
    }
    assert ReplayClears(start, w1) && ReplayClears(w2, w3);
    assert ReplayDrops(w4, w5) by {
      assert 1 in w4.inFlight && w4.inFlight - {1} == {0};
    }
    overlap := [start, w1, w2];
    var doubled := OverlapDoubles(overlap, 0);
    refused := [start, w1, w2, w3, w4, w5];
    var later := InFlightProduces(refused, 0);
  }
}
