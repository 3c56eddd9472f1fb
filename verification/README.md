# A verified model of szamlazz-rs

The repository issues Hungarian invoices through the szamlazz.hu agent interface. This project models
three of its cores in Dafny and proves what they promise.

**The one-send issuing protocol.** Issuing has no idempotency key: a create whose reply is lost may still
land, arbitrarily late, as a legal document. The gateway therefore makes a leading query, sends at most
once per granted permission, and settles only on positive evidence. `CreateProtocol` is the whole system
as a state machine: the documents under one external id, the sends the vendor may still act on, and the
calls of a caller who follows the grant rule, with reversals, removals, foreign holders and late landings
between any two steps. `CreateGateway` is the call as it runs, exchange by exchange, against a `Vendor`
object that moves only by steps of that machine and keeps its history; every call is shown to be part of a
legal run, and every moment of a legal run is shown safe. `GatewayAnswers` holds the pure decisions.
`ReplayProtocol`, `ReplayGuards` and `ReplayGateway` are the replay-enabled create, where several sends of one
operation may be unresolved at once: what stays true of every run, and exactly when one more execution can end
in a second live document. `StornoGateway` is the
reversal call, the second instance of the guarded send, with its own run of calls and retries.

**Exact decimal arithmetic.** `Decimals` and `ExactArithmetic` show that the operations answer the exact
real result when some 96-bit decimal stands for it and refuse exactly otherwise. `NumberGrammar`,
`NumberParser` and `NumberTheorems` do the same for the number parser against a grammar that is written
down separately. `LineItems`, `LineItemTheorems` and `Balance` build the derived amounts on them.

**Unambiguous encodings.** `Multipart` and `MultipartDecoder` are the multipart writer with its boundary
search and a reader after section 5.1.1 of RFC 2046; `Identity` the external ids; `ErrorCodes` the vendor's
code tables and the classification the gateway rests on.

`Wrappers`, `PowersOfTen`, `DecimalDigits` and `Texts` are shared helpers.

What is taken from outside, as assumptions or parameters:

- The vendor: an answered query by external id sees the newest landed document and code 7 means there is
  none; a code whose class is not open means the exchange created nothing; a create acknowledged with a
  number other than the expected old one is over, and that number is a document of ours; document numbers
  are unique; a reversal is permanent and a reversed document is not removed. For reversals: an original
  is reversed at most once, a changed number with a non-positive gross is that reversal, and on the
  unmanaged path an echo of the requested number is a no-op.
- The caller: only it issues documents of its order and kind under the external id, and it asks for a new
  permission only when no send of its own is unresolved. For a replay-enabled create: the operation was
  admitted when the external id held nothing, or exactly the expected reversal, and a number acknowledged to
  it other than the old one is a document of one of its sends.
- `rust_decimal`: `normalize`, `rescale`, `round_dp_with_strategy`, `try_from_i128_with_scale` and
  `checked_add` by their documentation. Unicode NFC is a parameter.

Where code and documentation differ, the code is modelled. `number.rs:145` says only an unrepresentable
value is refused; a nonzero numeral whose exponent does not fit `i64` is refused too. `NumberTheorems` proves
exactly when that loses a number: at no length up to 2^63 - 8 bytes, and at each of the seven lengths above
that a string can have.

## Model

| member | source | states |
|---|---|---|
| `CreateProtocol.EveryRunIsSafe` | crates/restate-szamlazz/src/gateway.rs:533-578 | in every state of every run the external id carries at most one live document of ours, and sends in flight plus landed never exceed sends made nor permissions consumed |
| `CreateProtocol.StepKeepsInv` | crates/restate-szamlazz/src/gateway.rs:1446-1474 | every step of the environment, the gateway and the caller keeps the protocol invariant |
| `CreateProtocol.EvidenceNamesTheSend` | crates/restate-szamlazz/src/gateway.rs:1475-1482 | while a send is outstanding, a newest holder of ours that is not the expected old document is that send's own document, so the send is settled |
| `CreateProtocol.RefusalLeavesNoEvidence` | crates/restate-szamlazz/src/gateway.rs:1692-1707 | after a refused send the only holder of ours that can be newest is the expected old document, still reversed |
| `CreateProtocol.SpentForever` | crates/restate-szamlazz/src/gateway.rs:555-575 | a send that produced nothing and is not in flight produces nothing in any continuation of the run |
| `CreateProtocol.GivingUpIsSafeExactlyWhenSettled` | crates/restate-szamlazz/src/gateway.rs:1686-1688 | in every run, for an initial create or a reissue: after a read of absence or of the old target, giving the outstanding call up keeps at most one live document in every continuation if and only if its send can no longer land |
| `CreateProtocol.UnsettledReadIsReachable` | crates/restate-szamlazz/src/gateway.rs:566-570 | from every start that lets a request be sent, such a read with the send still in flight occurs |
| `CreateProtocol.EnvironmentIsFree` | crates/restate-szamlazz/src/gateway.rs:1449-1456 | nothing but the listed assumptions restrains what happens between two exchanges: any reversal, removal, foreign holder, late landing or loss, at any time |
| `CreateProtocol.NothingLiveBeforeLanding` | crates/restate-szamlazz/src/gateway.rs:1470-1474 | what the leading query saw still rules out a live document of ours when the send lands |
| `CreateGateway.Vendor.AlwaysSafe` | crates/restate-szamlazz/src/gateway.rs:533-578 | whatever calls the gateway made, every moment in the vendor's history was safe |
| `CreateGateway.RefusalIsFinal` | crates/restate-szamlazz/src/gateway.rs:591-597 | a settled refusal stays one at every later moment of the run |
| `CreateGateway.Gateway.CreateOnce` | crates/restate-szamlazz/src/gateway.rs:1509-1523 | one permission consumed; at most one send, made if and only if the vendor replied to the leading query with code 7 (initial) or with the expected document, reversed (reissue), and the client does not refuse the request; every settled outcome is true of the send; an unsettled one keeps the caller from asking again |
| `CreateGateway.Gateway.CreateInner` | crates/restate-szamlazz/src/gateway.rs:1525-1556 | the leading reply decides: it goes on to the send if and only if the vendor replied with code 7 (initial) or showed the expected document of the order, kind and base, reversed (reissue), and then fails to send only when the client itself refuses; without a send each outcome is reported if and only if its reply was received, and a reissue never reports `Found` or `Reversed` before a send; the queries made are exactly the leading one and those after the send, by their selectors |
| `CreateGateway.Gateway.CreateSend` | crates/restate-szamlazz/src/gateway.rs:1558-1642 | of a send with no earlier one unresolved, the exact outcome for every reply, every reply to the read after it and every policy: an outcome that says nothing happened means the send created nothing and never will; no outcome carries the old reissue number; a duplicate refusal stays settled; any other uncertain reply keeps its own cause; at most one read by external id follows the send, and the order hint only after a duplicate refusal that found nothing held |
| `CreateGateway.Gateway.SettleUnconfirmed` | crates/restate-szamlazz/src/gateway.rs:1645-1690 | an uncertain send is settled if and only if the one read shows matching evidence, which is then its own document; a retaining policy returns the cause unread |
| `CreateGateway.Gateway.SettleDuplicate` | crates/restate-szamlazz/src/gateway.rs:1626-1639 | the exact report of a duplicate refusal with no earlier send unresolved: the refusal, with the number of the hint if and only if that is a live document of the kind, or under the immediate policy the collision read |
| `CreateGateway.Gateway.Reconcile` | crates/restate-szamlazz/src/gateway/recovery.rs:911-990 | positive evidence if and only if the read shows a matching holder other than the old target; it is then this send's document |
| `CreateGateway.Gateway.ProtectedCreate` | crates/restate-szamlazz/src/gateway/recovery.rs:705-731 | the protected call sends under the same guard and makes no read after an uncertain send |
| `CreateGateway.Gateway.SettleByEvidence` | crates/restate-szamlazz/src/gateway.rs:558-564 | the caller is free to ask again if and only if the read shows matching evidence, which is the document of its send |
| `CreateGateway.Gateway.SettleFailure` | crates/restate-szamlazz/src/gateway.rs:1587-1641 | a failed send under every policy: refusals only when the send did nothing, and with their own code; every other failure open with its cause unless evidence is read |
| `CreateGateway.Gateway.SettleAcknowledged` | crates/restate-szamlazz/src/gateway.rs:1563-1586 | a number is issued unless it echoes the old target; an echo or an unnumbered success stays open |
| `CreateGateway.ClassifiedUncertainty` | crates/restate-szamlazz/src/gateway.rs:2607-2626 | the classification of a failure agrees with what its reply leaves open, code by code |
| `ReplayGateway.ReplayCalls.CreateReplayEnabled` | crates/restate-szamlazz/src/gateway/recovery.rs:390-453 | while any number of earlier sends are unresolved: at most one more send, made if and only if a fresh query permits it and the guards saw nothing that competes, unless the client itself refuses it; only a document of some send of the operation is ever written, never the old target; every other result stays unresolved; starting with no send unresolved it overlaps nothing; each unresolved result names its reason, and every reply answers the query it should: the external id, then each other kind's, the named numbers and the order |
| `ReplayGateway.ReplayVendor.AlwaysOneLive` | crates/restate-szamlazz/src/gateway/recovery.rs:388-389 | whatever executions were made, while none asked with a send unresolved every moment had at most one live document of ours |
| `ReplayGateway.ReplayCalls.Guards` | crates/restate-szamlazz/src/gateway/recovery.rs:434-444 | the guards let pass if and only if nothing live they read under the order competes with the request and every document it settles was read live |
| `ReplayGateway.ReplayCalls.CheckKinds` | crates/restate-szamlazz/src/gateway/recovery.rs:455-528 | of every other kind but corrective a reply was received that is a miss or a document of that kind and order that does not compete; a final invoice names its prepayment and finds it live |
| `ReplayGateway.ReplayCalls.CheckReferences` | crates/restate-szamlazz/src/gateway/recovery.rs:530-574 | passes if and only if every prepayment and proforma the outbound create names was shown under its number, live, of its kind and on the order |
| `ReplayGuards.KindGuardDecides` | crates/restate-szamlazz/src/gateway/recovery.rs:497-526 | one turn of the kind guard lets pass exactly what does not compete |
| `ReplayGuards.GuardedKindsAreTheOthers` | crates/restate-szamlazz/src/gateway/recovery.rs:471-496 | the kinds read are all others but corrective, each once |
| `ReplayGuards.OtherGuardsDecide` | crates/restate-szamlazz/src/gateway/recovery.rs:576-612 | the order hint lets pass exactly a miss or a document that does not compete; the reference guards exactly the pinned documents, live |
| `ReplayGateway.ReplayCalls.SendAndSettle` | crates/restate-szamlazz/src/gateway.rs:1558-1642 | under the third policy a number is written as issued, kept duplicate evidence names a document of an earlier send, and a refusal speaks of this send only |
| `ReplayGateway.ReplayCalls.KeepDuplicateEvidence` | crates/restate-szamlazz/src/gateway.rs:1626-1639 | after a duplicate refusal with earlier sends unresolved, evidence is kept if and only if the read shows it, and is then a document of an earlier send |
| `ReplayGateway.DuplicateEvidenceKept` | crates/restate-szamlazz/src/gateway.rs:1626-1639 | the third policy keeps `Reconciled` or `Reversed` exactly when the diagnostic read matching evidence |
| `ReplayGateway.ReplayHolderDecides` | crates/restate-szamlazz/src/gateway/recovery.rs:406-432 | the fresh holder check lets a send follow under the leading condition only, and writes a holder exactly when it is matching evidence |
| `ReplayProtocol.EvidenceNamesASend` | crates/restate-szamlazz/src/gateway/recovery.rs:403-405 | with any number of sends unresolved, a newest holder of ours other than the expected old one is a document of one of them |
| `ReplayProtocol.EvidenceAfterRefusal` | crates/restate-szamlazz/src/gateway/recovery.rs:1017-1019 | after the last send was refused such a holder is a document of an earlier one |
| `ReplayProtocol.LiveDocumentsOfDifferentSends` | crates/restate-szamlazz/src/gateway/recovery.rs:388-389 | in every run live documents of ours and sends in flight together never exceed the sends, and live documents come from different sends |
| `ReplayProtocol.WithoutOverlapOneLive` | crates/restate-szamlazz/src/gateway/recovery.rs:388-389 | every run, initial or reissue and of any number of sends, in which no earlier send is unresolved when a fresh query permits the next, has at most one live document of ours at every moment |
| `ReplayProtocol.SafeExactlyWithoutOverlap` | crates/restate-szamlazz/src/gateway/recovery.rs:388-389 | after any run, one more execution whose query permits a send is safe in every continuation if and only if no earlier send is unresolved then |
| `ReplayProtocol.RefusalLeavesOpenWhatIsInFlight` | crates/restate-szamlazz/src/gateway/recovery.rs:1017-1019 | after the last send was refused, a send already made can still produce a document if and only if another one is in flight |
| `ReplayProtocol.ReplaySpentForever` | crates/restate-szamlazz/src/gateway/recovery.rs:1017-1019 | a refused send stays without effect through later executions |
| `ReplayProtocol.ReplayRisk` | crates/restate-szamlazz/src/gateway/recovery.rs:1017-1019 | both situations occur for every admitted operation, initial or reissue: a permitting query with an earlier send unresolved, after which two documents can be live, and a refused second send with the first still to land; the condition that excludes them is "no earlier send unresolved when the fresh query permits" |
| `CreateGateway.LeadingOutcome` | crates/restate-szamlazz/src/gateway.rs:1781-1823 | what the leading query settles, each outcome if and only if its condition was read: documents for an initial create, `LiveAgain` for the live target, collisions for holders that fail order, kind or base |
| `GatewayAnswers.SendGuard` | crates/restate-szamlazz/src/gateway.rs:1781-1823 | a send proceeds if and only if the vendor replied with code 7 (initial) or showed exactly the expected number, of the order, kind and base, reversed (reissue) |
| `GatewayAnswers.ReissueSettlesNothingElse` | crates/restate-szamlazz/src/gateway.rs:1795-1806 | before a send a reissue reports no holder as issued, and `LiveAgain` only of its target |
| `GatewayAnswers.DuplicateStaysSettled` | crates/restate-szamlazz/src/gateway.rs:1708-1766 | for all diagnostic answers and all policies a duplicate refusal keeps only the evidence the policy allows, never a credential failure, never a duplicate order on a corrective, never the old target |
| `GatewayAnswers.DuplicateDecided` | crates/restate-szamlazz/src/gateway.rs:1708-1766 | the exact report of a duplicate refusal for every reply to the diagnostic read and the hint and every policy: evidence, collision, live target or the refusal with the duplicate the hint names |
| `GatewayAnswers.QueryResultMeans` | crates/restate-szamlazz/src/gateway.rs:2534-2567 | each answer stands for exactly the replies that mean it: code 7 for absence, a document with a number and with the number asked for, credentials, passing trouble, other codes, unavailability, a lost reply |
| `GatewayAnswers.MatchesMeans` | crates/restate-szamlazz/src/gateway/recovery.rs:97-107 | a document is ours under the request if and only if order, type and referenced base agree field by field |
| `GatewayAnswers.ReconcileMeans` | crates/restate-szamlazz/src/gateway/recovery.rs:911-990 | what reconciliation concludes from each reply |
| `GatewayAnswers.ClassifiedRefusals` | crates/restate-szamlazz/src/gateway.rs:2607-2626 | a failed send is classified as refused if and only if the vendor's code is not open or nothing left the client |
| `Documents.AdmittedMeansIssuedIsEvidence` | crates/restate-szamlazz/src/gateway.rs:477-518 | a create request is admitted if and only if the document it issues is the one later reads accept as its evidence |
| `Documents.FirstDisagreement` | crates/restate-szamlazz/src/gateway.rs:477-518 | each refusal of a request is the first thing in which it disagrees with its outbound create |
| `StornoGateway.ReportsAgree` | crates/restate-szamlazz/src/gateway.rs:2064-2104 | in every run, with any calls and retries between: two reported reversals carry one number, and a send reported refused or a no-op is never the one that reverses |
| `StornoGateway.RefusedStornoStaysRefused` | crates/restate-szamlazz/src/gateway.rs:2151-2267 | a refused storno reverses nothing at any later moment of the run, later calls included |
| `StornoGateway.OneReversalInARun` | crates/restate-szamlazz/src/gateway.rs:2064-2104 | the assumption that an original is reversed at most once, carried along a run: all reversals true of it carry one number |
| `StornoGateway.OneSendReverses` | crates/restate-szamlazz/src/gateway.rs:2064-2104 | the same assumption, for sends: of all sends of a run, retries included, at most one ever reverses |
| `StornoGateway.StornoCalls.SettleFailure` | crates/restate-szamlazz/src/gateway.rs:2225-2265 | a failed storno is a refusal only when the send did nothing; any other failure is open unless the read shows the reversal |
| `StornoGateway.StornoCalls.SettleNumbered` | crates/restate-szamlazz/src/gateway.rs:2180-2224 | the exact report of a numbered reply: a changed number with a gross that is not positive is the reversal, the echo of the original a no-op or, protected, open, and any other number a reversal if and only if a read showed the storno of the original |
| `StornoGateway.StornoCalls.SettleUnnumbered` | crates/restate-szamlazz/src/gateway.rs:2161-2179 | an unnumbered reply completes as data on the unmanaged path and stays open on the protected one |
| `StornoGateway.StornoCalls.StornoSend` | crates/restate-szamlazz/src/gateway.rs:2151-2267 | the exact outcome for every reply and every read, unmanaged and protected: a reversal only with the number of the document that reversed the original; refusals and no-ops only when the send did nothing; an unnumbered unmanaged acknowledgement is always data; a protected send concludes only a reversal or a refusal; what earlier sends of the run were refused stays refused |
| `StornoGateway.StornoCalls.StornoInner` | crates/restate-szamlazz/src/gateway.rs:2117-2145 | a send if and only if the leading reply showed no storno of the original and the client does not refuse; otherwise the outcome that reply stands for; every reported reversal is real and none is undone |
| `StornoGateway.StornoCalls.VerifyReply` | crates/restate-szamlazz/src/gateway.rs:2273-2324 | a changed number is a reversal if and only if it or the external id shows the storno of the original; a notification failure stays with the acknowledged number |
| `StornoGateway.StornoCalls.StornoSettleOr` | crates/restate-szamlazz/src/gateway.rs:2329-2355 | one read after an uncertain storno: the reversal under the external id, or the cause, named with the failed read |
| `StornoGateway.StornoCalls.StornoSeen` | crates/restate-szamlazz/src/gateway.rs:2386-2411 | a holder is seen if and only if it is the storno of the original, which it then is; a stray holder and a miss pass |
| `StornoGateway.StornoCalls.VerifyOrderStorno` | crates/restate-szamlazz/src/gateway/recovery.rs:675-703 | evidence if and only if the candidate is the original's storno of this order and a fresh read shows the original reversed |
| `StornoGateway.StornoCalls.VerifyForOrder` | crates/restate-szamlazz/src/gateway/recovery.rs:843-892 | a candidate is verified if and only if it passes that rule and, under a pinned contract, a further read shows the pinned original with its id, fulfilment date and appearance; it then reversed the original |
| `StornoGateway.StornoCalls.ProtectedStorno` | crates/restate-szamlazz/src/gateway/recovery.rs:733-774 | it sends if and only if the external id is free and the client does not refuse; otherwise the outcome each reply stands for, a reversal only when the holder and a fresh read of the original establish it; it never concludes a no-op or an unnumbered reply |
| `StornoGateway.NotificationKept` | crates/restate-szamlazz/src/gateway.rs:2305-2322 | a reported notification failure stays with the exact acknowledged number |
| `StornoGateway.StornoMeans` | crates/restate-szamlazz/src/gateway/document.rs:204-211 | a document is the storno of the original if and only if number, type and reference agree field by field |
| `StornoGateway.StornoEnvironmentKeeps` | crates/restate-szamlazz/src/gateway.rs:2064-2104 | the vendor's world keeps one permanent reversal, and a spent storno stays spent |
| `ExactArithmetic.ExactMul` | crates/szamlazz-agent/src/number.rs:8-33 | the canonical decimal of the true product, or nothing exactly when no decimal stands for it |
| `ExactArithmetic.ExactDiv100` | crates/szamlazz-agent/src/number.rs:35-37 | the canonical decimal of one hundredth, or nothing exactly when there is none |
| `ExactArithmetic.ExactAdd` | crates/szamlazz-agent/src/number.rs:39-50 | the canonical decimal of the true sum, or nothing exactly when there is none |
| `ExactArithmetic.ExactCoefficient` | crates/szamlazz-agent/src/number.rs:52-61 | the canonical decimal of a coefficient over a power of ten, or nothing exactly when there is none |
| `ExactArithmetic.NoFactorOfTen` | crates/szamlazz-agent/src/number.rs:16-29 | when the cancelling loop stops with scale left, ten does not divide the product |
| `ExactArithmetic.OverflowingSum` | crates/szamlazz-agent/src/number.rs:43-49 | an alignment or sum beyond `i128` is never a representable sum |
| `Decimals.RepresentableFraction` | crates/szamlazz-agent/src/number.rs:52-61 | a fraction that cannot be shortened is representable if and only if its coefficient and scale fit |
| `NumberParser.Numeric` | crates/szamlazz-agent/src/number.rs:65-139 | nothing exactly outside the grammar; otherwise the exact decimal at its display scale, or an error exactly when there is none or a nonzero exponent overflows `i64` |
| `NumberParser.Store` | crates/szamlazz-agent/src/number.rs:115-126 | never more than 29 digits are built; the integer is stored if and only if it fits |
| `NumberParser.Parse` | crates/szamlazz-agent/src/number.rs:147-149 | succeeds exactly on representable numerals of the grammar and gives their value |
| `NumberGrammar.ScanText` | crates/szamlazz-agent/src/number.rs:66-83 | every well-formed literal is read back from its spelling |
| `NumberGrammar.ScanSound` | crates/szamlazz-agent/src/number.rs:66-83 | what is read is well formed and spells the text |
| `NumberTheorems.GrammarDecided` | crates/szamlazz-agent/src/number.rs:63-83 | a text is no number if and only if no well-formed literal is written that way |
| `NumberTheorems.AddressableTextsAreComplete` | crates/szamlazz-agent/src/number.rs:97-110 | for every text of at most 2^63 - 8 bytes reading succeeds if and only if the number is representable |
| `NumberTheorems.LengthDecidesCompleteness` | crates/szamlazz-agent/src/number.rs:97-110 | every representable numeral of a length is read if and only if the length is at most 2^63 - 8 |
| `NumberTheorems.LongTextsAreRefused` | crates/szamlazz-agent/src/number.rs:100-107 | beyond that there are representable numerals that are refused |
| `NumberTheorems.LongTextOfLength` | crates/szamlazz-agent/src/number.rs:100-107 | there is one of each length from 2^63 - 7 to the longest a string can have |
| `NumberTheorems.DisplayRoundTrip` | crates/szamlazz-agent/src/number.rs:127-136 | every decimal written in fixed point reads back as itself, scale included |
| `LineItems.TryCalculated` | crates/szamlazz-agent/src/item.rs:195-235 | the amounts are those of the calculation over the reals; each error is its first step without an exact decimal |
| `LineItemTheorems.AmountsAtScale` | crates/szamlazz-agent/src/item.rs:195-235 | net is the number of the given places nearest to price times quantity, VAT the nearest to the percentage of that net, ties away from zero and within half a unit, zero without a percentage; gross is their sum |
| `LineItemTheorems.ErrorsAreFirstSteps` | crates/szamlazz-agent/src/item.rs:195-235 | each error occurs if and only if its product, rate, percentage or sum is the first that no decimal stands for |
| `LineItemTheorems.PercentageOfNumeral` | crates/szamlazz-agent/src/item.rs:195-235 | an open token that spells a numeral, with spaces around it, is that percentage or an error |
| `LineItemTheorems.PercentageOfOthers` | crates/szamlazz-agent/src/item.rs:195-235 | any other token and every code has none |
| `LineItems.RoundDp` | crates/szamlazz-agent/src/item.rs:42-49 | the decimal nearest at the given places, half away from zero |
| `LineItemTheorems.RoundingIsNearest` | crates/szamlazz-agent/src/item.rs:11-22 | rounding answers the nearest unit, ties away from zero, within half a unit |
| `LineItemTheorems.RoundedAmountsReconcile` | crates/szamlazz-agent/src/item.rs:13-16 | gross is net plus VAT and none of the three has more decimals than asked for |
| `LineItemTheorems.NegatedQuantity` | crates/szamlazz-agent/src/item.rs:195-235 | negating the quantity negates all three amounts and keeps every error |
| `LineItemTheorems.UnroundedAmountsAreExact` | crates/szamlazz-agent/src/item.rs:27-33 | without rounding gross is price times quantity times one plus the rate |
| `Balance.Outstanding` | crates/restate-szamlazz/src/contract.rs:508-515 | gross minus all entries, present if and only if gross is known and every prefix sum and the difference are representable |
| `Balance.ExactAddKeepingScale` | crates/restate-szamlazz/src/contract/decimal.rs:21-40 | the library's sum if and only if it is exact |
| `Multipart.MultipartBoundary` | crates/szamlazz-agent/src/wire.rs:109-125 | the search ends with the first candidate that occurs in no payload; its counter is at most one or the payloads' size, so no word that counts their bytes overflows; below 2^64 bytes in all the boundary fits 70 bytes |
| `Multipart.ContainsMeans` | crates/szamlazz-agent/src/wire.rs:127-131 | bytes contain others exactly when the rest can be put around them, at either end too |
| `Multipart.UnusedCandidate` | crates/szamlazz-agent/src/wire.rs:119-122 | every payload leaves a candidate unused, within eleven times the base boundaries it has room for |
| `Multipart.BaseDoesNotOverlap` | crates/szamlazz-agent/src/wire.rs:119-122 | occurrences of the base boundary never overlap |
| `Multipart.WriteMultipart` | crates/szamlazz-agent/src/wire.rs:67-100 | the body is the delimited parts, under a boundary no payload holds |
| `Multipart.DispositionValueConcat` | crates/szamlazz-agent/src/wire.rs:102-107 | a header value is rewritten character by character |
| `Multipart.DispositionValueOfCharacter` | crates/szamlazz-agent/src/wire.rs:102-107 | line breaks vanish, quotes and backslashes are escaped, the rest stands |
| `MultipartDecoder.MultipartRoundTrip` | crates/szamlazz-agent/src/wire.rs:67-107 | a reader that cuts at delimiters and blank lines recovers exactly the parts written, in order |
| `MultipartDecoder.ContentsRecovered` | crates/szamlazz-agent/src/wire.rs:67-107 | the XML and every file come back byte for byte |
| `MultipartDecoder.WrittenBodyReadsBack` | crates/szamlazz-agent/src/wire.rs:67-107 | end to end: the body the writer returns reads back every part with its content, content type, name and filename |
| `MultipartDecoder.HeaderReadsBack` | crates/szamlazz-agent/src/wire.rs:82-88 | the name and filename of a header block read back up to their closing quotes |
| `MultipartDecoder.NoEarlierDelimiter` | crates/szamlazz-agent/src/wire.rs:67-107 | no delimiter stands in headers or content, nor across content and the next delimiter |
| `Identity.ComposeInjective` | crates/restate-szamlazz/src/identity.rs:776-826 | two external ids are written alike if and only if they are the same or the one accepted alias |
| `Identity.ReservedTokensAreNeeded` | crates/restate-szamlazz/src/identity.rs:466-468 | without the reserved tokens a corrective and an unmanaged storno would share an id |
| `Identity.ComposedLength` | crates/restate-szamlazz/src/identity.rs:835-864 | every id is at most 110 bytes |
| `Identity.NamespaceReadsBack` | crates/restate-szamlazz/src/identity.rs:714-721 | the namespace reads back from every id |
| `Identity.ParseNamespace` | crates/restate-szamlazz/src/identity.rs:81-97 | accepts exactly the valid namespaces, unchanged |
| `Identity.ParseOrderKey` | crates/restate-szamlazz/src/identity.rs:180-204 | accepts exactly the texts valid after trimming |
| `Identity.ParseCorrectionId` | crates/restate-szamlazz/src/identity.rs:450-470 | accepts exactly the pattern without reserved tokens |
| `Identity.ParseInvoiceNumber` | crates/restate-szamlazz/src/identity.rs:583-604 | accepts exactly the bounded numbers without spaces, controls or separator |
| `Identity.ParsedSegmentsMakeValidIds` | crates/restate-szamlazz/src/identity.rs:776-826 | ids composed of parsed segments are valid, so every theorem about ids holds of them |
| `Identity.ParsingIsStable` | crates/restate-szamlazz/src/identity.rs:180-204 | a parsed segment parses to itself |
| `Identity.WrittenKinds` | crates/restate-szamlazz/src/identity.rs:776-826 | the text of the ids of the four kinds of an order |
| `Identity.WrittenShapes` | crates/restate-szamlazz/src/identity.rs:776-826 | the text of corrective, storno, unmanaged storno and probe ids |
| `Identity.WrittenWordsAreReserved` | crates/restate-szamlazz/src/identity.rs:450-470 | every word ids write between segments is no correction id, in any letter case |
| `Identity.NamespaceRefusals` | crates/restate-szamlazz/src/identity.rs:81-97 | a namespace is refused for the first rule it breaks |
| `Identity.SegmentRefusals` | crates/restate-szamlazz/src/identity.rs:180-204 | an order key, trimmed, and an invoice number, as it stands, are refused for the first rule they break |
| `Identity.CorrectionRefusals` | crates/restate-szamlazz/src/identity.rs:450-470 | a correction id is refused for the first rule it breaks |
| `ErrorCodes.CodeRoundTrip` | crates/szamlazz-agent/src/error.rs:476-492 | parsing, printing and parsing again gives the same code for every text |
| `ErrorCodes.TablesAgree` | crates/szamlazz-agent/src/error.rs:226-327 | the printing and the parsing table agree on every named code |
| `ErrorCodes.LeadingZerosIgnored` | crates/szamlazz-agent/src/error.rs:476-479 | leading zeros never change a code |
| `ErrorCodes.ClassesOfFlags` | crates/szamlazz-agent/src/error.rs:338-442 | retryable codes leave the outcome open, credential codes are refusals |
| `ErrorCodes.OpenTexts` | crates/szamlazz-agent/src/error.rs:394-442 | exactly three named codes and every text the tables do not know leave an outcome open |
| `ErrorCodes.NumberOnTheWire` | crates/szamlazz-agent/src/error.rs:338-442 | for every number below 2^16, however it is written: duplicates are 71 and 152, absences 7 and 339, open 1, 55, 56 and every unlisted number, credentials 3, 135, 136 and 164, passing trouble 1 and 55, and the rest refusals |
| `ErrorCodes.NarrowMappingsAreConservative` | crates/restate-szamlazz/src/gateway.rs:1133-1145 | the deletion and credit-entry mappings settle no code the general table leaves open |
| `ErrorCodes.NarrowMappingsByNumber` | crates/restate-szamlazz/src/gateway.rs:1190-1210 | a deletion is settled by 335, credentials, 53 and 57 alone, a credit entry by credentials, 53, 57 and 463 alone |

## Left out

- ReplayGateway.ReplayCalls.CreateReplayEnabled: the order's other documents, which its guards read, are not part of the run; each read of them may answer anything.
- CreateGateway.Gateway.CreateSend: speaks of a send with no earlier one unresolved; the third policy's use with earlier ones is in `ReplayGateway`, and its pure decision in `GatewayAnswers.DuplicateStaysSettled`.
- The replay-enabled storno and deletion (`gateway/recovery.rs:318-386`): the same reads and the same send as `ProtectedStorno` under a marker.
- The lookup step with its foreign-document check, proforma deletion and credit-entry registration: short sequences of the same reads and matches.
- Durable markers of an order: a protected call is modelled from its leading query on.
- StornoGateway.StornoCalls.StornoSend: the storno needs no permission, so there is no bound on the sends of a run; at most one of them reverses.
- CreateGateway.Gateway.CreateOnce: diagnostic texts, logging and account credentials are not modelled; a code is kept, its message is not.
- Decimals: the sign of zero is not represented; the library compares it equal to zero.
- NumberParser.Numeric: which of the library's error variants a refusal carries is computed but not specified.
- NumberParser.Numeric: texts are character sequences; a byte outside ASCII and a character outside ASCII are refused alike.
- MultipartDecoder.MultipartRoundTrip: asks that the operation name holds no carriage return, and `WrittenBodyReadsBack` no quote either, as the fixed names of all operations do; the name is written without escaping.
- Identity: Unicode NFC is an abstract predicate.
- HTTP transport, cookies, retries, configuration, JSON schemas, the archive and the command line: input and output over libraries.
