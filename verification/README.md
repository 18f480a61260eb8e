# A checked model of the commerce orchestrator

This project models the parts of the orchestrator whose behaviour is hardest to see from
reading one function, and proves what they keep over every input and every run:

- **HTTP message signatures** (`Text`, `Decimal`, `Base64`, `Dictionary`, `DictionaryGrammar`,
  `SignatureParams`, `ParameterGrammar`, `MessageSignatures`, `SignatureVerdicts`, `SignatureRoundTrip`,
  `SignatureAuthenticity`): the signer's printer, the structured-field scanner, the parameter parser,
  the label loop of the verifier and the body digest (RFC 9421, RFC 8941, RFC 9530, RFC 4648). The two
  grammars and the verdicts say of texts and parameters alone what the parsers read and what the verifier
  answers. The signature algorithms and the hash are parameters; what they promise (`Sound`, `Binding`,
  `Genuine`) appears as an explicit hypothesis.
- **Carts** (`CartModel`, `StateMachines`, `CartEngine`, `CartInvariants`, `CartOutcomes`, `CartRunner`,
  `CartHistory`, `CartInterleavings`, `CartPut`): cart commands over the event log, snapshot and state stores, histories
  that mix them with the re-priced snapshots checkout stores, commands between any two steps of running
  checkouts, and the PUT handler that replaces a cart's lines one command at a time. `CartRunner.Runner`
  is the runner as it executes, store by store; `CartEngine` is the specification it is proved equal to.
- **Checkout** (`Idempotency`, `Checkout`, `CheckoutSafety`, `CheckoutAnswers`, `CheckoutOutcomes`,
  `CheckoutHistory`, `CheckoutRecords`, `CheckoutRunner`, `ReservationStates`): one call is a machine whose steps are its store and provider
  calls. Any number of calls run interleaved, with arbitrary provider answers, store failures (before or
  after taking effect), process deaths, and other parties editing carts and reservations in between.
  `CheckoutRunner.Runner` is the same call as the runner executes it, statement by statement on the
  in-memory idempotency store, proved to be a solo run of that machine.
- **Outbox delivery** (`OutboxStores`, `DeliveryProtocol`, `OutboxContents`, `OutboxRunner`, `InProcessQueue`,
  `OutboxProcessor`): the leased table with several workers, crashes and operator replay, with the
  runner's own calls proved to be undisturbed runs of that protocol; and the in-process queue with its
  processing loop.
- **Circuit breaker and retries** (`CircuitBreaker`, `RetryClient`, `RetryVerdicts`, `GuardedClient`): the
  breaker, the attempt loop, and the loop running on a breaker that other callers use at the same time.
- **Indexes checked against a simpler thing** (`Mandates`, `Reservations`): the pruned replay map
  against the whole history, and the text-keyed reservation store against the pair-keyed one.

Where the source changes state step by step, the model does too: classes with `modifies` clauses and
loops with invariants, each proved equal to a function of its input or of the old state. Laws are
then lemmas about those functions, and so hold of the methods.

Providers, clocks and networks are parameters: each call or step takes the answer it gets, and every
theorem holds for all answers.

## Where the code and its intentions part

Each of these has a concrete run or input that fails, and the exact condition under which the code does
what it is for.

- Nothing is lost from the outbox, except by replay: taking a dead letter and putting it back are two
  store calls, and so are a burial's put and its acknowledgement. `DeliveryProtocol.ReplayDuringBurialLoses`
  shows a loss, `DeliveryProtocol.NoLossExactly` names the only two losing steps, and
  `DeliveryProtocol.CarefulReplayKeepsAll` shows that replay in one go, and not during a burial of that
  message, suffices.
- A lease keeps other workers away exactly as long as no claim reaches for a message whose live holder
  is past its lease or has had its message enqueued over (`DeliveryProtocol.LeaseExclusionExactly`);
  workers that settle or die in time are one case (`DeliveryProtocol.LeaseExclusion`), and
  `DeliveryProtocol.OverstayedLeaseIsShared` shows a late one.
- The event log rebuilds the snapshot exactly when no change to the cart was stopped part-way by a
  failing provider (`CartHistory.LogRebuildsSnapshot`); each one that was leaves the log one version
  ahead, as when the tax provider is down while an item is added (`CartHistory.StalledAddDisagrees`).
- A failed command leaves the snapshots alone, except that starting checkout on a cart already ready or
  cancelled, or cancelling a cancelled one, has stored the new status before the state machine refuses
  (`CartInvariants.FailureAndSnapshots`; starting twice in `CartHistory.SecondStartChangesSnapshot`).
- A failing checkout gives its idempotency key back only if settling the cart failed and the release took
  effect, or if the claim itself never did (`CheckoutOutcomes.FailedCallKey`). A reservation that fails
  before any payment does not (`CheckoutOutcomes.FailedReservationStrands`). The events that leave a key
  in flight for ever are named by `CheckoutOutcomes.AbandonedExactly`; nothing more happens under such a
  key (`CheckoutOutcomes.StrandedForEver`).
- A checkout stores the cart it loaded, whatever happened to it since: a cart cancelled in between is
  stored as a draft again, and its checkout goes on (`CartInterleavings.CancelledCartIsRevived`). Stored carts still
  balance (`CartInterleavings.EveryStoredCartBalances`), and their logs rebuild them, tax included, throughout exactly
  when no change stalls and no such save happens (`CartInterleavings.LogRebuildsExactly`).
- A mandate can be accepted twice if the clock steps back (`Mandates.ClockStepBackReplays`);
  `Mandates.AcceptedExactly` says for any clock when the map accepts, and `Mandates.AcceptedTwiceExactly`
  when a mandate is accepted more than once.
- A signature base determines its message among messages with plain values
  (`SignatureAuthenticity.SignatureBaseInjective`). Under one parameter string, and so one covered list,
  other values give the same base exactly when some value contains a line break followed by its own
  header, unless it comes first, or by the next one's, unless it comes last
  (`SignatureAuthenticity.SecondReadingExactly`, and `SignatureAuthenticity.SecondMessageExactly` for
  whole messages; two that share a base in `SignatureAuthenticity.LineBreakBreaksInjectivity`).
- A kid is printed as it is. It comes back exactly when it is not empty, has no semicolon and scans as the
  inside of one quoted string (`SignatureRoundTrip.KidSurvivesExactly`); no signature is ever accepted for
  an empty kid or one with a semicolon (`SignatureRoundTrip.AcceptedKidIsPlain`).

One more difference is only one of wording:

- The processor's configuration describes `max_attempts` as the deliveries before a message is
  dead-lettered (`crates/orchestrator-runtime/src/outbox_processor.rs:22-23`); the code makes one more.
  The model follows the code: exactly `max_attempts + 1` failures (`InProcessQueue.ExactBudget`).

## Model

| member | source | states |
|---|---|---|
| Decimal.ParsePrinted | crates/orchestrator-api/src/signing.rs:733-737 | a printed 64-bit integer parses back to itself, sign included |
| Decimal.ParseI64Exactly | crates/orchestrator-api/src/signing.rs:733-737 | the signed parser accepts exactly an optional sign, any zeros and a printed number of 64 bits, and as that number |
| Decimal.ParseU64Printed | crates/integration-adapters/src/client.rs:120-126 | the unsigned parser accepts a printed number, with or without a plus sign and leading zeros, if and only if it fits 64 bits |
| Decimal.ParseU64Only | crates/integration-adapters/src/client.rs:120-126 | whatever the unsigned parser accepts is such a text of the number it returns |
| Base64.DecodeEncode | crates/orchestrator-api/src/signing.rs:796-800 | decoding an encoding returns the bytes, for every byte string (section 4 of RFC 4648) |
| Base64.EncodeDecode | crates/orchestrator-api/src/signing.rs:796-800 | whatever decodes is the canonical encoding of its bytes, so decoding is injective |
| Base64.SymbolsAreStandard | crates/orchestrator-api/src/signing.rs:796-800 | the 64 symbols are those of table 1 of RFC 4648, in its order |
| Base64.EncodeSamples | crates/orchestrator-api/src/signing.rs:796-800 | f, fo and foo are encoded as section 10 of RFC 4648 encodes them |
| Dictionary.ParseDictionary | crates/orchestrator-api/src/signing.rs:755-793 | the character scanner with its four flags computes the dictionary parse, including both error cases |
| Dictionary.CollectMembers | crates/orchestrator-api/src/signing.rs:781-792 | the member loop returns every key and value in order or the first member without an equals sign |
| Dictionary.EscapedOnlyInString | crates/orchestrator-api/src/signing.rs:758-776 | an escape is pending only inside a quoted string, at every point of every scan |
| Dictionary.ParseAppended | crates/orchestrator-api/src/signing.rs:755-793 | after a well-formed field, a comma, a blank and more text parse to the first field's members followed by exactly what the rest gives on its own, good or bad |
| Dictionary.JoinedFieldsParse | crates/orchestrator-http/src/signing.rs:210-218 | repeated header lines joined by comma and blank parse to the members of all lines in order (section 4.2 of RFC 8941) |
| Dictionary.ParsePrinted | crates/orchestrator-api/src/signing.rs:755-793 | printing balanced members and parsing the text returns exactly those members |
| DictionaryGrammar.FieldsParse | crates/orchestrator-api/src/signing.rs:755-793 | a header is cut exactly at its outer commas: plain characters, quoted strings with escapes, byte sequences and nested lists keep their commas, quotes, colons and parentheses |
| DictionaryGrammar.UnbalancedExactly | crates/orchestrator-api/src/signing.rs:776-780 | such fields followed by opened lists and perhaps an unfinished string or byte sequence are refused as unbalanced exactly when something is left open |
| DictionaryGrammar.MemberExactly | crates/orchestrator-api/src/signing.rs:782-793 | blank members vanish, one with an equals sign is its key and value without the blanks around them, and any other is refused by its text before what follows is read |
| SignatureParams.ParseSignatureParams | crates/orchestrator-api/src/signing.rs:697-751 | the two parsing loops compute the specified parse, with each malformed input giving its own error |
| SignatureParams.ParseShown | crates/orchestrator-api/src/signing.rs:356-367 | the parameters the signer prints parse back to the covered names, created, expires and keyid it was given, for every kid that is not empty and has no semicolon |
| SignatureParams.ParsedNamesAreWords | crates/orchestrator-api/src/signing.rs:697-715 | covered names that come out of the parser contain no white space, for any header |
| ParameterGrammar.ParametersExactly | crates/orchestrator-api/src/signing.rs:724-746 | parameters are read as a record if and only if each known one is of its kind and each field is that of the last parameter of its name; other names and blank parameters say nothing |
| ParameterGrammar.FirstBadDecides | crates/orchestrator-api/src/signing.rs:724-746 | otherwise the error names the first known parameter that is not of its kind |
| ParameterGrammar.MemberExactly | crates/orchestrator-api/src/signing.rs:697-751 | a member is read as a record if and only if it is a list of quoted names up to the first closing parenthesis and parameters that say the record, with a keyid that is not empty |
| MessageSignatures.BuildSignatureBase | crates/orchestrator-api/src/signing.rs:483-499 | the string-building loop computes the signature base or names the first absent component |
| SignatureVerdicts.BaseExactly | crates/orchestrator-api/src/signing.rs:483-499 | the signed text is a quoted name, a colon, a blank, the value and a line break for each covered component in order, and then the parameters under their own name (section 2.5 of RFC 9421) |
| SignatureVerdicts.AbsentIsNamed | crates/orchestrator-api/src/signing.rs:488-496 | without some covered component the first absent one is named |
| MessageSignatures.VerifyMessage | crates/orchestrator-api/src/signing.rs:613-640 | the label loop computes the verifier's specification, including which error is reported; what that specification answers is characterised in `SignatureVerdicts` |
| MessageSignatures.VerifyFromOutcome | crates/orchestrator-api/src/signing.rs:613-640 | acceptance means some label verifies and all earlier ones fail; a rejection carries the error of the first label |
| MessageSignatures.FirstMissing | crates/orchestrator-api/src/signing.rs:651-653 | no component is reported missing exactly when all required ones are covered, and a reported one is required and uncovered |
| SignatureVerdicts.AcceptedExactly | crates/orchestrator-api/src/signing.rs:642-684 | a label is accepted for a kid if and only if its parameters name it, cover what is required, are neither stale nor expired, name no algorithm or the key's own, and the carried bytes verify for the base under the first key the ring holds for that kid |
| SignatureVerdicts.RefusedEarlyExactly | crates/orchestrator-api/src/signing.rs:650-662 | the first required component not covered, staleness with its skew, and expiry are each reported exactly when they are the first thing wrong |
| SignatureVerdicts.UnknownKidExactly | crates/orchestrator-api/src/signing.rs:663-668 | past those checks an unknown kid is reported exactly when the ring holds no key under it |
| SignatureVerdicts.RefusedByKeyExactly | crates/orchestrator-api/src/signing.rs:669-684 | with a key found: a foreign algorithm, missing bytes, an absent component and a failed verification are each reported exactly when they are the next thing wrong |
| SignatureVerdicts.AcceptedAlgorithm | crates/orchestrator-api/src/signing.rs:669-673 | whenever a message is accepted for a kid, some member names that kid and either no algorithm or that of the key found for it |
| SignatureVerdicts.SignAnyThenVerify | crates/orchestrator-api/src/signing.rs:613-684 | a genuine signature under any parameters that parse and stand alone is answered with its kid, or with the first of coverage, staleness, expiry and foreign algorithm that applies |
| SignatureVerdicts.SignNamingThenVerify | crates/orchestrator-api/src/signing.rs:669-673 | in particular one that names an algorithm is accepted exactly when it is the key's own, and otherwise refused as that unsupported algorithm |
| SignatureVerdicts.ByteSequenceExactly | crates/orchestrator-api/src/signing.rs:796-800 | a value carries bytes exactly when, blanks aside, it starts with a colon, their encoding and a colon |
| SignatureVerdicts.ShownForm | crates/orchestrator-api/src/signing.rs:356-367 | the parameters print character for character as the quoted names, created, keyid and, if there is one, expires |
| SignatureVerdicts.DigestExactly | crates/orchestrator-api/src/signing.rs:508-520 | a digest header is accepted if and only if its first sha-256 member carries the hash of the body; a readable one is otherwise a mismatch |
| SignatureRoundTrip.SignThenVerify | crates/orchestrator-api/src/signing.rs:348-375 | for every kid that survives printing, a keyring holding its public key answers the printed headers with that kid, or with exactly the coverage, staleness or expiry error the request deserves |
| SignatureRoundTrip.KidSurvivesExactly | crates/orchestrator-api/src/signing.rs:356-367 | the printed headers read back as one member with the signed fields exactly when the kid is not empty, has no semicolon and scans as the inside of one quoted string |
| SignatureRoundTrip.AcceptedKidIsPlain | crates/orchestrator-api/src/signing.rs:697-751 | no signature, whatever its headers, is accepted for an empty kid or one with a semicolon |
| SignatureRoundTrip.SignatureAmongOthers | crates/orchestrator-http/src/signing.rs:210-218 | a genuine signature is still accepted when other parseable signatures stand in front of it on joined header lines, and for its own kid when none of them verifies |
| SignatureRoundTrip.BaseExists | crates/orchestrator-api/src/signing.rs:483-499 | signing fails exactly when a covered component is absent |
| SignatureRoundTrip.ContentDigestMatches | crates/orchestrator-api/src/signing.rs:503-520 | a printed body digest matches a body exactly when the two hashes are equal |
| SignatureAuthenticity.SignatureBaseInjective | crates/orchestrator-api/src/signing.rs:483-499 | equal bases of messages with plain values, one-line values among them, force the same names in the same order, the same values and the same parameters (section 2.5 of RFC 9421) |
| SignatureAuthenticity.SecondReadingExactly | crates/orchestrator-api/src/signing.rs:483-499 | for one covered list and parameters, other values give the same base exactly when some value contains a line break followed by its own header, unless first, or by the next one's, unless last |
| SignatureAuthenticity.SecondMessageExactly | crates/orchestrator-api/src/signing.rs:483-499 | with distinct covered names, another message with other values shares the base under the same parameters exactly when some value is ambiguous in that way |
| SignatureAuthenticity.LineBreakBreaksInjectivity | crates/orchestrator-api/src/signing.rs:490-497 | with a line break inside a value, two different messages share a base under one covered list and any parameters |
| SignatureAuthenticity.AcceptedMeansSigned | crates/orchestrator-api/src/signing.rs:613-684 | if what the arriving signatures verify was signed by the key's holder, any accepted headers come from a message that holder signed, equal on every required component, under that kid and in time |
| SignatureAuthenticity.SignedHeadersAreGenuine | crates/orchestrator-api/src/signing.rs:348-375 | headers printed by a signer whose signatures verify for their own text and no other meet that hypothesis |
| SignatureAuthenticity.SignedAcceptedAndVouched | crates/orchestrator-api/src/signing.rs:348-375 | for such a key both results hold at once: the printed headers are accepted for its kid, and the message that was signed vouches for them |
| CartModel.DiscountIsExactSumClamped | crates/orchestrator-core/src/discount.rs:23-29 | the saturating fold is invisible once clamped: the result is the exact sum of positive discounts cut off at what is owed, and never negative |
| CartModel.RepriceLines | crates/orchestrator-runtime/src/runner.rs:1019-1079 | the price loop and the subtotal loop compute the repriced lines and their sum |
| CartModel.PricesLandOnTheirLines | crates/orchestrator-runtime/src/runner.rs:1160-1174 | every line ends with the last price named for it, everything else about it unchanged |
| CartModel.PricingKeepsSkeleton | crates/orchestrator-runtime/src/runner.rs:1019-1079 | repricing keeps line identifiers, order, quantities and distinctness |
| CartOutcomes.SubtotalAdds | crates/orchestrator-runtime/src/runner.rs:1042 | subtotals add up over parts of a cart, and a line counts its own total |
| CartOutcomes.ExactDiscountAdds | crates/orchestrator-core/src/discount.rs:23-29 | exact discounts add up over parts, counting positive amounts only |
| StateMachines.CompletionIsUnique | crates/orchestrator-core/src/state_machine.rs:91-111 | every event sequence that ends in Completed is the remainder of the one completion order |
| StateMachines.ReachedExactly | crates/orchestrator-core/src/state_machine.rs:91-111 | a checkout stands at a place of the way to completion exactly when its events are the completion order up to there |
| StateMachines.FailedExactly | crates/orchestrator-core/src/state_machine.rs:91-111 | it is rejected exactly by a Reject before it is taxed, fails authorization exactly right after the address check, and fails to commit exactly right after the authorization |
| CartRunner.Runner.TransitionCart | crates/orchestrator-runtime/src/runner.rs:1081-1090 | moves the stored state by the lifecycle table or fails leaving every store as it was |
| CartRunner.Runner.MutateAndRecalculate | crates/orchestrator-runtime/src/runner.rs:1019-1079 | the staged change with its early returns leaves exactly the specified log, state and snapshot for each provider failure; what a success stores is in `CartOutcomes.ChangeOutcome` |
| CartRunner.Runner.ChangeCart | crates/orchestrator-runtime/src/runner.rs:287-477 | item, adjustment and fulfillment commands leave exactly the specified stores and result; what they store and when they fail is in `CartOutcomes` |
| CartRunner.Runner.DispatchCartCommand | crates/orchestrator-runtime/src/runner.rs:239-527 | every command leaves exactly the specified stores and result |
| CartOutcomes.ChangeOutcome | crates/orchestrator-runtime/src/runner.rs:287-392 | a successful item or adjustment change stores exactly the edited cart with every line at its last named price, subtotal their sum, tax as answered, discount none without codes and else the exact positive sum up to what is owed, and total and address verdict to match, and logs the edit and the three stages |
| CartOutcomes.SelectionOutcome | crates/orchestrator-runtime/src/runner.rs:393-477 | a successful fulfillment selection replaces the method of its type and leaves nothing else but amount, discounts, total, verdict and version changed |
| CartOutcomes.StatusOutcome | crates/orchestrator-runtime/src/runner.rs:239-527 | creation, reading, starting checkout and cancelling succeed with exactly this cart and these snapshots |
| CartOutcomes.FailureReasons | crates/orchestrator-runtime/src/runner.rs:239-527 | an incomplete command, a change without a cart, an unknown cart and a stale version are each reported exactly when they are the first thing wrong |
| CartOutcomes.ChangeFailsExactly | crates/orchestrator-runtime/src/runner.rs:1019-1079 | past its checks and unless the cart is stuck, a change succeeds exactly when every provider it asks answers, and else fails with the first missing answer of price, tax, discount and address |
| CartOutcomes.SelectionFailsExactly | crates/orchestrator-runtime/src/runner.rs:393-477 | a selection fails exactly on an unknown line, a failed quote, an option not on offer, a failed discount answer with codes, or a failed address check, in this order |
| CartHistory.EveryStoredCartBalances | crates/orchestrator-runtime/src/runner.rs:239-527 | after any commands and checkouts with any answers and failures, each stored cart has subtotal the sum of its lines, total consistent, discount between zero and what is owed, distinct lines and methods, and the selected option's fulfillment amount |
| CartHistory.LogRebuildsSnapshot | crates/orchestrator-runtime/src/events.rs:7-41 | in every history of commands and checkouts, folding a cart's events rebuilds lines, quantities, codes, fulfillment, status and version exactly when no change to it got past its checks and was then stopped by a failing provider; otherwise the log is ahead by one version for each |
| CartHistory.AnsweredHistoryAgrees | crates/orchestrator-runtime/src/runner.rs:1019-1079 | while pricing, tax, discount and geo providers answer, log and snapshot always agree, checkouts included |
| CartHistory.StalledAddDisagrees | crates/orchestrator-runtime/src/runner.rs:1019-1079 | a tax provider that is down while an item is added leaves the snapshot at version 1 and the log at version 2 |
| CartHistory.SettleKeeps | crates/orchestrator-runtime/src/runner.rs:1099-1174 | settling a cart for checkout keeps every cart invariant and writes no event |
| CartHistory.SettledIsMachine | crates/orchestrator-runtime/src/runner.rs:1099-1153 | the checkout machine's loading, re-pricing and saving change the snapshots exactly as settling does in these histories |
| CartHistory.SettleOutcome | crates/orchestrator-runtime/src/runner.rs:1099-1174 | settling stores the loaded cart recomputed from the answered prices, tax, discounts and address verdict exactly when it gets as far as saving, and otherwise nothing |
| CartHistory.StoredTaxIsLastAnswer | crates/orchestrator-runtime/src/runner.rs:1049-1050 | in every history the stored tax of a cart is the last one the tax provider answered for a change or checkout that was stored |
| CartHistory.OnlyCancelledIsBlocked | crates/orchestrator-core/src/state_machine.rs:29-54 | while no change stalls, a cart refuses changes exactly when it is cancelled |
| CartInvariants.DispatchUnfinished | crates/orchestrator-runtime/src/runner.rs:239-527 | a command leaves one more unfinished change in a cart's log exactly when it reaches re-pricing there and a provider fails, and otherwise none |
| CartInvariants.CheckoutRepricingKeeps | crates/orchestrator-runtime/src/runner.rs:1099-1174 | storing any balanced cart with the same contents keeps all cart invariants and the agreement of log and snapshot; settling is shown to store such a cart |
| CartInvariants.FailureAndSnapshots | crates/orchestrator-runtime/src/runner.rs:495-523 | a failing command changes the snapshots exactly when it starts checkout, at the stored version, on a cart already ready or cancelled, or cancels a cancelled one |
| CartHistory.SecondStartChangesSnapshot | crates/orchestrator-runtime/src/runner.rs:495-505 | starting checkout twice: the second command fails and the stored version still goes from 2 to 3 |
| CartInterleavings.EveryStoredCartBalances | crates/orchestrator-runtime/src/runner.rs:1099-1153 | also when commands run between the steps of any number of checkouts, load and save included, every stored cart has its sums, distinct lines and methods and the selected option's fulfillment amount |
| CartInterleavings.LogRebuildsExactly | crates/orchestrator-runtime/src/runner.rs:1099-1153 | in every such run each cart's log rebuilds its snapshot, tax included, at every point exactly when no change is stopped part-way by a failing provider and no checkout stores a cart that was changed after it was loaded |
| CartInterleavings.CancelledCartIsRevived | crates/orchestrator-runtime/src/runner.rs:1135-1141 | a seven-step run in which a cart cancelled during its checkout is stored as a draft at its old version and the checkout goes on to reserve |
| CartInterleavings.CheckoutOnceBesideCommands | crates/orchestrator-runtime/src/runner.rs:529-743 | beside any commands, the effects under one key are still a beginning of one checkout |
| CartInvariants.BlockedExactly | crates/orchestrator-core/src/state_machine.rs:29-54 | an item or adjustment command meets a refused transition exactly when it passes its own checks and the cart was left between stages or is cancelled; from there none succeeds and none changes snapshot, log or state |
| CartPut.UpdateCart | crates/orchestrator-http/src/routes/v1.rs:210-278 | on success the remove loop and the update-or-add loop leave the requested replacement and a version grown by removals plus requested lines; on failure exactly the commands up to and including the one that failed took effect; a foreign or unknown cart is refused untouched |
| CartPut.RemoveUnmentioned | crates/orchestrator-http/src/routes/v1.rs:236-247 | the first loop keeps exactly the requested lines, in their old order, one version per removal, or stops at the first removal that fails |
| CartPut.UpdateOrAdd | crates/orchestrator-http/src/routes/v1.rs:249-275 | the second loop gives each kept line its last requested quantity and appends one new line per entry without identifier, or stops at the first command that fails |
| CartPut.ReplacementContents | crates/orchestrator-http/src/routes/v1.rs:210-278 | a replacement is the pre-existing requested lines with their last requested quantity, none missing, then fresh lines in request order |
| CartPut.RemovalIsLogged | crates/orchestrator-http/src/routes/v1.rs:236-247 | after a successful request the log goes on with removals, each of a line that was not requested |
| CartPut.GoneIsLogged | crates/orchestrator-http/src/routes/v1.rs:236-247 | and every line that was not requested has such a removal |
| CartPut.ItemIsLogged | crates/orchestrator-http/src/routes/v1.rs:249-275 | then come the requested lines in order, each as its new quantity or as an addition by the item and in the quantity asked for |
| CartPut.DispatchForTenant | crates/orchestrator-api/src/facade.rs:202-232 | a command for a cart of another tenant is refused and changes nothing; any other leaves exactly what the plain command leaves, success or failure |
| Idempotency.InMemoryIdempotencyStore.Claim | crates/orchestrator-runtime/src/idempotency.rs:63-72 | returns the state found or takes the key, never both |
| Idempotency.InMemoryIdempotencyStore.Release | crates/orchestrator-runtime/src/idempotency.rs:82-88 | drops an unfinished claim and never a completed one |
| CheckoutSafety.CheckoutOnce | crates/orchestrator-runtime/src/runner.rs:529-743 | in every interleaving the effects under one key are a beginning of one checkout: authorize, commit, capture, order, message |
| CheckoutSafety.AtMostOneOfEach | crates/orchestrator-runtime/src/runner.rs:529-743 | under one key at most one call of each kind is made, each only after all before it |
| CheckoutSafety.ResultMatchesEffects | crates/orchestrator-runtime/src/runner.rs:584-743 | a recorded result says exactly which effects happened, in order, for the amount it names |
| CheckoutAnswers.ResultMatchesAnswers | crates/orchestrator-runtime/src/runner.rs:584-743 | whatever is interleaved, the answers given to calls under a completed key are exactly those its result stands for: the policy's verdict, the payment answer with its reference, the capture, and the receipt, each asked once, in this order |
| CheckoutAnswers.StatusExactly | crates/orchestrator-runtime/src/runner.rs:584-641 | a key completes as rejected exactly when the policy refused its cart, as unauthorized exactly when the payment was declined, and as completed exactly when it was approved |
| CheckoutAnswers.EffectsWereApproved | crates/orchestrator-runtime/src/runner.rs:611-689 | a commit under a key carries the reference of an approval given to a call under that key, and captures, orders and messages come only with one |
| CheckoutAnswers.PolicyIsPermission | crates/orchestrator-core/src/policy.rs:23-49 | the policy refuses exactly a total above the maximum, a blocked country in any letter case, or a missing required reference |
| CheckoutRecords.PaidCartWasRepriced | crates/orchestrator-runtime/src/runner.rs:1099-1174 | a call that reserves or pays has, in this order, loaded the requested cart, recomputed it from the answered prices, tax, discounts and verdict, and stored the outcome, which is the cart it holds |
| CheckoutRecords.LinesWereReserved | crates/orchestrator-runtime/src/runner.rs:560-569 | a call that pays has reserved each line of its cart: its item, in its quantity |
| CheckoutRecords.CompletionFinalizes | crates/orchestrator-runtime/src/runner.rs:720-724 | whenever a key is completed by a purchase, some step under it finalized every reservation of its cart |
| CheckoutRecords.IdentifiersAreFresh | crates/orchestrator-runtime/src/runner.rs:642-689 | no two commits share a transaction identifier and no two orders an order identifier, across all keys |
| CheckoutRecords.PaymentStatesMatchResults | crates/orchestrator-runtime/src/runner.rs:736-743 | every payment state on record is that of a recorded result |
| CheckoutSafety.RepricingRecomputes | crates/orchestrator-runtime/src/runner.rs:1160-1174 | checkout re-pricing succeeds exactly when prices, tax and, with codes, discounts are answered, and then gives the cart recomputed from these answers |
| CheckoutSafety.CompletedForEver | crates/orchestrator-runtime/src/idempotency.rs:61-89 | once completed, a key keeps the same result through every later run |
| CheckoutSafety.AnswersAgree | crates/orchestrator-runtime/src/runner.rs:533-548 | any two calls with the same key that return a result return the same one, the recorded one |
| CheckoutHistory.RepeatedCallReturnsResult | crates/orchestrator-runtime/src/runner.rs:533-548 | whatever is interleaved after a key was completed, a call under it that has yet to claim or to arrive ends with the recorded result or dies, and nothing more is done under the key |
| CheckoutHistory.RepeatedCallFinishes | crates/orchestrator-runtime/src/runner.rs:533-548 | such a call has the recorded result as soon as it takes a step, unless its process dies |
| CheckoutSafety.PaidCartIsSettled | crates/orchestrator-runtime/src/runner.rs:1099-1153 | whoever reserves or pays holds a balanced cart with the requested version, its owner, an allowed destination and a total equal to the payment intent |
| CheckoutHistory.StoredTotalIsPaid | crates/orchestrator-runtime/src/runner.rs:1138-1153 | whenever a call is reserving or paying, an earlier step of its own stored exactly the cart it holds, allowed and at exactly the requested amount |
| CheckoutHistory.EffectsCarryRequestedAmount | crates/orchestrator-runtime/src/runner.rs:529-743 | every authorization, capture and order under a key carries the amount of a request made under that key, whatever became of the calls |
| CheckoutHistory.RefusalReleasesReservations | crates/orchestrator-runtime/src/runner.rs:584-638 | whenever a call has returned a rejected or unauthorized result, the run contains the step that released all reservations of the refused cart, and they are all Released until something touches them again |
| CheckoutSafety.RefusalLeavesNothing | crates/orchestrator-runtime/src/runner.rs:584-638 | a rejected or unauthorized result has no commit, capture, order or message under its key |
| CheckoutOutcomes.FailedCallKey | crates/orchestrator-runtime/src/runner.rs:550-743 | a failing call leaves its key absent, and clean, exactly when the release after a failed settle took effect or the claim never did; completed exactly when recording took effect; as it was when another call held it; and otherwise abandoned |
| CheckoutOutcomes.ReleasingExactly | crates/orchestrator-runtime/src/runner.rs:550-558 | a call sets out to give its key back exactly when settling its cart fails, and at no other point |
| CheckoutOutcomes.FailedReservationStrands | crates/orchestrator-runtime/src/runner.rs:560-569 | a seven-event run in which a reservation fails before any payment and the key stays in flight for ever |
| CheckoutOutcomes.StrandedExactly | crates/orchestrator-runtime/src/runner.rs:529-743 | an event leaves a key in flight with nobody working on it exactly when it was so before, or its owner dies, or its owner's step fails in one of the named ways |
| CheckoutOutcomes.AbandonedExactly | crates/orchestrator-runtime/src/runner.rs:529-743 | over whole runs, a key is abandoned exactly when some event of the run stranded it |
| CheckoutOutcomes.StrandedForEver | crates/orchestrator-runtime/src/idempotency.rs:61-89 | a stranded key stays in flight for the rest of every run, and nothing more is done under it |
| CheckoutSafety.RepricingBalances | crates/orchestrator-runtime/src/runner.rs:1160-1174 | checkout re-pricing yields a balanced cart with the same contents |
| CheckoutRunner.Runner.ExecuteCheckout | crates/orchestrator-runtime/src/runner.rs:529-743 | executed alone, with any provider answers and store failures, the call leaves exactly what the checkout machine leaves after as many steps; it is invalid exactly for an unusable request, repeats a recorded result, and otherwise its result or error is the one that these answers explain: status by policy and payment answer, amounts by the answered prices, tax and discounts; a completed call leaves the reservations finalized and a fresh refusal leaves them released |
| CheckoutRunner.Runner.SettleCart | crates/orchestrator-runtime/src/runner.rs:1099-1153 | loads, checks, re-prices and stores the cart as the machine does, with the machine's error for every early return |
| CheckoutRunner.Runner.RepriceCart | crates/orchestrator-runtime/src/runner.rs:1160-1174 | the statement-by-statement re-pricing gives the machine's re-priced cart or its error |
| CheckoutRunner.Runner.ReserveLines | crates/orchestrator-runtime/src/runner.rs:560-569 | the reservation loop reserves line by line and stops at the first store failure, as the machine does |
| CheckoutRunner.Runner.Pay | crates/orchestrator-runtime/src/runner.rs:584-638 | policy, authorization and the three ways on from there follow the machine; the result is the one the policy's verdict and the payment, capture and receipt answers explain |
| CheckoutRunner.Runner.Fulfil | crates/orchestrator-runtime/src/runner.rs:642-743 | commit, capture, order, receipt, finalization, message and completion happen in the machine's order, stopping where it stops |
| CheckoutRunner.RunAloneIsRun | crates/orchestrator-runtime/src/runner.rs:529-743 | a solo run is one of the interleavings that the safety results are about |
| OutboxStores.PostgresOutbox.Enqueue | crates/orchestrator-runtime/src/persistence/postgres_backed.rs:582-595 | the message waits under its identifier exactly as given and unleased, every other row is as it was, and a new row is numbered behind all others |
| OutboxStores.PostgresOutbox.Claim | crates/orchestrator-runtime/src/persistence/postgres_backed.rs:552-563 | leases the oldest claimable row and only that; nothing exactly when every row is leased |
| OutboxStores.NewestIsLast | crates/orchestrator-runtime/src/persistence/postgres_backed.rs:552-563 | a new message is never the one claimed while a message that was there before it is claimable |
| OutboxStores.LeaseLastsAMinute | crates/orchestrator-runtime/src/persistence/postgres_backed.rs:546-563 | a leased row keeps its message and place and can be claimed again exactly after more than 60 seconds |
| OutboxStores.PostgresOutbox.Ack | crates/orchestrator-runtime/src/persistence/postgres_backed.rs:627-634 | removes exactly that row |
| OutboxStores.PostgresOutbox.Release | crates/orchestrator-runtime/src/persistence/postgres_backed.rs:638-651 | records the attempts and ends the lease, and puts a vanished row back |
| OutboxStores.DeadLetterStore.Put | crates/orchestrator-runtime/src/persistence/postgres_backed.rs:701-712 | records the message under its identifier |
| OutboxStores.DeadLetterStore.Take | crates/orchestrator-runtime/src/persistence/postgres_backed.rs:732-739 | removes and returns one record, or nothing |
| DeliveryProtocol.NoLossExactly | crates/orchestrator-runtime/src/runner.rs:760-824 | in every interleaving every enqueued message stays waiting, buried, in replay or delivered throughout, exactly when the run has neither of the two losing replay steps |
| DeliveryProtocol.StepLosesExactly | crates/orchestrator-runtime/src/runner.rs:760-824 | one step loses a message exactly when it acknowledges a burial already taken back, or is a replay dying between take and put |
| DeliveryProtocol.CarefulReplayKeepsAll | crates/orchestrator-runtime/src/runner.rs:816-824 | with replay done in one go and not during a burial, no crash, expiry or interleaving loses a message |
| DeliveryProtocol.ReplayDuringBurialLoses | crates/orchestrator-runtime/src/runner.rs:816-824 | a seven-step run in which replay during a burial loses an enqueued message |
| DeliveryProtocol.LeaseExclusionExactly | crates/orchestrator-runtime/src/persistence/postgres_backed.rs:546-567 | in every run no two live workers ever hold the same message exactly when no claim reaches for a message whose live holder is past its lease or has had its message enqueued over |
| DeliveryProtocol.SharesExactly | crates/orchestrator-runtime/src/persistence/postgres_backed.rs:552-567 | one step makes two live workers share a message exactly when it is such a claim |
| DeliveryProtocol.HeldRowIsClaimable | crates/orchestrator-runtime/src/persistence/postgres_backed.rs:552-563 | until workers share, a held row can be claimed exactly past its lease or after being enqueued over |
| DeliveryProtocol.LeaseExclusion | crates/orchestrator-runtime/src/persistence/postgres_backed.rs:546-567 | while workers stay within their leases, and nobody enqueues over a waiting message, no two live workers ever hold the same message |
| DeliveryProtocol.LeasesRunOut | crates/orchestrator-runtime/src/persistence/postgres_backed.rs:617-625 | after any run, once a lease length has passed every waiting message can be claimed again |
| DeliveryProtocol.OverstayedLeaseIsShared | crates/orchestrator-runtime/src/persistence/postgres_backed.rs:566-567 | a worker that outlives its lease and then releases lets a third worker claim a message still held by the second |
| OutboxContents.ContentsAreProduced | crates/orchestrator-runtime/src/persistence/postgres_backed.rs:582-651 | in every interleaving every waiting row, held message, dead letter and message in replay is one that was produced, letter by letter but for its attempts |
| OutboxContents.BuriedPastBudget | crates/orchestrator-runtime/src/runner.rs:773-824 | in every run dead letters have more attempts than allowed, released messages at least one and no more than allowed, and replayed ones none |
| OutboxRunner.ProcessOutboxOnce | crates/orchestrator-runtime/src/runner.rs:760-799 | idle exactly when nothing is claimable; otherwise the oldest claimable message goes through exactly the protocol's claim, delivery and settlement, and the reported outcome says where it ended |
| OutboxRunner.ReplayFromDeadLetter | crates/orchestrator-runtime/src/runner.rs:816-824 | undisturbed, replay is the protocol's take and put: the message waits again, unleased, with no attempts spent |
| OutboxRunner.OneDeliveryEffect | crates/orchestrator-runtime/src/runner.rs:760-799 | an undisturbed delivery removes a delivered message, buries one past its budget and otherwise records the attempt and ends the lease |
| InProcessQueue.PassSpends | crates/orchestrator-runtime/src/runner.rs:760-799 | each pass spends one unit of the total budget on a failure and the message's whole remaining budget on a delivery |
| InProcessQueue.QueueEmpties | crates/orchestrator-runtime/src/effects.rs:103-115 | with no new messages, as many passes as there is budget empty the queue, whatever deliveries do |
| InProcessQueue.BudgetIsTight | crates/orchestrator-runtime/src/effects.rs:103-115 | when every delivery fails, no smaller number of passes is enough |
| InProcessQueue.Conservation | crates/orchestrator-runtime/src/effects.rs:133-151 | delivered, buried and queued identifiers together are always exactly the enqueued ones, as multisets |
| InProcessQueue.ExactBudget | crates/orchestrator-runtime/src/runner.rs:773-790 | a buried message failed exactly max_attempts + 1 times and never succeeded; a delivered one succeeded once after at most max_attempts failures |
| OutboxContents.QueueHoldsEnqueued | crates/orchestrator-runtime/src/effects.rs:103-151 | the queue and its dead letters hold only messages that were enqueued, letter by letter but for their attempts |
| OutboxContents.DeliveredInOrder | crates/orchestrator-runtime/src/effects.rs:103-115 | passes that succeed deliver the front of the queue in order |
| OutboxContents.FailuresGoRound | crates/orchestrator-runtime/src/effects.rs:103-115 | messages that fail go behind all others: a round of failures leaves the queue as it was, each tried message once more |
| OutboxContents.OutcomeTells | crates/orchestrator-runtime/src/runner.rs:760-799 | the reported outcome says exactly what the pass did to the front message, and with how many attempts |
| OutboxProcessor.RetryDelayDoubles | crates/orchestrator-runtime/src/outbox_processor.rs:156-162 | the pause starts at the configured one and doubles per attempt up to the cap until the shift saturates |
| OutboxProcessor.Processor.ProcessOnce | crates/orchestrator-runtime/src/runner.rs:760-799 | one claim, delivery and settlement leave exactly the specified queue, dead letters, history and reported outcome |
| OutboxProcessor.Processor.ProcessBatch | crates/orchestrator-runtime/src/outbox_processor.rs:63-90 | handles a full batch or empties the queue, handles nothing only when there is nothing or the batch size is zero, and pauses once, by its backoff, for each delivery that will be retried, in order |
| OutboxProcessor.Processor.Drain | crates/orchestrator-runtime/src/outbox_processor.rs:111-122 | stops with an empty queue or with its time used up; given time for the whole budget, the queue is empty |
| CircuitBreaker.Breaker.State | crates/integration-adapters/src/circuit.rs:96-109 | an elapsed open window already shows as half-open |
| CircuitBreaker.Breaker.Acquire | crates/integration-adapters/src/circuit.rs:112-150 | admits by state and window, and a probe renews the window |
| CircuitBreaker.Breaker.OnSuccess | crates/integration-adapters/src/circuit.rs:152-171 | closes the circuit with a zero counter, whatever the state |
| CircuitBreaker.Breaker.OnFailure | crates/integration-adapters/src/circuit.rs:173-208 | counts below the threshold, opens at it, and reopens from any other state |
| CircuitBreaker.ReflectsHistory | crates/integration-adapters/src/circuit.rs:112-208 | after any calls the breaker is closed exactly when fewer than the threshold failures came since the last success, and its counter is that number |
| CircuitBreaker.RateBound | crates/integration-adapters/src/circuit.rs:112-208 | after opening at t0 and without a success, the k-th admission comes no earlier than k gaps after t0, whatever stale calls report |
| CircuitBreaker.NeverWedged | crates/integration-adapters/src/circuit.rs:58-70 | from every reachable state, waiting the longer of the two windows makes the next call admitted |
| CircuitBreaker.AdmittedExactly | crates/integration-adapters/src/circuit.rs:112-208 | after the failure that opens the circuit, and until the next success, a call is admitted exactly from a deadline on that each admitted call sets one probe window and each failure one open window ahead |
| CircuitBreaker.NotClosedIsDeadline | crates/integration-adapters/src/circuit.rs:112-150 | from any state that is not closed the breaker behaves as that one deadline, half-open or open alike |
| CircuitBreaker.DisabledIsTransparent | crates/integration-adapters/src/circuit.rs:112-150 | a disabled breaker admits every call and never changes |
| GuardedClient.ExecuteWithRetry | crates/integration-adapters/src/client.rs:239-344 | the attempt loop with its last error and early returns, asking and telling a breaker that others use too, computes exactly the specified run on the breaker's own answers, the one run these answers explain, and leaves the breaker as all these calls leave it; without a breaker, the plain run |
| GuardedClient.AttemptLeaves | crates/integration-adapters/src/client.rs:257-328 | an attempt leaves the breaker untouched when refused, closed with no failures after a healthy answer, one failure worse after an ailing one or a failed authentication, and as others left it after any other failure to send |
| RetryVerdicts.RunExactly | crates/integration-adapters/src/client.rs:239-344 | the run is the only one its answers explain: each request before the last got an answer worth repeating, and it ends with a 2xx, an answer not worth repeating, its last attempt, a refusal or a failed authentication, with pauses, reports and error to match |
| RetryVerdicts.KeyedGivesUpOnlyWhenSpent | crates/integration-adapters/src/client.rs:116-170 | with a key, a run gives up after 408, 425, 429, 500, 502, 503, 504 or a transport failure only when all attempts are spent or the breaker or the authentication stops the next one |
| RetryVerdicts.KeylessGivesUpOnlyWhenSpent | crates/integration-adapters/src/client.rs:144-170 | without a key the same holds of a failure to connect, and any other failure ends the run at once |
| RetryVerdicts.RetryAfterExactly | crates/integration-adapters/src/client.rs:120-126 | a Retry-After of a printed number of seconds, between blanks and behind zeros or a plus sign, pauses 1000 times as many milliseconds up to 30000, and any other is ignored |
| RetryVerdicts.WindowDoubles | crates/integration-adapters/src/client.rs:130-145 | the backoff window starts at the configured one and doubles until it sticks at the largest 64-bit number |
| GuardedClient.RefusedOnlyPastThreshold | crates/integration-adapters/src/circuit.rs:112-150 | a run ends with an open circuit only when at least the threshold of failures, its own and all other callers', came since the last success and the window has not passed |
| GuardedClient.CutOff | crates/integration-adapters/src/client.rs:257-261 | within one window and without a success, a failing run gets no more attempts than failures were missing to the threshold, whatever its retry budget and whatever others report |
| GuardedClient.TripsExactly | crates/integration-adapters/src/client.rs:239-344 | alone on a closed breaker, a run whose every attempt fails sends exactly as many requests as failures were missing to the threshold, or all it is allowed, and ends with an open circuit exactly when the threshold cut it short |
| RetryClient.AttemptBound | crates/integration-adapters/src/client.rs:239-344 | at most max_retries pauses, one between consecutive requests, so at most max_retries + 1 requests |
| RetryClient.KeylessRepeatsOnlyConnectFailures | crates/integration-adapters/src/client.rs:144-170 | without an idempotency key every request before the last failed to connect |
| RetryClient.KeyedRepeatsOnlyTransient | crates/integration-adapters/src/client.rs:116-170 | with a key, only transient statuses and transport failures are repeated |
| RetryClient.ResultIsLastAnswer | crates/integration-adapters/src/client.rs:239-344 | success is reported exactly when the last request was answered with a 2xx, and no earlier one was |
| RetryClient.EveryAttemptSettles | crates/integration-adapters/src/client.rs:239-344 | the breaker is told, in order, what each attempt's own outcome says; every attempt reports once, save for transport failures that do not count |
| RetryClient.EachPauseIsBounded | crates/integration-adapters/src/client.rs:122-145 | each pause is a Retry-After of at most 30 seconds or lies between half its backoff base and the base |
| RetryClient.TotalBackoffBound | crates/integration-adapters/src/client.rs:130-145 | without Retry-After all pauses sum to at most retry_backoff_ms times (2^max_retries - 1), saturation included |
| Mandates.InMemoryMandateDedupeStore.RecordMandate | crates/orchestrator-runtime/src/effects.rs:90-101 | forgets what has expired at the reading, then accepts and records exactly an unknown mandate |
| Mandates.AcceptedExactly | crates/orchestrator-runtime/src/effects.rs:90-101 | for any clock, a mandate is accepted exactly when each earlier acceptance has since seen a reading that reached its expiry |
| Mandates.PrunedMapAgrees | crates/orchestrator-runtime/src/effects.rs:90-101 | under a clock that never runs backwards the pruned map accepts exactly when every earlier acceptance has expired, as the full history would |
| Mandates.AcceptedAtMostOnce | crates/orchestrator-api/src/facade.rs:240-259 | a mandate with a fixed expiry, verified unexpired at each recording, is accepted at most once under a clock that never runs backwards |
| Mandates.AcceptedTwiceExactly | crates/orchestrator-runtime/src/effects.rs:90-101 | for any clock, such a mandate is accepted more than once exactly when it is recorded again after a reading at or past its expiry that itself followed an acceptance |
| Mandates.ClockStepBackReplays | crates/orchestrator-api/src/ap2_verification.rs:222-227 | with a clock that steps back, the same unexpired mandate is accepted twice |
| Reservations.InMemoryReservationStore.Reserve | crates/orchestrator-runtime/src/inventory.rs:89-109 | records a reservation under the pair, replacing an earlier one |
| Reservations.InMemoryReservationStore.SweepExpired | crates/orchestrator-runtime/src/inventory.rs:124-135 | expires every due reservation and returns how many there were |
| Reservations.FileBackedReservationStore.SetPrefix | crates/orchestrator-runtime/src/persistence/file_backed.rs:396-419 | the prefix scan sets the state of exactly the records whose key starts with the prefix |
| Reservations.FileBackedReservationStore.FinalizeCart | crates/orchestrator-runtime/src/persistence/file_backed.rs:396-407 | marks as finalized exactly the records under the cart's prefix |
| Reservations.FileBackedReservationStore.ReleaseCart | crates/orchestrator-runtime/src/persistence/file_backed.rs:408-419 | marks as released exactly the records under the cart's prefix |
| Reservations.FileBackedReservationStore.SweepExpired | crates/orchestrator-runtime/src/persistence/file_backed.rs:420-433 | expires every due reservation and returns how many there were |
| Reservations.PrefixIsCart | crates/orchestrator-runtime/src/persistence/file_backed.rs:367-369 | a text key starts with a cart and a bar exactly when it is that cart's, whatever the sku contains |
| Reservations.StepAgrees | crates/orchestrator-runtime/src/persistence/file_backed.rs:374-433 | each operation keeps the two stores in agreement |
| Reservations.FlatRefinesPaired | crates/orchestrator-runtime/src/inventory.rs:88-145 | after any sequence of operations both stores report the same reservations for every cart, and the next sweep counts the same number |
| Reservations.SweepLeavesNoneDue | crates/orchestrator-runtime/src/persistence/file_backed.rs:420-433 | a sweep changes exactly the due records, leaves none due, and a second sweep finds nothing |
| Reservations.RecordTellsHistory | crates/orchestrator-runtime/src/inventory.rs:89-135 | after any operations a pair has a record exactly when it was reserved, with the quantity and lease of its last reservation; it is finalized or released by the last such call for the cart, without one expired exactly when a sweep came at or after the end of the lease, and otherwise still reserved |

## Left out

- SignatureRoundTrip.SignThenVerify: signing and verifying work on text, not on its UTF-8 bytes; the algorithms, the hash and key decoding are parameters, because they are foreign code.
- Dictionary.ParseDictionary: the nesting depth is unbounded here and a 32-bit counter in the source; the wording of error messages is not modelled.
- SignatureAuthenticity.SecondReadingExactly: the values are the ones that go into the base; the source trims blanks at the ends of header values before that.
- MessageSignatures.VerifyMessage: the difference between now and created is an unbounded integer, so the overflow of a 64-bit subtraction is not modelled.
- CartRunner.Runner.DispatchCartCommand: commands on one cart run one after another, because the version check is not a compare-and-swap; the in-memory stores never fail; catalog, pricing, tax, discount, geo and fulfillment answers are arbitrary; titles, payment and protocol fields, and retail naming checks are not modelled.
- CartPut.UpdateCart: new line identifiers come from a counter instead of random identifiers, so a request is assumed not to name a line that does not exist yet (`NoFutureIds`). Prices, quantities and versions are unbounded integers.
- CartModel.DiscountIsExactSumClamped: the amount owed is a 64-bit number, as in the source; other cart sums do not overflow here.
- CheckoutSafety.CheckoutOnce: is about the machine of atomic steps, because other calls run between any two statements of `execute_checkout`; the method `CheckoutRunner.Runner.ExecuteCheckout` runs alone. Request validation of protocol-specific payment fields is not modelled. The claim is about the in-memory idempotency store: the Postgres claim reports an existing in-flight row as unclaimed and is not part of this model, and neither is the file-backed store, whose keys are joined text.
- CheckoutSafety.PaidCartIsSettled: says nothing about the cart's status, because checkout does not read it.
- CheckoutAnswers.EffectsWereApproved: the message of a purchase is recorded by its order number only; its topic, payload and tenant are constants and copied fields and are not part of the effect.
- CheckoutHistory.RefusalReleasesReservations: another party may reserve again later; the reservations are shown Released until then.
- CheckoutHistory.RepeatedCallReturnsResult: looking up an existing key does not fail, as in the in-memory store; only writes do.
- CartHistory.LogRebuildsSnapshot: tax is not part of what is rebuilt here, because a checkout stores a tax that no event names; `CartHistory.StoredTaxIsLastAnswer` says which tax is stored. A checkout settles its cart in one go between commands; commands between its load and its save are the subject of `CartInterleavings`.
- CartInterleavings.EveryStoredCartBalances: a command is one step, also here; checkouts are interleaved step by step.
- DictionaryGrammar.FieldsParse: texts are given by their grammar; that every balanced header has such a form is not shown.
- DeliveryProtocol.NoLossExactly: a worker may claim any claimable row, which covers every order that row locking can produce; `OutboxStores.PostgresOutbox.Claim` takes the oldest one. Store calls that fail end like a crash of the worker.
- InProcessQueue.ExactBudget: producers enqueue untried messages under new identifiers. A process that dies between claim and settlement loses the message in this variant, as the source says, and is not modelled.
- OutboxProcessor.Processor.Drain: the deadline is given as the number of batches it leaves time for; pauses are recorded, not waited for; queue-depth metrics are not modelled.
- GuardedClient.ExecuteWithRetry: what other callers do to the breaker is an arbitrary sequence of calls before each question and before each report; the request body, headers and URL, and metrics are not modelled; the clock used for jitter is an arbitrary number per attempt.
- CircuitBreaker.RateBound: clock readings are integers and never run backwards.
- Mandates.AcceptedAtMostOnce: the mandate is taken to be unexpired at the reading used for recording; verification reads the clock a moment earlier. The Postgres and file-backed mandate stores are not modelled.
- Reservations.FlatRefinesPaired: both stores read one integer clock in seconds; saving to disk is not modelled, nor is the order in which a cart's reservations are listed.
- Cart and checkout state machines beyond the runner's use of them: `terminal_status` is a plain table.
- Reconciliation, refunds and voids, webhooks, order listing, catalog search, configuration, discovery documents, JSON and HTTP plumbing, tracing: no property that is not seen at once.
