# Verified models of the Rarible SDK's stateful and codec code

This project models, in Dafny, the parts of the SDK that keep state, race, write into shared memory or convert
between representations, and proves what callers rely on:

- **Wallet connector** (`ConnectionState`, `ConnectorModel`, `ConnectorPrefixes`, `ConnectorRuns`,
  `ConnectorDrops`, `ConnectorTheorems`, `ConnectorStored`, `ConnectorEffects`, `ConnectorWitnesses`, `Connector`): the
  provider subject, the auto-connect phase, `switchMap` over provider streams, the suppression of repeated states, the
  disconnect effect that calls back into the subject, and the stored id.
  `ConnectorModel` is a step machine with one step per run-to-completion task; the class `Connector` updates fields
  the way the callbacks do, and each of its methods is proved to be one step. `MappedProvider` and `Cache` are the
  latest-wins mapping and the shared call beside it.
- **Transaction confirmation** (`Confirmation`, `SendTransaction`): a timer, a websocket callback, overlapping
  polls and a resend loop interleave in any order; the reference is the first deciding event.
- **Heap code** (`ArrayIndices`, `JsonTree`, `JsonMerge`, `DeepMerge`, `Stringify`): the in-place merge of heap objects
  against a merge of trees, and the replacer's walk over a possibly cyclic graph against a walk that knows no visited
  set.
- **Signatures** (`Hex`, `Signatures`, `TypedDataSigning`): `toVrs`, `fromRpcSig` on a buffer with shared slices,
  `fixSignature`, the hardware-wallet mark, and the order in which signing methods are tried.
- **Currencies** (`Base64`, `Currency`): ids to asset types and back, base64 (section 4 of RFC 4648) included.
- **Two counting arguments** (`DeepEqual`, `Royalties`).

`Step` functions are total: an event that is not enabled in a state changes nothing, so "every run" ranges over all
event sequences.

## Which version of RxJS

The connector allows RxJS 6.6.7 up to 8 (`packages/connectors/connector/package.json`), and the repository installs
6.6.7. The versions differ in one way that shows: when a stream disconnects while `switchMap` is still inside the
call that subscribes to it, the subject is emptied at once, and version 7 then stops listening to the stream while
version 6 keeps listening. The model has the version as a field. A provider that fails at once drops in this way, as
`packages/connectors/solana/core/src/provider.ts:25-34` does when its wallet is known to be missing.

- In both versions, over all runs: `NoRepeatedState`, `SupersededIsSilent`, `UnloadFreezes`, `StepStored`,
  `StoredNamesInstalled` (orphaning tasks aside), `ConnectAgreesIffAnnounced` and every method of the class `Connector`.
- While no stream that has dropped speaks again, hence always under version 7: `EmptyIffDisconnected`,
  `AnnouncedRunsAgree`, `EmissionsComeFromInstalled`, `DisconnectEmitsOnce`. Such states are called consistent, and the
  condition is exact: a task keeps the connector consistent if and only if it does not let a dropped stream say
  something other than disconnected (`StepConsistentIff`). The Solana provider above never does: its failure is the end
  of its stream.
- While `switchMap` listens to the installed provider's stream or to none, hence always under version 7, and under
  version 6 whenever a consistent state has a provider installed (`ConsistentIsInvariant`): `RemovedIsSilent`,
  `StoredSurvivesIff`, `LateClearForgets`. A task keeps this stronger invariant if and only if it is not a drop during
  the subscription call under version 6 (`StepKeepsIff`), and the next `connect` brings it back if and only if it is
  not such a drop (`ReconnectRecoversIff`, `DropThenReconnectIff`). States reached without one are called tracked.
- What happens when a dropped stream does speak is `OutrunStreamStaysHeard` and `SpeakingBreaksAgreement`, with the run
  `DroppedStreamSpeaks`, in which a provider shows up as connected although none is installed.

## What turned out to be conditional

The code meets several natural promises only under a condition. Each is proved with that condition, in both
directions where both hold.

- The subject is empty exactly when the last state is disconnected, provided the installed provider's stream has
  sent something else first. Right after `connect` this holds if and only if the stream sent it before its
  subscription call returned (`ConnectAgreesIffAnnounced`). For streams that all do, no run breaks it, under RxJS 6 as
  long as no dropped stream speaks (`AnnouncedRunsAgree`).
- A stored id can outlive its provider after exactly two kinds of task: a disconnect closure that fires before the
  installed provider has announced itself, and a provider that disconnects before its subscription call returns
  (`StepStored`, in either version, with the runs `StaleDisconnectOrphans` and `SynchronousDropOrphans`).
- The installed provider's id is the stored one, whether auto-connect or `connect` installed it, as long as no
  disconnect effect has erased an id (`InstalledIsStored`).
- The stored id of an installed provider survives every continuation that keeps the provider installed if and only if
  no disconnect effect that has read an id is still waiting (`StoredSurvivesIff`). `LateClearForgets` is how such an
  effect comes to wait: it erases the id of the provider connected meanwhile.
- A confirmation wait whose timer has fired has settled if and only if `onSignature` did not throw
  (`TimerSettlesIffSubscribed`); otherwise the send never completes, while after a successful setup it is never
  blocked once the timer has fired (`TimerUnblocksIffSubscribed`).
- The Solana send returns normally, with slot 0, after a transaction that failed on chain, exactly when the
  simulation does not report an error (`SolanaHidesFailureIff`, with the run `HiddenFailureHappens`). A confirmed
  transaction keeps its slot if and only if the removal of the signature listener, which reads a private field of the
  library, does not throw (`SolanaKeepsSlotIff`, with the run `LostSlotHappens`).
- A filled `cache` makes no further call if and only if no earlier call can still tell a subscriber of a rejection
  (`NoFurtherCallIff`, with the run `ThreatHappens`).
- The compact form of `toVrs` decodes back if and only if v is 27 or 28, s is below 2^255 and, for v 27, the first
  s-byte is at least 0x10: a smaller one is printed with one digit (`CompactRoundTripIff`).
- On trees read from JSON text `deepMerge` is associative if and only if no leaf stands between two objects that
  disagree and no array takes an object's keys before it is copied (`MergeAssociativeIff`). Copying goes through JSON
  text, which prints only the indices of an array: `ArrayLosesKey` is an input on which the order of merging decides
  whether a setting survives. Without arrays, as in the SDK's configs, nothing is lost (`ArrayFreeSession`).
- In place `deepMerge` computes the merge of the trees as long as result and additions share no object; otherwise a
  part that is merged first is copied in its changed form (`MergeSharedPart`).
- The hardware path recovers against the prefixed digest if and only if the wallet's recovery byte was 0, 1, 27 or
  28 and there are 65 bytes (`HardwareRecoversPrefixedIff`).
- A user's refusal of the first signing method is thrown as it is. A refusal of the third version ends up inside an
  error built around the first failure, which a caller looking at its code will not recognise (`SignTypedData`).

## Model

| member | source | states |
|---|---|---|
| ConnectionStates.SameIsEquivalence | packages/connectors/connector/src/connector.ts:135-146 | The state comparison is reflexive, symmetric and transitive, so "no two adjacent equal states" is well defined. |
| ConnectionStates.SameIsKeyEquality | packages/connectors/connector/src/connector.ts:135-146 | Two states compare equal exactly when status, provider id and connection agree; errors and disconnect closures never count. |
| ConnectorDrops.StepConsistentIff | packages/connectors/connector/src/connector.ts:91-175 | In either version a task keeps the connector consistent (the last state agrees with the subject; the trace has no repeats and every emission names its source and its installed provider; `switchMap` listens to the newest subscription) if and only if it does not let a stream that dropped during its subscription call speak. |
| ConnectorDrops.RunConsistent | packages/connectors/connector/src/connector.ts:91-175 | Every run in which no dropped stream speaks is consistent throughout. |
| ConnectorDrops.SevenStaysSilent | packages/connectors/connector/src/connector.ts:97-131 | Under RxJS 7 no dropped stream can speak. |
| ConnectorDrops.PrefixSpoils | packages/connectors/connector/src/connector.ts:97-131 | Under RxJS 6 what a stream sends during its subscription call leaves the trace sound if and only if it does not speak after its drop. |
| ConnectorRuns.StepKeepsIff | packages/connectors/connector/src/connector.ts:91-175 | A task keeps the stronger invariant, in which `switchMap` listens to the installed provider's stream or to none, if and only if it is not, under RxJS 6, a drop during a subscription call. |
| ConnectorRuns.RunKeeps | packages/connectors/connector/src/connector.ts:91-175 | The invariant holds after every sequence of tasks without such a drop. |
| ConnectorRuns.TrackedInvariant | packages/connectors/connector/src/connector.ts:82-175 | Every tracked state satisfies the invariant, with or without a state provider. |
| ConnectorRuns.ReachableTracked | packages/connectors/connector/src/connector.ts:82-175 | Under RxJS 7 every reachable state is tracked and satisfies the invariant. |
| ConnectorRuns.PrefixLeaves | packages/connectors/connector/src/connector.ts:97-131 | In either version and any live state: a stream drops its provider exactly when it says disconnected after something else was on show; then a clear is waiting exactly if one was or an id is stored; otherwise it stays attached, and what is on show is told from the prefix alone. |
| ConnectorRuns.PrefixOutcome | packages/connectors/connector/src/connector.ts:97-131 | The invariant holds after a prefix that `switchMap` can follow. |
| ConnectorTheorems.EmptyIffDisconnected | packages/connectors/connector/src/connector.ts:91-175 | In every consistent state, after auto-connect and before unload, nothing is installed exactly when the last state is disconnected, once the installed provider has announced itself. |
| ConnectorTheorems.AnnouncedRunsAgree | packages/connectors/connector/src/connector.ts:91-175 | If every stream starts with a state other than disconnected, that equivalence holds in every live state, and every connecting or connected emission after auto-connect comes from the subscription of the provider then installed: in every run under RxJS 7, and under RxJS 6 in every run in which no dropped stream speaks. |
| ConnectorTheorems.SpeakingBreaksAgreement | packages/connectors/connector/src/connector.ts:91-175 | A dropped stream that speaks breaks the equivalence at once. |
| ConnectorTheorems.ConnectAgreesIffAnnounced | packages/connectors/connector/src/connector.ts:275-283 | Right after `connect`, from any live state, whether the equivalence holds: for a provider installed already, if the last state was not disconnected; for a new one, unless the last state was disconnected and its stream did not announce itself synchronously; and after a drop during the subscription call under RxJS 6, if the last state the stream has sent by then is disconnected. |
| ConnectorTheorems.EmissionsComeFromInstalled | packages/connectors/connector/src/connector.ts:97-131 | In every consistent state every connecting or connected emission after auto-connect comes from the newest subscription at that moment, opened for the provider installed at that moment. |
| ConnectorTheorems.SupersededIsSilent | packages/connectors/connector/src/connector.ts:95-131 | In either version and every reachable state, once a newer subscription is open no continuation of the run emits anything from an older one. |
| ConnectorTheorems.RemovedIsSilent | packages/connectors/connector/src/connector.ts:95-131 | In a state that satisfies the invariant and has nothing installed, no continuation emits anything from any earlier subscription. |
| ConnectorTheorems.OutrunStreamStaysHeard | packages/connectors/connector/src/connector.ts:97-131 | Under RxJS 6, after a drop during a subscription call nothing is installed, the stream is still listened to, and the next state it sends is emitted without a provider. |
| ConnectorTheorems.ReconnectRecoversIff | packages/connectors/connector/src/connector.ts:275-283 | From any state with a sound trace, connecting a new provider establishes the whole invariant if and only if `switchMap` can follow its stream. |
| ConnectorTheorems.DropThenReconnectIff | packages/connectors/connector/src/connector.ts:275-283 | After a drop during a subscription call whose stream stays silent, the next call of `connect` restores the invariant if and only if `switchMap` can follow its stream. |
| ConnectorTheorems.NoRepeatedState | packages/connectors/connector/src/connector.ts:135-146 | In either version no reachable trace has two adjacent equivalent states. |
| ConnectorTheorems.DisconnectEmitsOnce | packages/connectors/connector/src/connector.ts:166-174 | In a consistent state a disconnect of an announced provider adds exactly one emission, although it re-enters the subject, and leaves nothing installed. |
| ConnectorTheorems.UnloadFreezes | packages/connectors/connector/src/connector.ts:189-196 | In either version, after the page starts unloading the trace never changes again. |
| ConnectorStored.StepStored | packages/connectors/connector/src/connector.ts:166-174 | In either version one task keeps "a stored id is the installed provider's, or a clear of it is waiting" if and only if it is not one of the two orphaning tasks. |
| ConnectorStored.StoredNamesInstalled | packages/connectors/connector/src/connector.ts:221-261 | Over every run without orphaning tasks, in either version and drops included, the stored id is the installed provider's as soon as no clear is waiting. |
| ConnectorStored.SteadyRunsAreCareful | packages/connectors/connector/src/connector.ts:275-283 | A run in which every stream announces itself and none disconnects before its subscription call returns has no orphaning task and, under RxJS 6, no drop during a subscription call. |
| ConnectorStored.StoredSurvivesIff | packages/connectors/connector/src/connector.ts:166-174 | For every live state that satisfies the invariant, with a provider installed and its id stored: the id survives every continuation that keeps the provider installed if and only if no effect that has read an id is waiting. |
| ConnectorStored.RunKeepsSafe | packages/connectors/connector/src/connector.ts:166-174 | With no such effect waiting, over every continuation that keeps the provider installed the id stays and no such effect appears. |
| ConnectorEffects.AutoConnectOutcome | packages/connectors/connector/src/connector.ts:91-95 | From the result of auto-connect to the subscription, in either version: which state is emitted second (connecting with the provider, disconnected with the error, or disconnected), which provider is installed and subscribed to, and what is stored: the id of a provider that is connected already, nothing after a lost one, and otherwise what was stored before. |
| ConnectorEffects.InstalledIsStored | packages/connectors/connector/src/connector.ts:221-283 | Over every run of either version, with a state provider: as long as no disconnect effect has erased an id, the installed provider's id is stored. |
| ConnectorEffects.PrefixEmits | packages/connectors/connector/src/connector.ts:135-146 | Of what a stream sends during its subscription call exactly the states that differ in key from the one right before them are put on show: under RxJS 6 always, under RxJS 7 unless the stream drops. |
| ConnectorEffects.SevenStopsAtDrop | packages/connectors/connector/src/connector.ts:97-131 | Under RxJS 7 nothing that a stream sends after its drop has any effect. |
| ConnectorEffects.SendEmitsIff | packages/connectors/connector/src/connector.ts:97-146 | In a consistent live state a state of a stream is emitted if and only if the stream is the attached one and the state differs from the last; the entry names the subscription and the installed provider. |
| ConnectorEffects.LateSubscriberReacts | packages/connectors/connector/src/connector.ts:146-174 | A new subscriber, and the snapshot that `connect` takes, empty the subject and read the stored id if the last state is disconnected, and have no effect otherwise. |
| ConnectorEffects.SubscribersCount | packages/connectors/connector/src/connector.ts:166-174 | When an announced provider disconnects the stored id is read once for every subscriber, one more after a subscription and one less after an unsubscription. |
| ConnectorEffects.ClearErasesIff | packages/connectors/connector/src/connector.ts:169-172 | An effect that resumes erases the stored id if and only if it had read one, and is then gone. |
| ConnectorEffects.DisconnectEnds | packages/connectors/connector/src/connector.ts:151-160 | The wrapped disconnect empties the subject and adds one disconnected state, and every subscriber reads the stored id. |
| ConnectorEffects.ConnectRefusedIff | packages/connectors/connector/src/connector.ts:276-280 | A call of `connect` goes on to its second half unless a provider is installed and the last state is connected. |
| ConnectorEffects.ConnectInstalls | packages/connectors/connector/src/connector.ts:281-282 | After `connect` in a live state of either version the id is stored, and the provider is installed and subscribed to unless its stream dropped at once; the provider installed already is not subscribed to again. |
| ConnectorEffects.UnloadingEffects | packages/connectors/connector/src/connector.ts:136-174 | While the page unloads no task emits and no disconnect effect runs; a disconnect still empties the subject, and `connect` still installs its provider and stores the id. |
| ConnectorWitnesses.SynchronousDropOrphans | packages/connectors/connector/src/connector.ts:275-283 | For either version, a concrete run that ends with an id stored, nothing installed and no clear waiting. |
| ConnectorWitnesses.StaleDisconnectOrphans | packages/connectors/connector/src/connector.ts:151-160 | For either version, a concrete run in which the closure of an earlier connected state orphans the id of a new, still silent provider. |
| ConnectorWitnesses.DroppedStreamSpeaks | packages/connectors/connector/src/connector.ts:97-131 | Under RxJS 6, a concrete run that ends with a connected state on show and nothing installed. |
| ConnectorWitnesses.LateClearForgets | packages/connectors/connector/src/connector.ts:166-174 | The concrete input: whenever an announced provider disconnects while an id is stored, a provider connected before the effect resumes ends up installed without a stored id. |
| Connectors.Connector.constructor | packages/connectors/connector/src/connector.ts:73-95 | A new, subscribed connector is the step machine's start state. |
| Connectors.Connector.Deliver | packages/connectors/connector/src/connector.ts:134-174 | Delivering a state through the comparison and the effects of all subscribers, re-entrant reset included, is the model's one-shot delivery. |
| Connectors.Connector.Effects | packages/connectors/connector/src/connector.ts:166-174 | The subscribers' effects, run one after another, empty the subject once and each read the stored id. |
| Connectors.Connector.Effect | packages/connectors/connector/src/connector.ts:166-174 | One subscriber's effect up to its first await. |
| Connectors.Connector.ResetSubject | packages/connectors/connector/src/connector.ts:161-168 | `provider.next(undefined)`, with its call back into the delivery, is the model's reset. |
| Connectors.Connector.Install | packages/connectors/connector/src/connector.ts:95-131 | `provider.next(p)` ignores the provider already installed and otherwise moves `switchMap` to a new subscription. |
| Connectors.Connector.Attach | packages/connectors/connector/src/connector.ts:97-131 | Subscribing takes in the stream's synchronous prefix state by state, as either version of RxJS does. |
| Connectors.Connector.Receive | packages/connectors/connector/src/connector.ts:97-131 | A state that gets through `switchMap` is delivered. |
| Connectors.Connector.Replay | packages/connectors/connector/src/connector.ts:147-174 | A new subscriber is sent the last state again and its effect runs. |
| Connectors.Connector.CheckAutoConnect | packages/connectors/connector/src/connector.ts:221-261 | The first auto-connected provider (or failure) decides; otherwise the first provider with the stored id; otherwise nothing; which provider is then installed, which state is delivered next, and what is stored. |
| Connectors.Connector.TryStored | packages/connectors/connector/src/connector.ts:233-246 | Among the providers the first with the stored id decides: restored with its id kept, forgotten with the id cleared, or failed with the error in the state. |
| Connectors.Connector.DeliverAutoConnect | packages/connectors/connector/src/connector.ts:91-95 | `concat` delivers the auto-connect state and then subscribes to the subject. |
| Connectors.Connector.OnProviderState | packages/connectors/connector/src/connector.ts:97-131 | A state of a provider stream is one step. |
| Connectors.Connector.Connect | packages/connectors/connector/src/connector.ts:275-280 | The first half of `connect`: refused exactly when a provider is installed and the last state is connected. |
| Connectors.Connector.ResumeConnect | packages/connectors/connector/src/connector.ts:281-282 | The second half: install, then store the id. |
| Connectors.Connector.ResumeDisconnect | packages/connectors/connector/src/connector.ts:151-160 | What the wrapped disconnect of an emitted connected state does after the wallet's own. |
| Connectors.Connector.ResumeClear | packages/connectors/connector/src/connector.ts:169-172 | The effect after its await: clears the stored id if the id it read was set. |
| Connectors.Connector.Subscribe | packages/connectors/connector/src/connector.ts:147-174 | A further subscriber. |
| Connectors.Connector.BeforeUnload | packages/connectors/connector/src/connector.ts:189-196 | The unload flag. |
| MappedProviders.LatestWins | packages/connectors/connector/src/provider.ts:105-118 | In every run the outputs are images of source states in order without repetition, with the connection that the mapper answered for that very state, and when nothing is pending the last output is the image of the last source state. |
| MappedProviders.StaleNeverEmitted | packages/connectors/connector/src/provider.ts:105-118 | A state whose mapping is still pending when the source sends again is never emitted afterwards. |
| MappedProviders.RunFaithful | packages/connectors/connector/src/provider.ts:105-118 | Every run keeps status and disconnect closure of the source states; only the connection is mapped. |
| MappedProviders.NewestAnswerIsEmitted | packages/connectors/connector/src/provider.ts:107-116 | While the newest task is pending, its answer is emitted with the mapper's connection and the source's disconnect closure, its error ends the stream, and every other task is ignored. |
| MappedProviders.FailureIsFinal | packages/connectors/connector/src/provider.ts:107-116 | Every state of the source starts a task until a mapper has thrown; then nothing changes any more. |
| Caches.RunKeeps | packages/connectors/connector/src/common/utils.ts:7-20 | Each subscriber is told the outcome of the very call it joined, and the slot holds the newest call. |
| Caches.SubscriberJoinsSlot | packages/connectors/connector/src/common/utils.ts:9-14 | After every run a new subscriber joins the call in the slot, which is the newest, and only an empty slot makes a call. |
| Caches.SubscriberIsTold | packages/connectors/connector/src/common/utils.ts:13-18 | A subscriber whose call ends is told that very outcome; a rejection empties the slot and a value does not. |
| Caches.NoFurtherCallIff | packages/connectors/connector/src/common/utils.ts:7-20 | With a fulfilled call in the slot no continuation makes another call if and only if no earlier call can still deliver a rejection. |
| Caches.FinalRun | packages/connectors/connector/src/common/utils.ts:7-20 | Slot and calls then stay as they are over every continuation. |
| Caches.ThreatLeadsToCall | packages/connectors/connector/src/common/utils.ts:15-18 | A rejection that can still be delivered leads to a further call in three steps. |
| Caches.ThreatHappens | packages/connectors/connector/src/common/utils.ts:9-18 | A concrete run that fills the slot with a fulfilled call while an earlier rejection can still be delivered. |
| Caches.CachedCall.constructor | packages/connectors/connector/src/common/utils.ts:7-9 | Starts empty. |
| Caches.CachedCall.Subscribe | packages/connectors/connector/src/common/utils.ts:9-14 | Starts a call if and only if the slot is empty, and joins the call in the slot. |
| Caches.CachedCall.Settle | packages/connectors/connector/src/common/utils.ts:11 | A pending call ends. |
| Caches.CachedCall.RunHandler | packages/connectors/connector/src/common/utils.ts:13-18 | The subscriber receives its own call's outcome; a rejection empties the slot. |
| Confirmations.FirstDecisionWins | packages/solana-sdk/src/common/transactions.ts:159-234 | For every order of events the promise holds exactly what the first deciding event decides, and `done` is set exactly when it is settled. |
| Confirmations.PollingDecides | packages/solana-sdk/src/common/transactions.ts:205-233 | From every undecided run: any number of further polls can be sent without waiting for answers, then any answer can arrive, and the promise is settled as that answer decides. |
| Confirmations.RequestsEndOnce | packages/solana-sdk/src/common/transactions.ts:205-233 | In every possible run the polls in flight and those that ended add up to the turns of the loop before the decision; while nothing is decided the loop goes on, and it is left in its first turn after the decision. |
| Confirmations.StatusIsLastReported | packages/solana-sdk/src/common/transactions.ts:168-210 | The shared status is what the last websocket call or poll answer reported, settled or not. |
| Confirmations.OutcomeIsFinal | packages/eclipse-sdk/src/common/transactions.ts:138-213 | No later event changes a settled outcome. |
| Confirmations.ResolvedHasNoError | packages/eclipse-sdk/src/common/transactions.ts:170-203 | In every possible run a promise that has resolved holds a status without an error. |
| Confirmations.TimerSettlesIffSubscribed | packages/solana-sdk/src/common/transactions.ts:174-204 | Once the timer has fired the wait has settled if and only if the subscription was set up. |
| Confirmations.FailedSetupNeverSettles | packages/solana-sdk/src/common/transactions.ts:201-205 | After a throwing `onSignature` nothing that can still happen settles the wait. |
| Confirmations.LateAnswerOverwritesStatus | packages/solana-sdk/src/common/transactions.ts:209-211 | A late poll answer overwrites the shared status, whatever it was, and leaves the outcome alone. |
| Confirmations.Confirmation.constructor | packages/solana-sdk/src/common/transactions.ts:167-204 | The shared variables after setup, successful or not. |
| Confirmations.Confirmation.OnTimer | packages/solana-sdk/src/common/transactions.ts:175-180 | The timer callback is one step and extends the recorded run. |
| Confirmations.Confirmation.OnSocket | packages/solana-sdk/src/common/transactions.ts:184-198 | The websocket callback, which does not look at `done`, is one step. |
| Confirmations.Confirmation.OnLoop | packages/solana-sdk/src/common/transactions.ts:205-233 | One turn of the polling loop sends a request if `done` is unset and leaves the loop otherwise. |
| Confirmations.Confirmation.OnAnswer | packages/solana-sdk/src/common/transactions.ts:209-225 | A poll answer is one step: it always overwrites the status and decides only while `done` is unset. |
| Confirmations.Confirmation.OnPollError | packages/solana-sdk/src/common/transactions.ts:226-230 | A failed poll changes nothing that is shared. |
| SendTransaction.NoResendAfterCompletion | packages/solana-sdk/src/common/transactions.ts:75-130 | Once the call has returned or thrown, no continuation resends the transaction or changes the result. |
| SendTransaction.EveryTimelyWakeResends | packages/solana-sdk/src/common/transactions.ts:75-83 | In every possible run each turn of the resend loop sends the transaction again, except the one that comes too late or after the call has ended; that one ends the loop. |
| SendTransaction.EclipseEndsAsDecided | packages/eclipse-sdk/src/common/transactions.ts:82-120 | The Eclipse call ends as the first deciding event says: it returns only after an error-free confirmation and with that confirmation's slot, and otherwise rethrows. |
| SendTransaction.SolanaEndsAsDecided | packages/solana-sdk/src/common/transactions.ts:84-133 | How the Solana call ends, from the first deciding event, whether removing the listener threw, and the simulation alone. |
| SendTransaction.SolanaKeepsSlotIff | packages/solana-sdk/src/common/transactions.ts:236-239 | After a confirmation the call returns the confirmation's slot if and only if removing the listener did not throw (or the slot is 0 and the simulation raises no error). |
| SendTransaction.LostSlotHappens | packages/solana-sdk/src/common/transactions.ts:103-133 | For every slot, a possible run in which the transaction is confirmed with it and the call returns slot 0. |
| SendTransaction.SolanaHidesFailureIff | packages/solana-sdk/src/common/transactions.ts:103-127 | It returns normally with slot 0 after a failure on chain if and only if the simulation raises no error. |
| SendTransaction.HiddenFailureHappens | packages/solana-sdk/src/common/transactions.ts:103-133 | For every error and slot, a possible run in which the websocket reports the failure and the call returns slot 0. |
| SendTransaction.FailedSetupNeverCompletes | packages/solana-sdk/src/common/transactions.ts:201-205 | With a throwing `onSignature` the send never returns or throws, however long it runs. |
| SendTransaction.TimerUnblocksIffSubscribed | packages/solana-sdk/src/common/transactions.ts:174-204 | Once the wait's timer has fired the send has ended, is simulating, or can go on, if and only if the subscription was set up. |
| SendTransaction.UnblockedCanEnd | packages/solana-sdk/src/common/transactions.ts:84-130 | From there the send can end within two events, whatever the simulation answers. |
| SendTransaction.WaitRuns | packages/solana-sdk/src/common/transactions.ts:84-92 | Whatever the send does, the wait inside it is a run of the wait on its own events. |
| SendTransaction.SendCall.constructor | packages/solana-sdk/src/common/transactions.ts:66-92 | A new send with its own wait. |
| SendTransaction.SendCall.OnResend | packages/solana-sdk/src/common/transactions.ts:76-83 | One turn of the resend loop: sends exactly while the send is not done and the compared time is below the timeout, and otherwise leaves the loop. |
| SendTransaction.SendCall.OnWaitSettled | packages/eclipse-sdk/src/common/transactions.ts:102-117 | What follows the awaited confirmation, for both chains. |
| SendTransaction.SendCall.OnCaught | packages/solana-sdk/src/common/transactions.ts:103-113 | The catch blocks: Eclipse rethrows, Solana throws on a timeout and simulates otherwise. |
| SendTransaction.SendCall.OnSimulated | packages/solana-sdk/src/common/transactions.ts:114-130 | What follows the simulation. |
| SendTransaction.SendCall.OnCleanupThrows | packages/solana-sdk/src/common/transactions.ts:236-239 | The wait has resolved but the removal of its listener throws into the send's catch block. |
| JsonTrees.PrintedIff | packages/ethereum/sdk/src/utils/deep-merge.ts:8 | Printing a tree as JSON text and reading it again changes nothing exactly on the trees that have been read from JSON text: in an array, indices without holes and no other keys. |
| JsonTrees.PrintedGet | packages/ethereum/sdk/src/utils/deep-merge.ts:8 | What printing leaves under a key: of an object every key, of an array exactly the indices up to its greatest one, with null for holes. |
| JsonTrees.PrintedIsParsed | packages/ethereum/sdk/src/utils/deep-merge.ts:8 | What is read back is such a tree, so printing twice is printing once. |
| JsonMerge.MergeByPath | packages/ethereum/sdk/src/utils/deep-merge.ts:1-14 | At every path the addition as it arrives wins at its leaves and hides what lies below them, untouched paths keep their value, and where both have objects the keys are united. |
| JsonMerge.ParsedArrives | packages/ethereum/sdk/src/utils/deep-merge.ts:8 | An addition read from JSON text arrives as it is. |
| JsonMerge.MergeIdempotent | packages/ethereum/sdk/src/utils/deep-merge.ts:1-14 | Merging a tree into itself changes nothing. |
| JsonMerge.MergeIdentity | packages/ethereum/sdk/src/utils/deep-merge.ts:1-14 | The empty object is an identity on the right; on the left it prints an object, so that it is an identity exactly on objects read from JSON text. |
| JsonMerge.MergeAssociativeIff | packages/ethereum/sdk/src/utils/deep-merge.ts:1-14 | Merging three trees read from JSON text is associative if and only if they are compatible. |
| JsonMerge.FitsIff | packages/ethereum/sdk/src/utils/deep-merge.ts:1-14 | Merging two trees read from JSON text gives one that printing leaves alone if and only if every array merged into has just its indices as keys again. |
| JsonMerge.ArrayLosesKey | packages/ethereum/sdk/src/utils/deep-merge.ts:5-8 | The input on which the order matters: an object merged into an array under a key that is not an index, before or after the array is copied. |
| JsonMerge.CoveredIff | packages/ethereum/sdk/src/utils/deep-merge.ts:1-14 | A tree vanishes under another exactly when the other decides everything it has and arrives unchanged. |
| JsonMerge.AssignedByPath | packages/ethereum/sdk/src/config/utils.ts:27-77 | Assigning a scalar at a path puts it there, leaves nothing below it, and leaves every path that does not lead there as before. |
| DeepMerge.Clone | packages/ethereum/sdk/src/utils/deep-merge.ts:8 | The copy of an added object shows the printed tree and consists of new objects only. |
| DeepMerge.CloneArray | packages/ethereum/sdk/src/utils/deep-merge.ts:8 | Of an array the items up to its length are copied, holes as null. |
| DeepMerge.MergeInto | packages/ethereum/sdk/src/utils/deep-merge.ts:3-11 | For a result and an addition that share no object, the in-place loop leaves the tree `Merge` of the old tree and the addition, adds only new objects, and writes nothing outside the result. |
| DeepMerge.MergeSharedPart | packages/ethereum/sdk/src/utils/deep-merge.ts:3-11 | What happens when they do share: a part of the result that the addition has under another key is printed and copied in its merged form, not in the form the addition had. |
| DeepMerge.MergeKey | packages/ethereum/sdk/src/utils/deep-merge.ts:4-10 | One key: the addition's value is printed and copied, or merged into the object standing there. |
| DeepMerge.MergeChild | packages/ethereum/sdk/src/utils/deep-merge.ts:5-6 | The recursive call changes what stands under that key and nothing else. |
| DeepMerge.Apply | packages/ethereum/sdk/src/utils/deep-merge.ts:1-14 | All additions in order, unchanged, even if one object is passed twice. |
| DeepMerge.ExtendConfig | packages/ethereum/sdk/src/config/utils.ts:72-77 | The result is the merge of base and additions into the empty object, shares no object with them, and nothing that existed before is written. |
| DeepMerge.ExtendValue | packages/ethereum/sdk/src/config/utils.ts:72-77 | For a base read from JSON text that is the plain merge of base and additions. |
| DeepMerge.Session | packages/ethereum/sdk/src/config/utils.ts:27-77 | No sequence of calls, each free to reuse the default or earlier results on either side, changes an object or makes a result share one with anything else; the inputs may share parts with each other; and what every result shows. |
| DeepMerge.ArrayFreeSession | packages/ethereum/sdk/src/config/utils.ts:27-77 | Without arrays every result of a session is the plain merge of its base and its additions, whatever they are made of. |
| DeepMerge.ChangeSetting | packages/ethereum/sdk/src/config/utils.ts:72-77 | Changing a setting of a result afterwards, at any depth, is invisible in every other object, inputs included. |
| DeepMerge.SetAt | packages/ethereum/sdk/src/config/utils.ts:27-77 | An assignment through nested objects changes the tree at that path only and writes only to the objects of that tree. |
| Stringify.ExpandsReachableOnce | packages/sdk-common/src/utils/get-stringified-data.ts:1-44 | On every finite graph the walk expands exactly the objects reachable from the input's own properties, each once, at its first occurrence in depth-first preorder. |
| Stringify.PrintedIff | packages/sdk-common/src/utils/get-stringified-data.ts:13-44 | At every depth the members are what the properties print one after the other, and nothing else: the name as it is, a primitive with its text, an object in full if it is neither an ancestor nor met earlier, and anything else left out of an object and null in an array. |
| Stringify.ShownAre | packages/sdk-common/src/utils/get-stringified-data.ts:30-39 | An error shows all its own properties, any other object exactly the enumerable ones, in order. |
| Stringify.WalkMeetsUnfold | packages/sdk-common/src/utils/get-stringified-data.ts:19-44 | The walk with a visited set prints what remains of the full unfolding when repeated objects are struck out, for any objects seen before. |
| Stringify.FirstOccurrencesExactlyOnce | packages/sdk-common/src/utils/get-stringified-data.ts:24-29 | Striking out repetitions leaves every object once and loses none. |
| Stringify.Replacer.Replace | packages/sdk-common/src/utils/get-stringified-data.ts:22-43 | An object is let through the first time only, and remembered. |
| Stringify.Replacer.Serialize | packages/sdk-common/src/utils/get-stringified-data.ts:13-43 | One property, with the shared cache, is one step of the walk; what the walk prints is `PrintedIff`. |
| Stringify.Replacer.SerializeAll | packages/sdk-common/src/utils/get-stringified-data.ts:13-43 | The loop over properties terminates on every graph and is the walk, whose members `PrintedIff` describes. |
| Stringify.GetStringifiedData | packages/sdk-common/src/utils/get-stringified-data.ts:1-17 | Strings come back as they are, nullish input gives nothing, and of an object all its own properties are printed, each as described at `PrintedIff`, with every object expanded at its first occurrence. |
| Signatures.FromRpcSig | packages/ethereum/sdk/src/common/is-signer.ts:83-111 | Decodes every buffer length as specified, returns views of the same memory, and changes at most the top bit of byte 32. |
| Signatures.DecodeTwiceIff | packages/ethereum/sdk/src/common/is-signer.ts:91-97 | Decoding a buffer a second time agrees with the first time if and only if it was not a compact form with its parity bit set; only byte 32 can differ. |
| Signatures.RpcSigByLength | packages/ethereum/sdk/src/common/is-signer.ts:83-111 | What a buffer decodes to by its length: too short is an error, 64 bytes have v in the top bit of s, from the 65th byte on everything is v and must be below 2^53. |
| Signatures.ToVrsParts | packages/ethereum/sdk/src/common/to-vrs.ts:3-17 | For a 65-byte signature r and s are its digits and v is the canonical recovery id. |
| Signatures.ToVrsAnyLength | packages/ethereum/sdk/src/common/to-vrs.ts:4-6 | On digits of any length a missing r or s is zero, an incomplete one is taken as it is, and digits after the recovery byte are ignored. |
| Signatures.ToVrsRecovery | packages/ethereum/sdk/src/common/to-vrs.ts:7-16 | Without a recovery byte v is 27; a single digit counts. |
| Signatures.ToVrsCompactUnfinished | packages/ethereum/sdk/src/common/to-vrs.ts:9-15 | Without a recovery byte the compact form has the top bit of the first s-byte set, which is 0x80 when s is missing. |
| Signatures.ToVrsCompact | packages/ethereum/sdk/src/common/to-vrs.ts:9-15 | The compact form is r followed by s with the EIP-2098 byte in place of its first two digits. |
| Signatures.CompactBytesDecode | packages/ethereum/sdk/src/common/is-signer.ts:91-104 | Decoding EIP-2098 bytes gives back r always, s if and only if its top bit was clear, and v by the parity bit. |
| Signatures.CompactRoundTripIff | packages/ethereum/sdk/src/common/to-vrs.ts:3-17 | Decoding `toVrs(sig).compact` gives back r, s and v if and only if v is 27 or 28, s is below 2^255 and the first compact s-byte needs two digits. |
| Signatures.RecompactIff | packages/ethereum/sdk/src/common/to-vrs.ts:9-15 | Re-encoding a decoded compact form restores it if and only if its byte 32 needs two digits. |
| Signatures.FixDecodes | packages/ethereum/sdk/src/common/fix-signature.ts:3-33 | Fixing adds 27 to a recovery byte below 27 of a 65-byte signature and changes nothing else; any other string comes back as it is. |
| Signatures.FixIdempotentAndInvisible | packages/ethereum/sdk/src/common/fix-signature.ts:3-21 | For every string fixing twice is fixing once, and `fromRpcSig` cannot tell the difference. |
| Signatures.FixInvisibleToVrs | packages/ethereum/sdk/src/common/fix-signature.ts:3-21 | `toVrs` gives the same v, r and s after fixing, up to the case of digits. |
| Signatures.FixRepairsCompact | packages/ethereum/sdk/src/common/to-vrs.ts:7-15 | For every 65-byte signature, exactly when the compact form decodes to what the signature decodes to, before and after fixing; fixing adds the recovery bytes 0 and 1. |
| Signatures.MarkHardware | packages/ethereum/ethereum-provider/src/sign-typed-data.ts:58-60 | Adds 4 to the recovery byte in place, or throws and leaves the buffer alone. |
| Signatures.HardwareRecoversPrefixedIff | packages/ethereum/sdk/src/common/is-signer.ts:59-81 | A marked wallet answer of any length is recovered, with its own canonical v, against the digest of the text "\x19Ethereum Signed Message:\n32" followed by the hash if and only if it has 65 bytes and its recovery byte was 0, 1, 27 or 28. |
| Signatures.UnmarkedRecoversBare | packages/ethereum/sdk/src/common/is-signer.ts:59-75 | The same answer without the mark is recovered against the bare digest under the same condition. |
| Signatures.DigestIsEip191 | packages/ethereum/sdk/src/common/is-signer.ts:77-81 | The prefixed digest is that of EIP-191 version 0x45 for 32 bytes, in text and in bytes. |
| Signatures.RecognisedIff | packages/ethereum/sdk/src/common/is-signer.ts:65-75 | Six values of v are recognised: which are normalised, and which stand for the prefixed digest. |
| Signatures.MarkedIff | packages/ethereum/ethereum-provider/src/sign-typed-data.ts:58-60 | The mark adds 4 to byte 64 if there is one and the sum is a signed byte, and touches nothing else. |
| Hex.DecodeStops | packages/ethereum/ethereum-provider/src/sign-typed-data.ts:107-113 | Decoding reads complete pairs up to the first character that is no digit. |
| Hex.DigitTable | packages/ethereum/ethereum-provider/src/sign-typed-data.ts:107-113 | A digit's value is its place in the alphabet, whatever its case. |
| Hex.SkipIff | packages/ethereum/sdk/src/common/is-signer.ts:113-118 | Only a leading "0x" is skipped, once. |
| TypedDataSigning.FilterFindsOutermostRefusal | packages/ethereum/ethereum-provider/src/sign-typed-data.ts:70-96 | The filter throws if and only if some layer of the nested messages is a refusal, and then the outermost one. |
| TypedDataSigning.SignTypedData | packages/ethereum/ethereum-provider/src/sign-typed-data.ts:7-46 | A refusal in the first reply is thrown as it is and no other method is asked; any other last failure is wrapped around the first one, with all failures in order. |
| TypedDataSigning.AskFurther | packages/ethereum/ethereum-provider/src/sign-typed-data.ts:20-33 | Hardware signing is tried exactly for its one message, otherwise the third and then the unversioned method. |
| TypedDataSigning.AskedFurtherIff | packages/ethereum/ethereum-provider/src/sign-typed-data.ts:12-33 | A further method is asked exactly after a failure that wraps no refusal, until none is left. |
| TypedDataSigning.NextMethod | packages/ethereum/ethereum-provider/src/sign-typed-data.ts:20-33 | Which method is asked next: `eth_sign` only after the one message, otherwise the third version, and after that the unversioned one. |
| TypedDataSigning.ReportedRefusal | packages/ethereum/ethereum-provider/src/sign-typed-data.ts:27-43 | A failure is reported as it is, except that of a third-version failure that wraps refusals the outermost refusal is reported. |
| TypedDataSigning.RefusalIff | packages/ethereum/ethereum-provider/src/sign-typed-data.ts:70-78 | A refusal is an object with one of four codes, or with any code and a message that contains the wallet's words. |
| Base64.RoundTrip | packages/sdk/src/common/get-currency-asset-type.ts:175-185 | What `btoa` writes passes the validity test and `atob` reads it back, for all bytes. |
| Base64.RegroupRoundTrip | packages/sdk/src/common/get-currency-asset-type.ts:180-185 | Regrouping bytes into six-bit values loses nothing, whatever the length. |
| Base64.LetterTable | packages/sdk/src/common/get-currency-asset-type.ts:175-185 | The letters are the alphabet of section 4 of RFC 4648. |
| Base64.GroupIsNumber | packages/sdk/src/common/get-currency-asset-type.ts:180-185 | Four letters and their three bytes are the same 24-bit number. |
| Base64.LastGroupEndsInZeros | packages/sdk/src/common/get-currency-asset-type.ts:180-185 | The bits that are missing in a last group are written as 0. |
| Currency.RaribleIsWellFormed | packages/sdk-common/src/utils/blockchain.ts:3-49 | The SDK's own names and constants meet what the conversion results ask of them. |
| Currency.AssetComesBackIff | packages/sdk/src/common/get-currency-asset-type.ts:59-152 | An asset type survives the trip through its id exactly if it is ETH with a supported blockchain, a non-zero colon-free ERC20, a native coin, or a non-native token. |
| Currency.CanonicalPreservesAsset | packages/sdk/src/common/get-currency-asset-type.ts:59-152 | The id that comes out of id-to-asset-to-id stands for the same asset, and a second trip changes nothing. |
| Currency.CanonicalExistsIff | packages/sdk/src/common/get-currency-asset-type.ts:59-152 | The trip succeeds exactly for supported blockchains other than Flow, Tezos and Solana. |
| Currency.CanonicalUnchangedIff | packages/sdk/src/common/get-currency-asset-type.ts:80-185 | An id is its own canonical form unless it carries a token part or spells the native coin differently. |
| Currency.JoinParts | packages/sdk-common/src/utils/address.ts:20-38 | A supported name, a colon and any rest can be taken apart again. |
| Currency.AptNormalizes | packages/aptos-sdk/src/common/index.ts:10-11 | The encoded Aptos coin normalises to its token type. |
| Currency.OneWayIds | packages/sdk/src/common/get-currency-asset-type.ts:109-137 | How Flow, Tezos and Solana ids are read, the token id included. |
| Currency.XtzIff | packages/sdk/src/common/get-currency-asset-type.ts:112-116 | The XTZ asset is what exactly one id stands for. |
| Currency.AssetExistsIff | packages/sdk/src/common/get-currency-asset-type.ts:80-152 | An id has an asset exactly when it starts with the name of a supported blockchain and a colon. |
| Currency.AssetHasIdIff | packages/sdk/src/common/get-currency-asset-type.ts:59-78 | Which assets have an id; ether without a blockchain is Ethereum's. |
| Currency.NormalizeIdOf | packages/sdk/src/common/get-currency-asset-type.ts:175-185 | Text of base64 letters with at most two padding characters is decoded exactly if the padding fits or is absent and no single letter is left over. |
| Currency.NormalizeIdKeeps | packages/sdk/src/common/get-currency-asset-type.ts:175-185 | Any other text stays as it is. |
| DeepEqual.DeepEqualIff | packages/sdk/src/common/match-subset.ts:16-39 | On all JSON trees the one-sided key loop decides equality of the trees once arrays are read as index-keyed objects; `ObjectsEqualIff`, `ArraysEqualIff`, `ArrayEqualsObjectIff` and `ScalarsEqualIff` say what that means level by level. |
| DeepEqual.DeepEqualIsEquivalence | packages/sdk/src/common/match-subset.ts:16-39 | Hence it is an equivalence relation. |
| DeepEqual.ObjectsEqualIff | packages/sdk/src/common/match-subset.ts:25-36 | Objects are equal exactly when they have the same keys and equal values under them. |
| DeepEqual.ArrayEqualsObjectIff | packages/sdk/src/common/match-subset.ts:25-36 | An array is equal to an object exactly when the object has as many keys and each item's equal under its decimal index. |
| DeepEqual.ScalarsEqualIff | packages/sdk/src/common/match-subset.ts:16-23 | A scalar, null included, is equal to itself only, on either side. |
| DeepEqual.ArraysEqualIff | packages/sdk/src/common/match-subset.ts:25-36 | Arrays are equal exactly when they have the same length and equal items. |
| DeepEqual.SameKeysByCounting | packages/sdk/src/common/match-subset.ts:28-36 | As many keys and all of the first among the second means the same keys. |
| DeepEqual.SubsetMatchIff | packages/sdk/src/common/match-subset.ts:6-14 | A subset matches exactly when each of its settings has the same normal form in the object. |
| Royalties.Accounts.FillWithRoyalties | packages/eclipse-sdk/src/sdk/order/execute-order.ts:193-287 | Earlier accounts stay in front; appended is the hard-coded pair, or one (creator, token account) pair per accepted creator in metadata order, or nothing. |
| Royalties.ReadMetadata | packages/eclipse-sdk/src/sdk/order/execute-order.ts:213-229 | The loop finds exactly the accepted creators, and royalties are on if some royalty entry is positive, whatever later entries say. |
| Royalties.ParseCreatorInfo | packages/eclipse-sdk/src/sdk/order/execute-order.ts:168-191 | One entry is accepted exactly when its key is readable and its percentage is from 1 to 100. |
| Royalties.CreatorsAreAcceptedEntries | packages/eclipse-sdk/src/sdk/order/execute-order.ts:219-228 | The creators are the accepted entries in metadata order, none left out: those with another key than the royalty one that can be read, and a share from 1 to 100, with that key and that share. |
| Royalties.PaysIff | packages/eclipse-sdk/src/sdk/order/execute-order.ts:217-236 | Royalties are paid if and only if some royalty entry is positive and the accepted shares sum to at most 100. |
| Royalties.AddedPairs | packages/eclipse-sdk/src/sdk/order/execute-order.ts:202-287 | Without metadata nothing is added, for the hard-coded collection the known creator's pair, and otherwise, when royalties are paid, a writable account and token account for each creator in order. |
| Royalties.AddedAtMostAHundredPairs | packages/eclipse-sdk/src/sdk/order/execute-order.ts:231-258 | At most a hundred pairs are added, and outside the hard-coded collection something is added exactly when a royalty entry is positive, a creator was accepted, and the percentages sum to at most 100. |

## Left out

- Connector.Subscribe, Unsubscribe: at least one subscriber is there from the start; `shareReplay` before the first subscription is not modelled.
- Connector and RxJS: the library is not part of this model; what `switchMap`, `distinctUntilChanged` and `BehaviorSubject` do when they are re-entered is written into the model for both versions.
- Connector tasks: `connect` is called only after auto-connect has delivered its state; emissions do not call back into user code that calls the connector; other tabs do not write the stored id; reads and writes of the stored id take effect when they are called.
- Connector: a throwing `getConnection`, `getId`, `getOption` or state provider, logging, `getOptions` and `add`.
- MappedProviders: a mapper that throws ends the mapped stream, and what the connector then does is its error case.
- Caches: subscriber callbacks and the wrapped function itself do not throw synchronously.
- Confirmations: polling is always on, as in the only callers; timing is not modelled, so any order of events is a run. What the Solana wait does after it has resolved is part of `SendTransaction`, as one event for a removal of the listener that throws; a removal that fails later, as a rejected promise, has no effect there.
- SendTransaction: the first send, the text taken from simulation logs, and the Eclipse rewording of errors; the resend loop compares seconds with milliseconds, which is followed as written.
- DeepMerge: JSON values only; key order, inherited keys, functions, dates, a key named `hasOwnProperty` or `__proto__`, and a key named `length` that is assigned to an array (which would truncate it or throw) are not modelled.
- DeepMerge.MergeInto: result and addition share no object, as in every call of `extendConfig`; the merge of the trees is not what comes out otherwise (`MergeSharedPart`), and other ways of sharing are not described.
- JsonMerge.MergeAssociativeIff: stated for trees read from JSON text; a tree that an earlier merge has left with other keys in an array has its value in `Session` and `MergeByPath`, but no condition for associativity.
- Stringify: the layout of JSON text, getters, `toJSON`, bigints, and named properties of an array.
- Signatures: an absent signature, which `fixSignature` hands back.
- Signatures.ToVrs: defined on hexadecimal digits; how `parseInt` reads other characters is not modelled.
- Signatures: `ecrecover` and `keccak256` stay abstract (what is handed to them is modelled), and so does the contract-wallet check.
- TypedDataSigning: messages that are not strings, and the fields of the SDK's own error class other than first failure and stack.
- Currency: the branding functions of the types package are identities and that package is not part of this model; the dispatch of `getCurrencyAssetType` and `getCurrencyId` is a type test.
- DeepEqual: JSON values only; keys inherited from a prototype, which `subsetMatch` would accept in the object, are not modelled.
- Royalties: public-key parsing, `parseInt` and the derivation of token accounts are functions of the environment; logging is left out.
- Retry helpers, explorer links, chain tables, fee arithmetic, mint, burn, transfer and order routing: single-branch code that would only add easy members.
