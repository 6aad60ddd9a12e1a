# QPush gateway: mobile message handler protocol model

This project models the protocol state machine of the QPush push gateway's
`MobileMessageHandler`. The handler terminates long-lived device connections.
For each decoded device event it decides what happens to the connection
registry, which acknowledgement frames are written to which channel, and
which calls to the client store are submitted.

The model is a set of pure functions over immutable values:

- `Registry.Registry` is the connection registry (`ConnectionKeeper`). It maps
  `(appKey, userId)` to a `Connection` holding token, channel, status and
  `lastOpTime`. It also has a reverse view keyed by channel id. `Registry.Valid`
  states that every channel binding leads to a stored connection recorded on
  that channel, and that every stored connection is filed under its own
  identity. It does not promise that a stored connection is reachable from
  the channel it records.
- `Effects.Effect` lists what one event does outside the handler, in issue
  order. The effects are ack writes, channel closes, store calls (status,
  badge, offline time), client registration, and removal from the client
  keeper.
- `Handler.ChannelRead(registry, channel, input, now, writeFails)` handles one
  inbound message and returns `(registry', effects)`.
  `Handler.LostConnection` handles the loss of a transport.
- `Sessions.Run` folds `ChannelRead` over the messages of one channel.

Two inputs stand for things the handler cannot see. `now` is the
`lastOpTime` that a newly built `Connection` records. `writeFails` is the set
of channels whose ack write completes with an error; the asynchronous write
listener then closes the target connection.

Behaviour of the code worth noting:

- On a kick-off, the `multi_clients` ack is written to the evicted
  connection's own channel (`cc.getContext()`), not to the requesting channel.
- A KeepAlive does not refresh `lastOpTime`. Nothing in the handler updates it.
- A positive operation code the handler does not know is ignored. Only a code
  `<= 0` is rejected.
- A newly built connection keeps the constructor's status, modelled as
  `Status.Unset`. It is marked Online only when a later event reuses it.
- Sleep and PushAck also run connection resolution, so they can kick off
  another session. PushAck submits its badge update before resolution.
- With the same token on a different channel, the connection stays bound to
  its old channel. The `sync` ack then goes to that old channel
  (`Properties.SameTokenReusesConnection`).
- A second identity coming online on a channel already bound to a first
  identity (line 200) takes over the channel's binding. The first identity's
  entry stays, still recording that channel, but no channel leads to it. When
  that channel is lost (lines 267-280), only the second identity is cleaned
  up, and the first identity's entry is never removed
  (`Scenarios.SharedChannelStrandsFirstUser`). This rests on the
  `ConnectionKeeper` assumption stated under "## Left out".

`ConnectionKeeper`, `Connection`, `ClientKeeper`, `ClientServiceImpl` and the
task pool are not part of this model; see "## Left out" for what the model
assumes of the keeper.

## Model

| member | source | states |
|---|---|---|
| Registry.Get | Gateway/src/main/java/com/argo/qpush/gateway/handler/MobileMessageHandler.java:170 | lookup by identity finds exactly the stored connection, or nothing when the identity is not registered |
| Registry.GetByChannel | Gateway/src/main/java/com/argo/qpush/gateway/handler/MobileMessageHandler.java:267 | in a consistent registry, the reverse lookup finds a connection exactly when the channel is bound; the connection found is bound to that channel and is the one stored under its own identity |
| Registry.Add | Gateway/src/main/java/com/argo/qpush/gateway/handler/MobileMessageHandler.java:200 | after an add the connection is found by its identity and by its channel; every other identity is untouched; every other channel keeps its binding unless it led to the same identity, in which case it is dropped; consistency is kept |
| Registry.Remove | Gateway/src/main/java/com/argo/qpush/gateway/handler/MobileMessageHandler.java:174 | removal returns what was stored, leaves the identity unregistered, drops exactly the channel bindings that led to it, leaves the surviving bindings as they were, touches no other identity, and keeps consistency |
| Registry.RemoveByChannel | Gateway/src/main/java/com/argo/qpush/gateway/handler/MobileMessageHandler.java:280 | removal by channel returns the reverse lookup's result, always unbinds the channel, unregisters the connection found and only that one, creates or changes no binding, in a consistent registry keeps every other channel bound, and keeps consistency |
| Registry.SetStatus | Gateway/src/main/java/com/argo/qpush/gateway/handler/MobileMessageHandler.java:187-190 | the in-place status change is seen under the identity; no binding and no other identity changes |
| CaseFold.EqualsIgnoreCaseIffUpperEqual | Gateway/src/main/java/com/argo/qpush/gateway/handler/MobileMessageHandler.java:173 | the three-way per-character token comparison holds exactly when the upper-cased tokens are equal, in both directions |
| CaseFold.CharMatchesIffUpperEqual | Gateway/src/main/java/com/argo/qpush/gateway/handler/MobileMessageHandler.java:173 | for the ASCII case mapping, per character, equal, equal upper-cased, or equal lower-cased-after-upper-casing is the same as equal upper-cased |
| CaseFold.EqualsIgnoreCaseIsEquivalence | Gateway/src/main/java/com/argo/qpush/gateway/handler/MobileMessageHandler.java:173 | token comparison ignoring case is reflexive, symmetric and transitive |
| Effects.Payload | Gateway/src/main/java/com/argo/qpush/gateway/handler/MobileMessageHandler.java:211-218 | the ack frame has alert "ack", badge 0, and exactly two user-info pairs in order: msg = result, then kindId = sync |
| Effects.PayloadRoundTrip | Gateway/src/main/java/com/argo/qpush/gateway/handler/MobileMessageHandler.java:211-218 | a device reading the frame gets back the result tag it was built with and the kind "sync"; distinct tags give distinct frames |
| Effects.Ack | Gateway/src/main/java/com/argo/qpush/gateway/handler/MobileMessageHandler.java:206-236 | no connection or context means nothing happens; otherwise one write of the frame to the target's channel, followed by a close of that channel exactly when the write fails |
| Handler.BuildConnection | Gateway/src/main/java/com/argo/qpush/gateway/handler/MobileMessageHandler.java:169-204 | duplicate-login arbitration. Afterwards the identity maps to the returned connection and other identities are untouched; no channel other than the requesting one gains or changes a binding, and only bindings to the event's identity can be dropped. An unknown identity gets a new connection with the event's identity and token, bound to the requesting channel, with no effects. A different token evicts the entry, sends a multi_clients ack to the evicted connection's own channel, and binds a new connection. The same token keeps the stored connection, marks it Online, leaves it on its channel, and adds no binding |
| Handler.ChannelRead | Gateway/src/main/java/com/argo/qpush/gateway/handler/MobileMessageHandler.java:49-76 | undecodable input, an empty user id or an op code <= 0 produce exactly one close of the requesting channel and leave the registry unchanged; an unknown positive op changes nothing and emits nothing; a decoded event leaves other identities and other channels' bindings alone, except bindings to its own identity; consistency is kept |
| Handler.Dispatch | Gateway/src/main/java/com/argo/qpush/gateway/handler/MobileMessageHandler.java:84-166 | dispatch by op code keeps registry consistency, leaves other identities and other channels' bindings alone (bindings to the event's identity aside), and an op outside the six known codes is a no-op |
| Handler.LostConnection | Gateway/src/main/java/com/argo/qpush/gateway/handler/MobileMessageHandler.java:265-281 | a bound channel's connection is closed, dropped from the client keeper and gets one offline-time update with its lastOpTime, and it leaves the registry; an unbound channel produces no effect; the channel is unbound in every case; in a consistent registry every other channel still leads to the same connection |
| Handler.ExceptionCaught | Gateway/src/main/java/com/argo/qpush/gateway/handler/MobileMessageHandler.java:248-253 | a transport error does the lost-connection cleanup and then closes the channel |
| Properties.AcknowledgedOpsSendOneSyncAck | Gateway/src/main/java/com/argo/qpush/gateway/handler/MobileMessageHandler.java:84-141 | Online, KeepAlive, Awake and PushAck send exactly one sync ack, to the channel of the connection the identity is resolved to |
| Properties.AcknowledgedOpsRegistration | Gateway/src/main/java/com/argo/qpush/gateway/handler/MobileMessageHandler.java:84-125 | Online and Awake submit exactly one client registration for the event; KeepAlive and PushAck submit none |
| Properties.PushAckBadge | Gateway/src/main/java/com/argo/qpush/gateway/handler/MobileMessageHandler.java:127-141 | PushAck with read > 0 issues exactly one badge update of -read for the user; with read <= 0 it issues none |
| Properties.SleepMarksConnection | Gateway/src/main/java/com/argo/qpush/gateway/handler/MobileMessageHandler.java:95-114 | Sleep leaves the resolved connection with status Sleep, issues exactly one status update to Sleep for the user, and sends no sync ack |
| Properties.NewIdentityRegistered | Gateway/src/main/java/com/argo/qpush/gateway/handler/MobileMessageHandler.java:169-203 | a resolving event for an unregistered identity leaves a connection with the event's userId, appKey and token, bound to the requesting channel and found through it; there is no kick-off ack and other identities are untouched |
| Properties.OtherChannelsUnaffected | Gateway/src/main/java/com/argo/qpush/gateway/handler/MobileMessageHandler.java:49-166 | any input on one channel leaves every other channel leading to the same connection as before, unless that channel led to the event's own identity |
| Properties.KickOffRebindsIdentity | Gateway/src/main/java/com/argo/qpush/gateway/handler/MobileMessageHandler.java:173-200 | with a different token the identity ends up bound to a connection on the requesting channel with the new token; the evicted connection can no longer be found by its channel |
| Properties.KickOffAckOnce | Gateway/src/main/java/com/argo/qpush/gateway/handler/MobileMessageHandler.java:173-177 | with a different token exactly one multi_clients ack is sent, and it goes to the evicted connection's channel |
| Properties.KickOffDoesNotClose | Gateway/src/main/java/com/argo/qpush/gateway/handler/MobileMessageHandler.java:173-178 | the evicted connection is not closed unless the write of its multi_clients ack fails |
| Properties.SameTokenReusesConnection | Gateway/src/main/java/com/argo/qpush/gateway/handler/MobileMessageHandler.java:179-191 | with a matching token no entry or binding is created; the stored connection keeps its channel and lastOpTime and is marked Online (Sleep for Sleep); there is no kick-off; any sync ack goes to the stored connection's channel |
| Properties.OfflineSignsOff | Gateway/src/main/java/com/argo/qpush/gateway/handler/MobileMessageHandler.java:143-166 | Offline unregisters the identity and touches no other identity; an existing entry's connection is closed and gets exactly one offline-time update with its lastOpTime; no ack is sent; the requesting channel is closed last |
| Sessions.Run | Gateway/src/main/java/com/argo/qpush/gateway/handler/MobileMessageHandler.java:49-167 | handling a channel's messages in order keeps registry consistency |
| Sessions.ResumedSession | Gateway/src/main/java/com/argo/qpush/gateway/handler/MobileMessageHandler.java:179-191 | a run of Online/KeepAlive/Awake events with a token matching the registered connection keeps that connection on its channel and ends Online; it sends one sync ack per event to that channel, no kick-off, and touches no other identity |
| Sessions.NewSession | Gateway/src/main/java/com/argo/qpush/gateway/handler/MobileMessageHandler.java:169-203 | a run of Online/KeepAlive/Awake events from an unregistered identity leaves one connection bound to the requesting channel with the device's token, Online from the second event on, and one sync ack per event to that channel |
| Sessions.LostConnectionIsIdempotent | Gateway/src/main/java/com/argo/qpush/gateway/handler/MobileMessageHandler.java:265-281 | losing the same channel a second time changes nothing and emits nothing |
| Sessions.OfflineThenChannelLossIsQuiet | Gateway/src/main/java/com/argo/qpush/gateway/handler/MobileMessageHandler.java:143-166 | after Offline on the channel bound to the identity, the channel's later loss issues no second offline-time update |
| Sessions.OnlineThenChannelLossUndoes | Gateway/src/main/java/com/argo/qpush/gateway/handler/MobileMessageHandler.java:265-281 | losing the channel a new identity just came online on restores the identity map; the effects are close, client-keeper removal, and an offline-time update carrying the recorded time |
| Scenarios.OnlineKeepAliveOffline | Gateway/src/main/java/com/argo/qpush/gateway/handler/MobileMessageHandler.java:84-166 | Online, KeepAlive, Offline on one channel send two sync acks, leave the registry empty, and issue one offline-time update |
| Scenarios.SecondDeviceKicksOffFirst | Gateway/src/main/java/com/argo/qpush/gateway/handler/MobileMessageHandler.java:169-204 | a second device's Online for the same user on another channel sends multi_clients to the first channel, and the user then maps to the connection on the second channel |
| Scenarios.TwoDevicesThenChannelLoss | Gateway/src/main/java/com/argo/qpush/gateway/handler/MobileMessageHandler.java:265-281 | with two users online on two channels, losing the first channel closes, forgets and persists the offline time of the first user only; the second channel still leads to the second user's connection |
| Scenarios.SharedChannelStrandsFirstUser | Gateway/src/main/java/com/argo/qpush/gateway/handler/MobileMessageHandler.java:169-204 | a second user's Online on the channel the first user is bound to keeps the registry consistent, moves the channel's binding to the second user and leaves the first user's entry recording that channel; the channel's loss then cleans up the second user only, and the first user stays registered with no channel leading to it |

## Left out

- Netty plumbing is left out: channel contexts, buffer allocation, reference-count release, flush, and the `channelActive`/`channelReadComplete` logging. A channel is an opaque integer id (its hash code).
- Protocol-buffer decoding and encoding are left out. A decode failure is the `Undecodable` input, and the ack frame is a datatype, not bytes.
- The numeric op-code values come from the protocol-buffer definition, which is not part of this model. The values 1 to 6 are assumed; the proofs rely only on the codes being positive and distinct.
- Metrics (`MetricBuilder` meters) and logging are left out. `typeId` is carried on the event but only selects a metrics counter.
- Threading is left out. Worker-pool submissions become effects in submission order. Asynchronous write completion becomes the `writeFails` input, and the resulting close is placed right after the write. Registry concurrency and cross-channel races are not modelled; the model is single-threaded.
- `Connection`, `ConnectionKeeper`, `ClientKeeper`, `ClientServiceImpl` and the registration task are not part of this model. Their calls appear as effects or as the registry operations above.
- `ConnectionKeeper` is assumed to behave as a pair of maps kept in step. Removal by identity (lines 145 and 174) and removal by channel (line 280) drop the entry from both the identity view and the channel view. An add (line 200) binds the connection's channel, replacing an earlier binding of that channel. `Sessions.OfflineThenChannelLossIsQuiet` and the last conjunct of `Properties.KickOffRebindsIdentity` depend on removal by identity dropping the channel binding. The clause of `Handler.LostConnection` saying that the lost connection leaves the registry, `Sessions.OnlineThenChannelLossUndoes`, `Scenarios.TwoDevicesThenChannelLoss` and `Scenarios.SharedChannelStrandsFirstUser` depend on removal by channel dropping the identity entry.
- `Connection.close()` is modelled as `Close` of the connection's channel. Its idempotence is not modelled.
- `lastOpTime` is never updated by the handler. It is an uninterpreted field set from `now` when a connection is built.
- CaseFold.EqualsIgnoreCaseIffUpperEqual: Java's `equalsIgnoreCase` applies Unicode case mapping; the model maps only ASCII letters.
- CaseFold.CharMatchesIffUpperEqual: holds for the ASCII case mapping only. Under Java's Unicode mapping the lower-case step is not redundant: the Kelvin sign U+212A and `k` differ upper-cased but agree lower-cased.
- Effects.Ack: a connection's context is never null in the model, because every connection is built from a live channel. The null-context branch is covered by passing `None`, the same as a null connection.
- Sessions.NewSession: the status after the first event is the unseen constructor's (`Unset`), so Online is promised only from the second event on.
- Sessions.Run: one `now` and one `writeFails` serve the whole run; a run does not model time passing or a write that fails on one event and succeeds on the next.
- Sessions.Run: inputs keep being handled after the run has closed the channel (after an invalid input, an Offline, or a failed ack write). A closed Netty channel delivers nothing more, so those later steps describe inputs that cannot arrive.
