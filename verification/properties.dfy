/** Properties of the handler that relate its outcome to the event: which
    registry entries exist afterwards, which acknowledgements go to which
    channel, and which store calls are issued. */
module Properties {
  import opened Util
  import opened CaseFold
  import opened Registry
  import opened Events
  import opened Effects
  import opened Handler

  /** An ack a device reads as a normal `sync` acknowledgement. */
  predicate IsSyncAck(e: Effect) { e.Send? && ResultOf(e.message) == Some(Sync) }

  /** An ack a device reads as a notice that another session took its place. */
  predicate IsKickOffAck(e: Effect) { e.Send? && ResultOf(e.message) == Some(MultiClients) }

  predicate IsBadgeUpdate(e: Effect) { e.UpdateBadge? }
  predicate IsOfflineTsUpdate(e: Effect) { e.UpdateOfflineTs? }
  predicate IsStatusUpdate(e: Effect) { e.UpdateStatus? }
  predicate IsRegistration(e: Effect) { e.RegisterClient? }

  /** Operation codes that resolve the event's connection first. */
  predicate Resolves(op: int) {
    op in {OpOnline, OpKeepAlive, OpSleep, OpAwake, OpPushAck}
  }

  /** Operation codes answered with a `sync` acknowledgement. */
  predicate Acknowledged(op: int) {
    op in {OpOnline, OpKeepAlive, OpAwake, OpPushAck}
  }

  /** Which frames a device reads as which kind of ack. */
  lemma AckKinds(ch: ChannelId)
    ensures IsSyncAck(Send(ch, Payload(Sync))) && !IsKickOffAck(Send(ch, Payload(Sync)))
    ensures IsKickOffAck(Send(ch, Payload(MultiClients))) && !IsSyncAck(Send(ch, Payload(MultiClients)))
  {
    PayloadRoundTrip(Sync, MultiClients);
    PayloadRoundTrip(MultiClients, Sync);
  }

  /** Filtering the effects of one ack write. */
  lemma AckFiltered(ch: ChannelId, result: string, writeFails: set<ChannelId>, p: Effect -> bool)
    ensures Filter(Ack(Some(ch), result, writeFails), p) ==
            (if p(Send(ch, Payload(result))) then [Send(ch, Payload(result))] else []) +
            (if ch in writeFails && p(Close(ch)) then [Close(ch)] else [])
  {
    var tail: seq<Effect> := if ch in writeFails then [Close(ch)] else [];
    FilterAppend([Send(ch, Payload(result))], tail, p);
    FilterSingleton(Send(ch, Payload(result)), p);
    if ch in writeFails {
      FilterSingleton(Close(ch), p);
    }
  }

  /** The effects of connection resolution are at most a kick-off ack to the
      evicted connection's channel and the close that follows its failed write. */
  lemma ResolutionEffects(reg: Registry, ctx: ChannelId, ev: Event, now: int, writeFails: set<ChannelId>)
    ensures var b := BuildConnection(reg, ctx, ev, now, writeFails);
            forall i :: 0 <= i < |b.effects| ==>
              Get(reg, ev.KeyOf()).Some? &&
              (b.effects[i] == Send(Get(reg, ev.KeyOf()).value.channel, Payload(MultiClients)) ||
               b.effects[i] == Close(Get(reg, ev.KeyOf()).value.channel))
  {
  }

  /** The filter `p` keeps nothing of the resolution's effects when it keeps
      neither kick-off acks nor closes. */
  lemma ResolutionFilteredAway(reg: Registry, ctx: ChannelId, ev: Event, now: int, writeFails: set<ChannelId>,
                               p: Effect -> bool)
    requires forall ch :: !p(Send(ch, Payload(MultiClients))) && !p(Close(ch))
    ensures Filter(BuildConnection(reg, ctx, ev, now, writeFails).effects, p) == []
  {
    ResolutionEffects(reg, ctx, ev, now, writeFails);
    FilterNone(BuildConnection(reg, ctx, ev, now, writeFails).effects, p);
  }

  /** A kick-off ack is never read as a `sync` ack. */
  lemma KickOffIsNotSync()
    ensures forall ch: ChannelId :: !IsSyncAck(Send(ch, Payload(MultiClients)))
  {
    forall ch: ChannelId
      ensures !IsSyncAck(Send(ch, Payload(MultiClients)))
    {
      AckKinds(ch);
    }
  }

  /** Filtering distributes over a four-part concatenation. */
  lemma FilterAppend4(a: seq<Effect>, b: seq<Effect>, c: seq<Effect>, d: seq<Effect>, p: Effect -> bool)
    ensures Filter(a + b + c + d, p) == Filter(a, p) + Filter(b, p) + Filter(c, p) + Filter(d, p)
  {
    FilterAppend(a + b + c, d, p);
    FilterAppend(a + b, c, p);
    FilterAppend(a, b, p);
  }

  /** The badge update a PushAck submits before resolving its connection. */
  function BadgeTask(ev: Event): seq<Effect> {
    if ev.op == OpPushAck then BadgeUpdate(ev) else []
  }

  /** The registration Online and Awake submit between resolution and ack. */
  function RegistrationTask(ev: Event): seq<Effect> {
    if ev.op in {OpOnline, OpAwake} then [RegisterClient(ev)] else []
  }

  /** The outcome of an acknowledged operation, laid out in issue order:
      badge task, resolution effects, registration task, `sync` ack. */
  lemma AcknowledgedLayout(reg: Registry, ctx: ChannelId, ev: Event, now: int, writeFails: set<ChannelId>)
    requires Acceptable(ev) && Acknowledged(ev.op)
    ensures var b := BuildConnection(reg, ctx, ev, now, writeFails);
            var out := ChannelRead(reg, ctx, Decoded(ev), now, writeFails);
            && out.registry == b.registry
            && out.effects == BadgeTask(ev) + b.effects + RegistrationTask(ev) + Ack(Some(b.conn.channel), Sync, writeFails)
  {
    var b := BuildConnection(reg, ctx, ev, now, writeFails);
    if ev.op == OpKeepAlive {
      assert b.effects + Ack(Some(b.conn.channel), Sync, writeFails)
          == [] + b.effects + [] + Ack(Some(b.conn.channel), Sync, writeFails);
    } else if ev.op == OpPushAck {
      assert BadgeTask(ev) + b.effects + Ack(Some(b.conn.channel), Sync, writeFails)
          == BadgeTask(ev) + b.effects + [] + Ack(Some(b.conn.channel), Sync, writeFails);
    } else {
      assert b.effects + [RegisterClient(ev)] + Ack(Some(b.conn.channel), Sync, writeFails)
          == [] + b.effects + [RegisterClient(ev)] + Ack(Some(b.conn.channel), Sync, writeFails);
    }
  }

  /** Whatever comes before it, an ack write is the only `sync` ack in a
      sequence whose other parts carry none. */
  lemma OnlySyncAckIsLast(pre: seq<Effect>, ch: ChannelId, writeFails: set<ChannelId>)
    requires forall i :: 0 <= i < |pre| ==> !IsSyncAck(pre[i])
    ensures Filter(pre + Ack(Some(ch), Sync, writeFails), IsSyncAck) == [Send(ch, Payload(Sync))]
  {
    AckKinds(ch);
    FilterNone(pre, IsSyncAck);
    AckFiltered(ch, Sync, writeFails, IsSyncAck);
    FilterAppend(pre, Ack(Some(ch), Sync, writeFails), IsSyncAck);
  }

  /** Any input on `ctx` leaves every other channel leading to the same
      connection as before, unless that channel led to the event's identity. */
  lemma OtherChannelsUnaffected(reg: Registry, ctx: ChannelId, input: Input, now: int, writeFails: set<ChannelId>,
                                ch: ChannelId)
    requires Valid(reg) && ch != ctx
    requires input.Decoded? ==>
               GetByChannel(reg, ch).None? || GetByChannel(reg, ch).value.KeyOf() != input.event.KeyOf()
    ensures GetByChannel(ChannelRead(reg, ctx, input, now, writeFails).registry, ch) == GetByChannel(reg, ch)
  {
    var out := ChannelRead(reg, ctx, input, now, writeFails);
    if input.Decoded? && ch in reg.byChannel {
      assert reg.byChannel[ch] == GetByChannel(reg, ch).value.KeyOf();
      assert out.registry.byChannel[ch] == reg.byChannel[ch];
    }
  }

  /** Online, KeepAlive, Awake and PushAck answer with exactly one `sync` ack,
      on the channel of the connection the event resolved to. */
  lemma AcknowledgedOpsSendOneSyncAck(reg: Registry, ctx: ChannelId, ev: Event, now: int, writeFails: set<ChannelId>)
    requires Acceptable(ev) && Acknowledged(ev.op)
    ensures var out := ChannelRead(reg, ctx, Decoded(ev), now, writeFails);
            && Get(out.registry, ev.KeyOf()).Some?
            && Filter(out.effects, IsSyncAck) == [Send(Get(out.registry, ev.KeyOf()).value.channel, Payload(Sync))]
  {
    var b := BuildConnection(reg, ctx, ev, now, writeFails);
    var pre := BadgeTask(ev) + b.effects + RegistrationTask(ev);
    AcknowledgedLayout(reg, ctx, ev, now, writeFails);
    ResolutionEffects(reg, ctx, ev, now, writeFails);
    KickOffIsNotSync();
    forall i | 0 <= i < |pre|
      ensures !IsSyncAck(pre[i])
    {
      if i < |BadgeTask(ev)| {
        assert pre[i] == BadgeTask(ev)[i];
      } else if i < |BadgeTask(ev)| + |b.effects| {
        assert pre[i] == b.effects[i - |BadgeTask(ev)|];
      } else {
        assert pre[i] == RegistrationTask(ev)[i - |BadgeTask(ev)| - |b.effects|];
      }
    }
    OnlySyncAckIsLast(pre, b.conn.channel, writeFails);
  }

  /** Filtering a laid-out outcome with a filter that keeps no ack write
      and no close: only the badge task and the registration task remain. */
  lemma FilterTasks(badge: seq<Effect>, kick: seq<Effect>, tasks: seq<Effect>, ch: ChannelId,
                    writeFails: set<ChannelId>, p: Effect -> bool)
    requires forall i :: 0 <= i < |kick| ==> kick[i].Send? || kick[i].Close?
    requires forall e: Effect :: e.Send? || e.Close? ==> !p(e)
    ensures Filter(badge + kick + tasks + Ack(Some(ch), Sync, writeFails), p) == Filter(badge, p) + Filter(tasks, p)
  {
    var ack := Ack(Some(ch), Sync, writeFails);
    FilterNone(kick, p);
    FilterNone(ack, p);
    FilterAppend4(badge, kick, tasks, ack, p);
  }

  /** Online and Awake submit exactly one client registration, for the event
      itself; KeepAlive and PushAck submit none. */
  lemma AcknowledgedOpsRegistration(reg: Registry, ctx: ChannelId, ev: Event, now: int, writeFails: set<ChannelId>)
    requires Acceptable(ev) && Acknowledged(ev.op)
    ensures Filter(ChannelRead(reg, ctx, Decoded(ev), now, writeFails).effects, IsRegistration) ==
              (if ev.op == OpOnline || ev.op == OpAwake then [RegisterClient(ev)] else [])
  {
    var b := BuildConnection(reg, ctx, ev, now, writeFails);
    AcknowledgedLayout(reg, ctx, ev, now, writeFails);
    ResolutionIsAcksAndCloses(reg, ctx, ev, now, writeFails);
    RegistrationsOfLayout(ev, b.effects, b.conn.channel, writeFails);
  }

  /** Resolution issues only ack writes and closes. */
  lemma ResolutionIsAcksAndCloses(reg: Registry, ctx: ChannelId, ev: Event, now: int, writeFails: set<ChannelId>)
    ensures var b := BuildConnection(reg, ctx, ev, now, writeFails);
            forall i :: 0 <= i < |b.effects| ==> b.effects[i].Send? || b.effects[i].Close?
  {
    ResolutionEffects(reg, ctx, ev, now, writeFails);
  }

  /** In the layout of an acknowledged operation, the registrations are the
      registration task. */
  lemma RegistrationsOfLayout(ev: Event, kick: seq<Effect>, ch: ChannelId, writeFails: set<ChannelId>)
    requires forall i :: 0 <= i < |kick| ==> kick[i].Send? || kick[i].Close?
    ensures Filter(BadgeTask(ev) + kick + RegistrationTask(ev) + Ack(Some(ch), Sync, writeFails), IsRegistration)
            == RegistrationTask(ev)
  {
    FilterTasks(BadgeTask(ev), kick, RegistrationTask(ev), ch, writeFails, IsRegistration);
    if ev.op == OpPushAck && ev.read > 0 {
      FilterSingleton(UpdateBadge(ev.userId, -ev.read), IsRegistration);
    }
    if ev.op in {OpOnline, OpAwake} {
      FilterSingleton(RegisterClient(ev), IsRegistration);
    }
  }

  /** In the layout of an acknowledged operation, the badge updates are the
      badge task. */
  lemma BadgesOfLayout(ev: Event, kick: seq<Effect>, ch: ChannelId, writeFails: set<ChannelId>)
    requires forall i :: 0 <= i < |kick| ==> kick[i].Send? || kick[i].Close?
    ensures Filter(BadgeTask(ev) + kick + RegistrationTask(ev) + Ack(Some(ch), Sync, writeFails), IsBadgeUpdate)
            == BadgeTask(ev)
  {
    FilterTasks(BadgeTask(ev), kick, RegistrationTask(ev), ch, writeFails, IsBadgeUpdate);
    if ev.op in {OpOnline, OpAwake} {
      FilterSingleton(RegisterClient(ev), IsBadgeUpdate);
    }
    if ev.op == OpPushAck && ev.read > 0 {
      FilterSingleton(UpdateBadge(ev.userId, -ev.read), IsBadgeUpdate);
    }
  }

  /** PushAck with a positive read count submits exactly one badge update, by
      minus that count; with a count of zero or less it submits none. */
  lemma PushAckBadge(reg: Registry, ctx: ChannelId, ev: Event, now: int, writeFails: set<ChannelId>)
    requires Acceptable(ev) && ev.op == OpPushAck
    ensures Filter(ChannelRead(reg, ctx, Decoded(ev), now, writeFails).effects, IsBadgeUpdate) ==
              (if ev.read > 0 then [UpdateBadge(ev.userId, -ev.read)] else [])
  {
    var b := BuildConnection(reg, ctx, ev, now, writeFails);
    AcknowledgedLayout(reg, ctx, ev, now, writeFails);
    ResolutionIsAcksAndCloses(reg, ctx, ev, now, writeFails);
    BadgesOfLayout(ev, b.effects, b.conn.channel, writeFails);
  }

  /** Sleep marks the resolved connection as sleeping, submits exactly one
      status update to Sleep for the user, and sends no `sync` ack. */
  lemma SleepMarksConnection(reg: Registry, ctx: ChannelId, ev: Event, now: int, writeFails: set<ChannelId>)
    requires Acceptable(ev) && ev.op == OpSleep
    ensures var out := ChannelRead(reg, ctx, Decoded(ev), now, writeFails);
            var b := BuildConnection(reg, ctx, ev, now, writeFails);
            && Get(out.registry, ev.KeyOf()) == Some(b.conn.(status := Sleep))
            && Filter(out.effects, IsStatusUpdate) == [UpdateStatus(ev.userId, Sleep)]
            && Filter(out.effects, IsSyncAck) == []
  {
    var b := BuildConnection(reg, ctx, ev, now, writeFails);
    var out := ChannelRead(reg, ctx, Decoded(ev), now, writeFails);
    assert out.effects == b.effects + [UpdateStatus(ev.userId, Sleep)];
    KickOffIsNotSync();
    ResolutionFilteredAway(reg, ctx, ev, now, writeFails, IsStatusUpdate);
    ResolutionFilteredAway(reg, ctx, ev, now, writeFails, IsSyncAck);
    FilterSingleton(UpdateStatus(ev.userId, Sleep), IsStatusUpdate);
    FilterSingleton(UpdateStatus(ev.userId, Sleep), IsSyncAck);
    FilterAppend(b.effects, [UpdateStatus(ev.userId, Sleep)], IsStatusUpdate);
    FilterAppend(b.effects, [UpdateStatus(ev.userId, Sleep)], IsSyncAck);
  }

  predicate IsAck(e: Effect) { e.Send? }

  /** What follows connection resolution for each resolving operation. */
  function AfterResolution(ev: Event, conn: Connection, writeFails: set<ChannelId>): seq<Effect> {
    if ev.op == OpSleep then [UpdateStatus(ev.userId, Sleep)]
    else RegistrationTask(ev) + Ack(Some(conn.channel), Sync, writeFails)
  }

  /** The outcome of every resolving operation: badge task, resolution
      effects, then the operation's own tasks and ack; the registry is the
      resolved one, with the status set to Sleep for Sleep. */
  lemma ResolvingLayout(reg: Registry, ctx: ChannelId, ev: Event, now: int, writeFails: set<ChannelId>)
    requires Acceptable(ev) && Resolves(ev.op)
    ensures var b := BuildConnection(reg, ctx, ev, now, writeFails);
            var out := ChannelRead(reg, ctx, Decoded(ev), now, writeFails);
            && out.effects == BadgeTask(ev) + b.effects + AfterResolution(ev, b.conn, writeFails)
            && out.registry == (if ev.op == OpSleep then SetStatus(b.registry, ev.KeyOf(), Sleep) else b.registry)
  {
    if ev.op == OpSleep {
      SleepLayout(reg, ctx, ev, now, writeFails);
    } else {
      AcknowledgedLayout(reg, ctx, ev, now, writeFails);
    }
  }

  /** The outcome of Sleep: the resolved registry with the status set to
      Sleep, the resolution's effects, then the status update. */
  lemma SleepLayout(reg: Registry, ctx: ChannelId, ev: Event, now: int, writeFails: set<ChannelId>)
    requires Acceptable(ev) && ev.op == OpSleep
    ensures var b := BuildConnection(reg, ctx, ev, now, writeFails);
            var out := ChannelRead(reg, ctx, Decoded(ev), now, writeFails);
            && out.effects == [] + b.effects + [UpdateStatus(ev.userId, Sleep)]
            && out.registry == SetStatus(b.registry, ev.KeyOf(), Sleep)
  {
    var b := BuildConnection(reg, ctx, ev, now, writeFails);
    assert [] + b.effects == b.effects;
  }

  /** The kick-off acks of a resolving operation are those of its resolution. */
  lemma ResolvedKickOffs(reg: Registry, ctx: ChannelId, ev: Event, now: int, writeFails: set<ChannelId>)
    requires Acceptable(ev) && Resolves(ev.op)
    ensures Filter(ChannelRead(reg, ctx, Decoded(ev), now, writeFails).effects, IsKickOffAck)
            == Filter(BuildConnection(reg, ctx, ev, now, writeFails).effects, IsKickOffAck)
  {
    var b := BuildConnection(reg, ctx, ev, now, writeFails);
    ResolvingLayout(reg, ctx, ev, now, writeFails);
    KickOffsOfLayout(ev, b.effects, b.conn, writeFails);
  }

  /** In a laid-out outcome only the resolution's effects can be kick-off acks. */
  lemma KickOffsOfLayout(ev: Event, kick: seq<Effect>, conn: Connection, writeFails: set<ChannelId>)
    ensures Filter(BadgeTask(ev) + kick + AfterResolution(ev, conn, writeFails), IsKickOffAck)
            == Filter(kick, IsKickOffAck)
  {
    NoKickOffAfterResolution(ev, conn, writeFails);
    FilterAppend(BadgeTask(ev) + kick, AfterResolution(ev, conn, writeFails), IsKickOffAck);
    FilterAppend(BadgeTask(ev), kick, IsKickOffAck);
  }

  /** No kick-off ack follows resolution. */
  lemma NoKickOffAfterResolution(ev: Event, conn: Connection, writeFails: set<ChannelId>)
    ensures Filter(AfterResolution(ev, conn, writeFails), IsKickOffAck) == []
    ensures Filter(BadgeTask(ev), IsKickOffAck) == []
  {
    AckKinds(conn.channel);
    FilterNone(BadgeTask(ev), IsKickOffAck);
    if ev.op == OpSleep {
      FilterSingleton(UpdateStatus(ev.userId, Sleep), IsKickOffAck);
    } else {
      FilterNone(RegistrationTask(ev), IsKickOffAck);
      AckFiltered(conn.channel, Sync, writeFails, IsKickOffAck);
      FilterAppend(RegistrationTask(ev), Ack(Some(conn.channel), Sync, writeFails), IsKickOffAck);
    }
  }

  /** First event of an unknown identity: a new connection carrying the
      event's identity and token is registered and bound to the requesting
      channel, and nobody is told of a kick-off. */
  lemma NewIdentityRegistered(reg: Registry, ctx: ChannelId, ev: Event, now: int, writeFails: set<ChannelId>)
    requires Acceptable(ev) && Resolves(ev.op)
    requires Get(reg, ev.KeyOf()).None?
    ensures var out := ChannelRead(reg, ctx, Decoded(ev), now, writeFails);
            var c := Get(out.registry, ev.KeyOf());
            && c.Some?
            && c.value.userId == ev.userId && c.value.appKey == ev.appKey && c.value.token == ev.token
            && c.value.channel == ctx
            && GetByChannel(out.registry, ctx) == c
            && Filter(out.effects, IsKickOffAck) == []
            && (forall k :: k != ev.KeyOf() ==> Get(out.registry, k) == Get(reg, k))
  {
    var b := BuildConnection(reg, ctx, ev, now, writeFails);
    ResolvingLayout(reg, ctx, ev, now, writeFails);
    ResolvedKickOffs(reg, ctx, ev, now, writeFails);
  }

  /** A login with a different token (ignoring case) evicts the registered
      connection: the identity now maps to a new connection on the requesting
      channel with the new token, and the evicted connection can no longer be
      found by its channel. */
  lemma KickOffRebindsIdentity(reg: Registry, ctx: ChannelId, ev: Event, now: int, writeFails: set<ChannelId>)
    requires Valid(reg)
    requires Acceptable(ev) && Resolves(ev.op)
    requires Get(reg, ev.KeyOf()).Some? && !EqualsIgnoreCase(Get(reg, ev.KeyOf()).value.token, ev.token)
    ensures var prior := Get(reg, ev.KeyOf()).value;
            var out := ChannelRead(reg, ctx, Decoded(ev), now, writeFails);
            var c := Get(out.registry, ev.KeyOf());
            && c.Some? && c.value.channel == ctx && c.value.token == ev.token
            && (forall k :: k != ev.KeyOf() ==> Get(out.registry, k) == Get(reg, k))
            && GetByChannel(out.registry, prior.channel) != Some(prior)
  {
    var prior := Get(reg, ev.KeyOf()).value;
    var out := ChannelRead(reg, ctx, Decoded(ev), now, writeFails);
    ResolvingLayout(reg, ctx, ev, now, writeFails);
    EqualsIgnoreCaseIsEquivalence(ev.token, ev.token, ev.token);
    assert Valid(out.registry);
    assert Get(out.registry, prior.KeyOf()).value.token == ev.token;
  }

  /** On a kick-off the evicted connection's own channel, not the requesting
      one, gets exactly one `multi_clients` ack. */
  lemma KickOffAckOnce(reg: Registry, ctx: ChannelId, ev: Event, now: int, writeFails: set<ChannelId>)
    requires Acceptable(ev) && Resolves(ev.op)
    requires Get(reg, ev.KeyOf()).Some? && !EqualsIgnoreCase(Get(reg, ev.KeyOf()).value.token, ev.token)
    ensures Filter(ChannelRead(reg, ctx, Decoded(ev), now, writeFails).effects, IsKickOffAck)
            == [Send(Get(reg, ev.KeyOf()).value.channel, Payload(MultiClients))]
  {
    var prior := Get(reg, ev.KeyOf()).value;
    ResolvedKickOffs(reg, ctx, ev, now, writeFails);
    AckKinds(prior.channel);
    AckFiltered(prior.channel, MultiClients, writeFails, IsKickOffAck);
  }

  /** On a kick-off the evicted connection is not closed, unless the write of
      its `multi_clients` ack fails. */
  lemma KickOffDoesNotClose(reg: Registry, ctx: ChannelId, ev: Event, now: int, writeFails: set<ChannelId>)
    requires Acceptable(ev) && Resolves(ev.op)
    requires Get(reg, ev.KeyOf()).Some? && !EqualsIgnoreCase(Get(reg, ev.KeyOf()).value.token, ev.token)
    requires Get(reg, ev.KeyOf()).value.channel !in writeFails
    ensures Close(Get(reg, ev.KeyOf()).value.channel) !in ChannelRead(reg, ctx, Decoded(ev), now, writeFails).effects
  {
    var prior := Get(reg, ev.KeyOf()).value;
    var b := BuildConnection(reg, ctx, ev, now, writeFails);
    ResolvingLayout(reg, ctx, ev, now, writeFails);
    assert b.effects == [Send(prior.channel, Payload(MultiClients))];
    assert Close(prior.channel) !in AfterResolution(ev, b.conn, writeFails);
  }

  /** A login with the same token (ignoring case) keeps the registered
      connection: no new entry, no new channel binding, no kick-off; the
      connection keeps its channel and its activity time and is marked online
      (or sleeping, for Sleep); the `sync` ack goes to the connection's own
      channel, even when the event arrived on another one. */
  lemma SameTokenReusesConnection(reg: Registry, ctx: ChannelId, ev: Event, now: int, writeFails: set<ChannelId>)
    requires Acceptable(ev) && Resolves(ev.op)
    requires Get(reg, ev.KeyOf()).Some? && EqualsIgnoreCase(Get(reg, ev.KeyOf()).value.token, ev.token)
    ensures var prior := Get(reg, ev.KeyOf()).value;
            var out := ChannelRead(reg, ctx, Decoded(ev), now, writeFails);
            && Get(out.registry, ev.KeyOf()) == Some(prior.(status := if ev.op == OpSleep then Sleep else Online))
            && (forall k :: k != ev.KeyOf() ==> Get(out.registry, k) == Get(reg, k))
            && out.registry.byChannel == reg.byChannel
            && Filter(out.effects, IsKickOffAck) == []
            && (Acknowledged(ev.op) ==> Filter(out.effects, IsSyncAck) == [Send(prior.channel, Payload(Sync))])
  {
    var b := BuildConnection(reg, ctx, ev, now, writeFails);
    ResolvingLayout(reg, ctx, ev, now, writeFails);
    ResolvedKickOffs(reg, ctx, ev, now, writeFails);
    if Acknowledged(ev.op) {
      AcknowledgedOpsSendOneSyncAck(reg, ctx, ev, now, writeFails);
    }
  }

  /** The outcome of Offline: the identity removed, its sign-off, then the
      requesting channel closed. */
  lemma OfflineLayout(reg: Registry, ctx: ChannelId, ev: Event, now: int, writeFails: set<ChannelId>)
    requires Acceptable(ev) && ev.op == OpOffline
    ensures var out := ChannelRead(reg, ctx, Decoded(ev), now, writeFails);
            && out.registry == Remove(reg, ev.KeyOf()).registry
            && out.effects == SignOff(Get(reg, ev.KeyOf()), ev.userId) + [Close(ctx)]
  {
  }

  /** The sign-off's offline-time updates and acks. */
  lemma SignOffFiltered(removed: Option<Connection>, userId: string, ctx: ChannelId)
    ensures Filter(SignOff(removed, userId) + [Close(ctx)], IsAck) == []
    ensures Filter(SignOff(removed, userId) + [Close(ctx)], IsOfflineTsUpdate) ==
              (match removed
               case None => []
               case Some(c) => [UpdateOfflineTs(userId, c.lastOpTime)])
  {
    var effs := SignOff(removed, userId) + [Close(ctx)];
    FilterNone(effs, IsAck);
    FilterSingleton(Close(ctx), IsOfflineTsUpdate);
    FilterAppend(SignOff(removed, userId), [Close(ctx)], IsOfflineTsUpdate);
    match removed
    case None =>
    case Some(c) =>
      assert SignOff(removed, userId) == [Close(c.channel)] + [UpdateOfflineTs(userId, c.lastOpTime)];
      FilterSingleton(Close(c.channel), IsOfflineTsUpdate);
      FilterSingleton(UpdateOfflineTs(userId, c.lastOpTime), IsOfflineTsUpdate);
      FilterAppend([Close(c.channel)], [UpdateOfflineTs(userId, c.lastOpTime)], IsOfflineTsUpdate);
  }

  /** Offline removes the identity's entry; if there was one, its connection
      is closed and exactly one offline-time update carries its activity time;
      no ack is sent and the requesting channel is closed last. */
  lemma OfflineSignsOff(reg: Registry, ctx: ChannelId, ev: Event, now: int, writeFails: set<ChannelId>)
    requires Acceptable(ev) && ev.op == OpOffline
    ensures var out := ChannelRead(reg, ctx, Decoded(ev), now, writeFails);
            && Get(out.registry, ev.KeyOf()).None?
            && (forall k :: k != ev.KeyOf() ==> Get(out.registry, k) == Get(reg, k))
            && Filter(out.effects, IsAck) == []
            && |out.effects| > 0 && out.effects[|out.effects| - 1] == Close(ctx)
            && Filter(out.effects, IsOfflineTsUpdate) ==
                 (match Get(reg, ev.KeyOf())
                  case None => []
                  case Some(c) => [UpdateOfflineTs(ev.userId, c.lastOpTime)])
            && (Get(reg, ev.KeyOf()).Some? ==> Close(Get(reg, ev.KeyOf()).value.channel) in out.effects)
  {
    OfflineLayout(reg, ctx, ev, now, writeFails);
    SignOffFiltered(Get(reg, ev.KeyOf()), ev.userId, ctx);
  }
}
