/** Several events in a row: a session of one device on one channel, and
    the interplay of sign-off and transport loss. */
module Sessions {
  import opened Util
  import opened CaseFold
  import opened Registry
  import opened Events
  import opened Effects
  import opened Handler
  import opened Properties

  /** The inputs arriving on channel `ctx`, handled in order; the effects
      are concatenated in the same order. */
  function Run(reg: Registry, ctx: ChannelId, inputs: seq<Input>, now: int, writeFails: set<ChannelId>)
    : (out: Outcome)
    ensures Valid(reg) ==> Valid(out.registry)
    decreases |inputs|
  {
    if |inputs| == 0 then Outcome(reg, [])
    else
      var first := ChannelRead(reg, ctx, inputs[0], now, writeFails);
      var rest := Run(first.registry, ctx, inputs[1..], now, writeFails);
      Outcome(rest.registry, first.effects + rest.effects)
  }

  /** One step of a run: the first input, then the rest. */
  lemma RunStep(reg: Registry, ctx: ChannelId, inputs: seq<Input>, now: int, writeFails: set<ChannelId>)
    requires |inputs| > 0
    ensures var first := ChannelRead(reg, ctx, inputs[0], now, writeFails);
            var rest := Run(first.registry, ctx, inputs[1..], now, writeFails);
            Run(reg, ctx, inputs, now, writeFails) == Outcome(rest.registry, first.effects + rest.effects)
  {
  }

  /** An event that keeps a session alive: Online, KeepAlive or Awake for
      identity `key` with device token `token`. */
  predicate SessionEvent(input: Input, key: Key, token: string) {
    && input.Decoded?
    && Acceptable(input.event)
    && input.event.op in {OpOnline, OpKeepAlive, OpAwake}
    && input.event.KeyOf() == key
    && input.event.token == token
  }

  /** `n` copies of a `sync` ack to `ch`. */
  function SyncAcks(ch: ChannelId, n: nat): (acks: seq<Effect>)
    ensures |acks| == n && forall i :: 0 <= i < n ==> acks[i] == Send(ch, Payload(Sync))
  {
    seq(n, _ => Send(ch, Payload(Sync)))
  }

  /** One session event on a registered connection with a matching token. */
  lemma SessionStep(reg: Registry, ctx: ChannelId, input: Input, now: int, writeFails: set<ChannelId>,
                    key: Key, token: string, conn: Connection)
    requires Get(reg, key) == Some(conn) && EqualsIgnoreCase(conn.token, token)
    requires SessionEvent(input, key, token)
    ensures var first := ChannelRead(reg, ctx, input, now, writeFails);
            && Get(first.registry, key) == Some(conn.(status := Online))
            && (forall k :: k != key ==> Get(first.registry, k) == Get(reg, k))
            && Filter(first.effects, IsSyncAck) == [Send(conn.channel, Payload(Sync))]
            && Filter(first.effects, IsKickOffAck) == []
  {
    SameTokenReusesConnection(reg, ctx, input.event, now, writeFails);
  }

  /** The first session event of an unregistered identity. */
  lemma FirstSessionStep(reg: Registry, ctx: ChannelId, input: Input, now: int, writeFails: set<ChannelId>,
                         key: Key, token: string)
    requires Get(reg, key).None?
    requires SessionEvent(input, key, token)
    ensures var first := ChannelRead(reg, ctx, input, now, writeFails);
            var c := Get(first.registry, key);
            && c.Some? && c.value.channel == ctx && c.value.token == token
            && Filter(first.effects, IsSyncAck) == [Send(ctx, Payload(Sync))]
            && Filter(first.effects, IsKickOffAck) == []
  {
    NewIdentityRegistered(reg, ctx, input.event, now, writeFails);
    AcknowledgedOpsSendOneSyncAck(reg, ctx, input.event, now, writeFails);
  }

  /** Joining the acks of one session event to those of the rest of the session. */
  lemma JoinSessionAcks(first: seq<Effect>, rest: seq<Effect>, ch: ChannelId, n: nat)
    requires Filter(first, IsSyncAck) == [Send(ch, Payload(Sync))] && Filter(first, IsKickOffAck) == []
    requires Filter(rest, IsSyncAck) == SyncAcks(ch, n) && Filter(rest, IsKickOffAck) == []
    ensures Filter(first + rest, IsSyncAck) == SyncAcks(ch, n + 1)
    ensures Filter(first + rest, IsKickOffAck) == []
  {
    FilterAppend(first, rest, IsSyncAck);
    FilterAppend(first, rest, IsKickOffAck);
    assert SyncAcks(ch, n + 1) == [Send(ch, Payload(Sync))] + SyncAcks(ch, n);
  }

  /** A session resumed on a registered connection with a matching token
      keeps that connection: it stays bound to its own channel, ends up
      online, every event is answered by one `sync` ack on that channel,
      nobody is kicked off and no other identity is touched. */
  lemma {:induction false} ResumedSession(
    reg: Registry, ctx: ChannelId, inputs: seq<Input>, now: int, writeFails: set<ChannelId>,
    key: Key, token: string, conn: Connection)
    requires Get(reg, key) == Some(conn) && EqualsIgnoreCase(conn.token, token)
    requires |inputs| > 0 && forall i :: 0 <= i < |inputs| ==> SessionEvent(inputs[i], key, token)
    ensures var out := Run(reg, ctx, inputs, now, writeFails);
            && Get(out.registry, key) == Some(conn.(status := Online))
            && (forall k :: k != key ==> Get(out.registry, k) == Get(reg, k))
            && Filter(out.effects, IsSyncAck) == SyncAcks(conn.channel, |inputs|)
            && Filter(out.effects, IsKickOffAck) == []
    decreases |inputs|
  {
    var first := ChannelRead(reg, ctx, inputs[0], now, writeFails);
    var rest := Run(first.registry, ctx, inputs[1..], now, writeFails);
    RunStep(reg, ctx, inputs, now, writeFails);
    SessionStep(reg, ctx, inputs[0], now, writeFails, key, token, conn);
    if |inputs| == 1 {
      assert rest == Outcome(first.registry, []);
      JoinSessionAcks(first.effects, [], conn.channel, 0);
      assert first.effects + [] == first.effects;
    } else {
      assert forall i :: 0 <= i < |inputs| - 1 ==> inputs[1..][i] == inputs[i + 1];
      ResumedSession(first.registry, ctx, inputs[1..], now, writeFails, key, token, conn.(status := Online));
      JoinSessionAcks(first.effects, rest.effects, conn.channel, |inputs| - 1);
    }
  }

  /** A session opened by a device whose identity is not registered: the
      identity ends up bound to the requesting channel with the device's
      token, online once a second event has arrived, and every event is
      answered by one `sync` ack on that channel. */
  lemma NewSession(
    reg: Registry, ctx: ChannelId, inputs: seq<Input>, now: int, writeFails: set<ChannelId>,
    key: Key, token: string)
    requires Get(reg, key).None?
    requires |inputs| > 0 && forall i :: 0 <= i < |inputs| ==> SessionEvent(inputs[i], key, token)
    ensures var out := Run(reg, ctx, inputs, now, writeFails);
            var c := Get(out.registry, key);
            && c.Some? && c.value.channel == ctx && c.value.token == token
            && (|inputs| >= 2 ==> c.value.status == Online)
            && Filter(out.effects, IsSyncAck) == SyncAcks(ctx, |inputs|)
            && Filter(out.effects, IsKickOffAck) == []
  {
    var first := ChannelRead(reg, ctx, inputs[0], now, writeFails);
    var rest := Run(first.registry, ctx, inputs[1..], now, writeFails);
    RunStep(reg, ctx, inputs, now, writeFails);
    FirstSessionStep(reg, ctx, inputs[0], now, writeFails, key, token);
    if |inputs| == 1 {
      assert rest == Outcome(first.registry, []);
      JoinSessionAcks(first.effects, [], ctx, 0);
      assert first.effects + [] == first.effects;
    } else {
      SessionContinues(first.registry, ctx, inputs[1..], now, writeFails, key, token);
      JoinSessionAcks(first.effects, rest.effects, ctx, |inputs| - 1);
    }
  }

  /** The rest of a new session, once its first event has registered a
      connection on the requesting channel. */
  lemma SessionContinues(
    reg: Registry, ctx: ChannelId, inputs: seq<Input>, now: int, writeFails: set<ChannelId>,
    key: Key, token: string)
    requires Get(reg, key).Some? && Get(reg, key).value.channel == ctx && Get(reg, key).value.token == token
    requires |inputs| > 0 && forall i :: 0 <= i < |inputs| ==> SessionEvent(inputs[i], key, token)
    ensures var out := Run(reg, ctx, inputs, now, writeFails);
            var c := Get(out.registry, key);
            && c.Some? && c.value.channel == ctx && c.value.token == token && c.value.status == Online
            && Filter(out.effects, IsSyncAck) == SyncAcks(ctx, |inputs|)
            && Filter(out.effects, IsKickOffAck) == []
  {
    EqualsIgnoreCaseIsEquivalence(token, token, token);
    ResumedSession(reg, ctx, inputs, now, writeFails, key, token, Get(reg, key).value);
  }

  /** Losing a channel twice: the second loss finds nothing and does nothing. */
  lemma LostConnectionIsIdempotent(reg: Registry, ch: ChannelId)
    ensures var once := LostConnection(reg, ch);
            LostConnection(once.registry, ch) == Outcome(once.registry, [])
  {
    var once := LostConnection(reg, ch);
    assert ch !in once.registry.byChannel;
    assert once.registry.byChannel - {ch} == once.registry.byChannel;
  }

  /** After a device signs off on the channel its connection is bound to,
      the closing of that channel issues no second offline-time update: the
      sign-off already dropped the channel's binding. */
  lemma OfflineThenChannelLossIsQuiet(reg: Registry, ctx: ChannelId, ev: Event, now: int, writeFails: set<ChannelId>)
    requires Valid(reg)
    requires Acceptable(ev) && ev.op == OpOffline
    requires GetByChannel(reg, ctx).Some? && GetByChannel(reg, ctx).value.KeyOf() == ev.KeyOf()
    ensures var out := ChannelRead(reg, ctx, Decoded(ev), now, writeFails);
            LostConnection(out.registry, ctx).effects == []
  {
    var out := ChannelRead(reg, ctx, Decoded(ev), now, writeFails);
    assert reg.byChannel[ctx] == ev.KeyOf();
    assert ctx !in out.registry.byChannel;
  }

  /** Losing the channel a device has just come online on undoes the
      registration: the identity is gone again, and the offline time persisted
      is the one the new connection recorded. */
  lemma OnlineThenChannelLossUndoes(reg: Registry, ctx: ChannelId, ev: Event, now: int, writeFails: set<ChannelId>)
    requires Valid(reg)
    requires Acceptable(ev) && ev.op == OpOnline
    requires Get(reg, ev.KeyOf()).None?
    ensures var online := ChannelRead(reg, ctx, Decoded(ev), now, writeFails);
            var lost := LostConnection(online.registry, ctx);
            && lost.registry.byKey == reg.byKey
            && lost.effects == [Close(ctx), ForgetClient(ev.appKey, ev.userId), UpdateOfflineTs(ev.userId, now)]
  {
    var online := ChannelRead(reg, ctx, Decoded(ev), now, writeFails);
    NewIdentityRegistered(reg, ctx, ev, now, writeFails);
    var c := Get(online.registry, ev.KeyOf()).value;
    assert c == NewConnection(ctx, ev, now);
    var lost := LostConnection(online.registry, ctx);
    assert Get(lost.registry, ev.KeyOf()).None?;
    forall k | true
      ensures k in lost.registry.byKey <==> k in reg.byKey
      ensures k in reg.byKey ==> lost.registry.byKey[k] == reg.byKey[k]
    {
      if k != ev.KeyOf() {
        assert Get(lost.registry, k) == Get(online.registry, k) == Get(reg, k);
      }
    }
  }
}
