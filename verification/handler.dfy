/** The protocol state machine of the mobile message handler: one decoded
    device event, or the loss of a transport, turns a registry into a new
    registry and a sequence of effects.

    Two inputs stand for what the handler cannot see: `now` is the activity
    timestamp a newly constructed connection records, and `writeFails` is the
    set of channels whose ack writes complete with a failure. */
module Handler {
  import opened Util
  import opened CaseFold
  import opened Registry
  import opened Events
  import opened Effects

  datatype Outcome = Outcome(registry: Registry, effects: seq<Effect>)

  datatype Resolved = Resolved(registry: Registry, conn: Connection, effects: seq<Effect>)

  /** A connection for the event's identity and token, bound to `ctx`. */
  function NewConnection(ctx: ChannelId, ev: Event, now: int): Connection {
    Connection(ev.appKey, ev.userId, ev.token, ctx, Unset, now)
  }

  /** Duplicate-login arbitration: finds or creates the connection the event
      belongs to.
      - no entry for the identity: a new connection bound to `ctx` is registered;
      - an entry with a different token (ignoring case): it is evicted, told so
        by a `multi_clients` ack on its own channel, and a new connection bound
        to `ctx` replaces it; the evicted connection is not closed here;
      - an entry with the same token: it is kept, bound to its own channel
        whichever channel the event came from, and marked online. */
  function BuildConnection(reg: Registry, ctx: ChannelId, ev: Event, now: int, writeFails: set<ChannelId>)
    : (res: Resolved)
    ensures Get(res.registry, ev.KeyOf()) == Some(res.conn)
    ensures forall k :: k != ev.KeyOf() ==> Get(res.registry, k) == Get(reg, k)
    ensures forall ch :: ch != ctx && ch in res.registry.byChannel ==>
              ch in reg.byChannel && res.registry.byChannel[ch] == reg.byChannel[ch]
    ensures forall ch :: ch != ctx && ch in reg.byChannel && reg.byChannel[ch] != ev.KeyOf() ==>
              ch in res.registry.byChannel
    ensures Valid(reg) ==> Valid(res.registry)
    ensures Get(reg, ev.KeyOf()).None? ==> res.effects == []
    ensures Get(reg, ev.KeyOf()).None? || !EqualsIgnoreCase(Get(reg, ev.KeyOf()).value.token, ev.token) ==>
              && res.conn.KeyOf() == ev.KeyOf()
              && res.conn.token == ev.token
              && res.conn.channel == ctx
              && res.conn.status == Unset
              && res.conn.lastOpTime == now
              && GetByChannel(res.registry, ctx) == Some(res.conn)
    ensures Get(reg, ev.KeyOf()).Some? && !EqualsIgnoreCase(Get(reg, ev.KeyOf()).value.token, ev.token) ==>
              res.effects == Ack(Some(Get(reg, ev.KeyOf()).value.channel), MultiClients, writeFails)
    ensures Get(reg, ev.KeyOf()).Some? && EqualsIgnoreCase(Get(reg, ev.KeyOf()).value.token, ev.token) ==>
              && res.conn == Get(reg, ev.KeyOf()).value.(status := Online)
              && res.registry.byChannel == reg.byChannel
              && res.effects == []
  {
    var key := ev.KeyOf();
    match Get(reg, key)
    case None =>
      var conn := NewConnection(ctx, ev, now);
      Resolved(Add(reg, conn), conn, [])
    case Some(current) =>
      if !EqualsIgnoreCase(current.token, ev.token) then
        var evicted := Remove(reg, key).registry;
        var kickOff := Ack(Some(current.channel), MultiClients, writeFails);
        var conn := NewConnection(ctx, ev, now);
        Resolved(Add(evicted, conn), conn, kickOff)
      else
        Resolved(SetStatus(reg, key, Online), current.(status := Online), [])
  }

  /** What handling an event for identity `k` on channel `ctx` leaves alone:
      every other identity's entry, and every binding of a channel other than
      `ctx`, except that bindings leading to `k` may be dropped. No channel
      other than `ctx` gains a binding. */
  ghost predicate KeepsOthers(before: Registry, after: Registry, ctx: ChannelId, k: Key) {
    && (forall k' :: k' != k ==> Get(after, k') == Get(before, k'))
    && (forall ch :: ch != ctx && ch in after.byChannel ==>
          ch in before.byChannel && after.byChannel[ch] == before.byChannel[ch])
    && (forall ch :: ch != ctx && ch in before.byChannel && before.byChannel[ch] != k ==>
          ch in after.byChannel)
  }

  /** The badge adjustment a PushAck submits: down by the read count, when
      that count is positive. */
  function BadgeUpdate(ev: Event): (effs: seq<Effect>)
    ensures ev.read > 0 <==> effs == [UpdateBadge(ev.userId, -ev.read)]
    ensures ev.read <= 0 <==> effs == []
  {
    if ev.read > 0 then [UpdateBadge(ev.userId, -ev.read)] else []
  }

  /** What Offline does with the entry it removed, before closing the
      requesting channel: the removed connection is closed and its activity
      time persisted as the user's offline time. */
  function SignOff(removed: Option<Connection>, userId: string): (effs: seq<Effect>)
    ensures removed.None? <==> effs == []
    ensures removed.Some? ==> effs == [Close(removed.value.channel), UpdateOfflineTs(userId, removed.value.lastOpTime)]
  {
    match removed
    case None => []
    case Some(c) => [Close(c.channel), UpdateOfflineTs(userId, c.lastOpTime)]
  }

  /** Handling of one inbound message on channel `ctx`. */
  function ChannelRead(reg: Registry, ctx: ChannelId, input: Input, now: int, writeFails: set<ChannelId>)
    : (out: Outcome)
    ensures Valid(reg) ==> Valid(out.registry)
    ensures input.Undecodable? || !Acceptable(input.event) ==> out == Outcome(reg, [Close(ctx)])
    ensures input.Decoded? && Acceptable(input.event) && !KnownOp(input.event.op) ==> out == Outcome(reg, [])
    ensures input.Decoded? ==> KeepsOthers(reg, out.registry, ctx, input.event.KeyOf())
  {
    match input
    case Undecodable => Outcome(reg, [Close(ctx)])
    case Decoded(ev) =>
      if !Acceptable(ev) then Outcome(reg, [Close(ctx)])
      else Dispatch(reg, ctx, ev, now, writeFails)
  }

  /** The op-code dispatch of an event that passed validation. */
  function Dispatch(reg: Registry, ctx: ChannelId, ev: Event, now: int, writeFails: set<ChannelId>)
    : (out: Outcome)
    ensures Valid(reg) ==> Valid(out.registry)
    ensures !KnownOp(ev.op) ==> out == Outcome(reg, [])
    ensures KeepsOthers(reg, out.registry, ctx, ev.KeyOf())
  {
    if ev.op == OpOnline then
      var b := BuildConnection(reg, ctx, ev, now, writeFails);
      Outcome(b.registry, b.effects + [RegisterClient(ev)] + Ack(ContextOf(Some(b.conn)), Sync, writeFails))
    else if ev.op == OpKeepAlive then
      var b := BuildConnection(reg, ctx, ev, now, writeFails);
      Outcome(b.registry, b.effects + Ack(ContextOf(Some(b.conn)), Sync, writeFails))
    else if ev.op == OpSleep then
      var b := BuildConnection(reg, ctx, ev, now, writeFails);
      Outcome(SetStatus(b.registry, ev.KeyOf(), Sleep), b.effects + [UpdateStatus(ev.userId, Sleep)])
    else if ev.op == OpAwake then
      var b := BuildConnection(reg, ctx, ev, now, writeFails);
      Outcome(b.registry, b.effects + [RegisterClient(ev)] + Ack(ContextOf(Some(b.conn)), Sync, writeFails))
    else if ev.op == OpPushAck then
      var b := BuildConnection(reg, ctx, ev, now, writeFails);
      Outcome(b.registry, BadgeUpdate(ev) + b.effects + Ack(ContextOf(Some(b.conn)), Sync, writeFails))
    else if ev.op == OpOffline then
      var removed := Remove(reg, ev.KeyOf());
      Outcome(removed.registry, SignOff(removed.conn, ev.userId) + [Close(ctx)])
    else
      Outcome(reg, [])
  }

  /** Cleanup when transport `ch` is lost: the connection bound to it, if any,
      is closed, dropped from the client keeper and its offline time is
      persisted; the channel's binding is removed in every case. */
  function LostConnection(reg: Registry, ch: ChannelId): (out: Outcome)
    ensures Valid(reg) ==> Valid(out.registry)
    ensures ch !in out.registry.byChannel
    ensures GetByChannel(reg, ch).None? ==> out.effects == [] && out.registry.byKey == reg.byKey
    ensures GetByChannel(reg, ch).Some? ==>
              var c := GetByChannel(reg, ch).value;
              out.effects == [Close(c.channel), ForgetClient(c.appKey, c.userId), UpdateOfflineTs(c.userId, c.lastOpTime)]
    ensures Valid(reg) && GetByChannel(reg, ch).Some? ==> Get(out.registry, GetByChannel(reg, ch).value.KeyOf()).None?
    ensures Valid(reg) ==> forall k :: (GetByChannel(reg, ch).None? || k != GetByChannel(reg, ch).value.KeyOf()) ==>
                                         Get(out.registry, k) == Get(reg, k)
    ensures Valid(reg) ==> forall ch' :: ch' != ch ==> GetByChannel(out.registry, ch') == GetByChannel(reg, ch')
  {
    var found := GetByChannel(reg, ch);
    var cleanup := match found
      case None => []
      case Some(c) => [Close(c.channel), ForgetClient(c.appKey, c.userId), UpdateOfflineTs(c.userId, c.lastOpTime)];
    Outcome(RemoveByChannel(reg, ch).registry, cleanup)
  }

  /** A transport error: the lost-connection cleanup, then the channel is closed. */
  function ExceptionCaught(reg: Registry, ch: ChannelId): (out: Outcome)
    ensures out.registry == LostConnection(reg, ch).registry
    ensures |out.effects| >= 1 && out.effects[|out.effects| - 1] == Close(ch)
    ensures out.effects[..|out.effects| - 1] == LostConnection(reg, ch).effects
  {
    var lost := LostConnection(reg, ch);
    Outcome(lost.registry, lost.effects + [Close(ch)])
  }
}
