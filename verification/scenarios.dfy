/** Concrete event streams worked through the model. */
module Scenarios {
  import opened Util
  import opened CaseFold
  import opened Registry
  import opened Events
  import opened Effects
  import opened Handler
  import opened Sessions

  const X: ChannelId := 11
  const Y: ChannelId := 22

  function Ev(userId: string, token: string, op: int): Event {
    Event("app", userId, token, 0, op, 0)
  }

  /** The registry after device "u1" with token "t1" came online on X. */
  function Registered(now: int, status: Status): Registry {
    Registry(map[Key("app", "u1") := Connection("app", "u1", "t1", X, status, now)], map[X := Key("app", "u1")])
  }

  lemma OnlineStep(now: int)
    ensures ChannelRead(Empty, X, Decoded(Ev("u1", "t1", OpOnline)), now, {})
         == Outcome(Registered(now, Unset), [RegisterClient(Ev("u1", "t1", OpOnline)), Send(X, Payload(Sync))])
  {
  }

  lemma KeepAliveStep(now: int)
    ensures ChannelRead(Registered(now, Unset), X, Decoded(Ev("u1", "t1", OpKeepAlive)), now, {})
         == Outcome(Registered(now, Online), [Send(X, Payload(Sync))])
  {
    assert EqualsIgnoreCase("t1", "t1");
  }

  lemma OfflineStep(now: int)
    ensures ChannelRead(Registered(now, Online), X, Decoded(Ev("u1", "t1", OpOffline)), now, {})
         == Outcome(Empty, [Close(X), UpdateOfflineTs("u1", now), Close(X)])
  {
    var out := ChannelRead(Registered(now, Online), X, Decoded(Ev("u1", "t1", OpOffline)), now, {});
    assert out.registry.byKey == map[];
    assert out.registry.byChannel == map[];
  }

  /** Online, KeepAlive, Offline for one device on one channel: two `sync`
      acks, the registry ends empty, and exactly one offline-time update
      carries the time the connection recorded. */
  lemma OnlineKeepAliveOffline(now: int)
    ensures Run(Empty, X, [Decoded(Ev("u1", "t1", OpOnline)),
                           Decoded(Ev("u1", "t1", OpKeepAlive)),
                           Decoded(Ev("u1", "t1", OpOffline))], now, {})
         == Outcome(Empty, [RegisterClient(Ev("u1", "t1", OpOnline)),
                            Send(X, Payload(Sync)),
                            Send(X, Payload(Sync)),
                            Close(X),
                            UpdateOfflineTs("u1", now),
                            Close(X)])
  {
    var inputs := [Decoded(Ev("u1", "t1", OpOnline)), Decoded(Ev("u1", "t1", OpKeepAlive)),
                   Decoded(Ev("u1", "t1", OpOffline))];
    OnlineStep(now);
    KeepAliveStep(now);
    OfflineStep(now);
    RunStep(Empty, X, inputs, now, {});
    RunStep(Registered(now, Unset), X, inputs[1..], now, {});
    RunStep(Registered(now, Online), X, inputs[2..], now, {});
  }

  /** A second device logs in as the same user on another channel: the first
      device's channel is told `multi_clients`, and the user now maps to the
      connection on the second channel. */
  lemma SecondDeviceKicksOffFirst(now: int)
    ensures var first := ChannelRead(Empty, X, Decoded(Ev("u1", "tokenA", OpOnline)), now, {});
            var second := ChannelRead(first.registry, Y, Decoded(Ev("u1", "tokenB", OpOnline)), now, {});
            && second.effects == [Send(X, Payload(MultiClients)),
                                  RegisterClient(Ev("u1", "tokenB", OpOnline)),
                                  Send(Y, Payload(Sync))]
            && Get(second.registry, Key("app", "u1")) == Some(Connection("app", "u1", "tokenB", Y, Unset, now))
  {
    var first := ChannelRead(Empty, X, Decoded(Ev("u1", "tokenA", OpOnline)), now, {});
    assert Get(first.registry, Key("app", "u1")) == Some(Connection("app", "u1", "tokenA", X, Unset, now));
    assert !CharMatches("tokenA"[5], "tokenB"[5]);
  }

  /** Two devices of different users come online on X and Y; losing X tears
      down the first user's connection only: it is closed, dropped from the
      client keeper and its offline time persisted, while Y still leads to
      the second user's connection. */
  lemma TwoDevicesThenChannelLoss(now: int)
    ensures var first := ChannelRead(Empty, X, Decoded(Ev("u1", "t1", OpOnline)), now, {});
            var second := ChannelRead(first.registry, Y, Decoded(Ev("u2", "t2", OpOnline)), now, {});
            var lost := LostConnection(second.registry, X);
            && lost.effects == [Close(X), ForgetClient("app", "u1"), UpdateOfflineTs("u1", now)]
            && Get(lost.registry, Key("app", "u1")).None?
            && GetByChannel(lost.registry, Y) == Some(Connection("app", "u2", "t2", Y, Unset, now))
  {
    OnlineStep(now);
    SecondUserStep(now);
    var two := TwoUsers(now);
    assert GetByChannel(two, X) == Some(Connection("app", "u1", "t1", X, Unset, now));
  }

  /** The registry with "u1" on X and "u2" on Y. */
  function TwoUsers(now: int): Registry {
    Registry(map[Key("app", "u1") := Connection("app", "u1", "t1", X, Unset, now),
                 Key("app", "u2") := Connection("app", "u2", "t2", Y, Unset, now)],
             map[X := Key("app", "u1"), Y := Key("app", "u2")])
  }

  lemma SecondUserStep(now: int)
    ensures ChannelRead(Registered(now, Unset), Y, Decoded(Ev("u2", "t2", OpOnline)), now, {}).registry == TwoUsers(now)
  {
    var second := ChannelRead(Registered(now, Unset), Y, Decoded(Ev("u2", "t2", OpOnline)), now, {});
    assert second.registry.byKey == TwoUsers(now).byKey;
    assert second.registry.byChannel == TwoUsers(now).byChannel;
  }

  /** A second user comes online on the channel the first user is bound to:
      the channel's binding moves to the second user, while the first user's
      entry stays, still recording that channel. Losing the channel then
      cleans up the second user only; the first user stays registered and no
      channel leads to it any more. */
  lemma SharedChannelStrandsFirstUser(now: int)
    ensures var first := ChannelRead(Empty, X, Decoded(Ev("u1", "t1", OpOnline)), now, {});
            var second := ChannelRead(first.registry, X, Decoded(Ev("u2", "t2", OpOnline)), now, {});
            var lost := LostConnection(second.registry, X);
            && Valid(second.registry)
            && Get(second.registry, Key("app", "u1")) == Some(Connection("app", "u1", "t1", X, Unset, now))
            && GetByChannel(second.registry, X) == Some(Connection("app", "u2", "t2", X, Unset, now))
            && lost.effects == [Close(X), ForgetClient("app", "u2"), UpdateOfflineTs("u2", now)]
            && Get(lost.registry, Key("app", "u1")) == Some(Connection("app", "u1", "t1", X, Unset, now))
            && lost.registry.byChannel == map[]
  {
    OnlineStep(now);
    SameChannelStep(now);
    assert Valid(Empty);
  }

  /** The registry with both "u1" and "u2" recorded on X, and X bound to "u2". */
  function SharedChannel(now: int): Registry {
    Registry(map[Key("app", "u1") := Connection("app", "u1", "t1", X, Unset, now),
                 Key("app", "u2") := Connection("app", "u2", "t2", X, Unset, now)],
             map[X := Key("app", "u2")])
  }

  lemma SameChannelStep(now: int)
    ensures ChannelRead(Registered(now, Unset), X, Decoded(Ev("u2", "t2", OpOnline)), now, {}).registry
         == SharedChannel(now)
  {
    var second := ChannelRead(Registered(now, Unset), X, Decoded(Ev("u2", "t2", OpOnline)), now, {});
    assert second.registry.byKey == SharedChannel(now).byKey;
    assert second.registry.byChannel == SharedChannel(now).byChannel;
  }
}
