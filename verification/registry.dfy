/** The connection entity and the connection registry the handler consults.

    A channel is identified by the hash code of its Netty channel, which is
    also the key of the registry's reverse view. The registry keeps, for each
    `(appKey, userId)`, the current `Connection`, and for each channel the key
    of the connection bound to it. Because the reverse view stores keys rather
    than copies, an in-place change to a stored connection (its status) is
    visible through both views, as it is for the shared Java object. */
module Registry {
  import opened Util

  type ChannelId = int

  /** Client status. `Unset` is whatever a freshly constructed `Connection`
      carries before any status is assigned to it. */
  datatype Status = Unset | Online | Sleep

  datatype Key = Key(appKey: string, userId: string)

  datatype Connection = Connection(
    appKey: string,
    userId: string,
    token: string,
    channel: ChannelId,
    status: Status,
    lastOpTime: int)
  {
    function KeyOf(): Key { Key(appKey, userId) }
  }

  datatype Registry = Registry(byKey: map<Key, Connection>, byChannel: map<ChannelId, Key>)

  const Empty: Registry := Registry(map[], map[])

  /** The registry's consistency: every reverse entry leads to a stored
      connection bound to that very channel, and every stored connection is
      filed under its own identity. */
  ghost predicate Valid(r: Registry) {
    && (forall ch :: ch in r.byChannel ==>
          r.byChannel[ch] in r.byKey && r.byKey[r.byChannel[ch]].channel == ch)
    && (forall k :: k in r.byKey ==> r.byKey[k].KeyOf() == k)
  }

  /** Lookup by identity. */
  function Get(r: Registry, k: Key): (c: Option<Connection>)
    ensures c.Some? <==> k in r.byKey
    ensures c.Some? ==> c.value == r.byKey[k]
  {
    if k in r.byKey then Some(r.byKey[k]) else None
  }

  /** Lookup by channel (the reverse view). */
  function GetByChannel(r: Registry, ch: ChannelId): (c: Option<Connection>)
    ensures Valid(r) ==> (c.Some? <==> ch in r.byChannel)
    ensures Valid(r) && c.Some? ==> c.value.channel == ch && Get(r, c.value.KeyOf()) == c
  {
    if ch in r.byChannel && r.byChannel[ch] in r.byKey then Some(r.byKey[r.byChannel[ch]]) else None
  }

  /** The reverse view without the entries that lead to `k`. */
  function DropKey(m: map<ChannelId, Key>, k: Key): (m': map<ChannelId, Key>)
    ensures forall ch :: ch in m' <==> ch in m && m[ch] != k
    ensures forall ch :: ch in m' ==> m'[ch] == m[ch]
  {
    map ch | ch in m && m[ch] != k :: m[ch]
  }

  /** Registers `c` under its own identity and binds its channel to it,
      replacing any earlier entry for that identity in both views. */
  function Add(r: Registry, c: Connection): (r': Registry)
    ensures Get(r', c.KeyOf()) == Some(c)
    ensures GetByChannel(r', c.channel) == Some(c)
    ensures forall k :: k != c.KeyOf() ==> Get(r', k) == Get(r, k)
    ensures forall ch :: ch != c.channel ==>
              (ch in r'.byChannel <==> ch in r.byChannel && r.byChannel[ch] != c.KeyOf())
    ensures forall ch :: ch != c.channel && ch in r'.byChannel ==> r'.byChannel[ch] == r.byChannel[ch]
    ensures Valid(r) ==> Valid(r')
  {
    Registry(r.byKey[c.KeyOf() := c], DropKey(r.byChannel, c.KeyOf())[c.channel := c.KeyOf()])
  }

  datatype Removed = Removed(registry: Registry, conn: Option<Connection>)

  /** Removes the entry for `k` from both views and hands back what was stored. */
  function Remove(r: Registry, k: Key): (res: Removed)
    ensures res.conn == Get(r, k)
    ensures Get(res.registry, k).None?
    ensures forall k' :: k' != k ==> Get(res.registry, k') == Get(r, k')
    ensures forall ch :: ch in res.registry.byChannel <==> ch in r.byChannel && r.byChannel[ch] != k
    ensures forall ch :: ch in res.registry.byChannel ==> res.registry.byChannel[ch] == r.byChannel[ch]
    ensures Valid(r) ==> Valid(res.registry)
  {
    Removed(Registry(r.byKey - {k}, DropKey(r.byChannel, k)), Get(r, k))
  }

  /** Removes the binding of channel `ch` and the connection it leads to. */
  function RemoveByChannel(r: Registry, ch: ChannelId): (res: Removed)
    ensures res.conn == GetByChannel(r, ch)
    ensures ch !in res.registry.byChannel
    ensures res.conn.None? ==> res.registry.byKey == r.byKey
    ensures Valid(r) && res.conn.Some? ==> Get(res.registry, res.conn.value.KeyOf()).None?
    ensures Valid(r) ==> forall k :: (res.conn.None? || k != res.conn.value.KeyOf()) ==>
                                        Get(res.registry, k) == Get(r, k)
    ensures forall ch' :: ch' in res.registry.byChannel ==>
              ch' in r.byChannel && res.registry.byChannel[ch'] == r.byChannel[ch']
    ensures Valid(r) ==> forall ch' :: ch' != ch && ch' in r.byChannel ==> ch' in res.registry.byChannel
    ensures Valid(r) ==> Valid(res.registry)
  {
    match GetByChannel(r, ch)
    case None => Removed(Registry(r.byKey, r.byChannel - {ch}), None)
    case Some(c) =>
      var k := r.byChannel[ch];
      Removed(Registry(r.byKey - {k}, DropKey(r.byChannel, k) - {ch}), Some(c))
  }

  /** Assigns a status to the stored connection for `k`, in place. */
  function SetStatus(r: Registry, k: Key, s: Status): (r': Registry)
    ensures k in r.byKey ==> Get(r', k) == Some(r.byKey[k].(status := s))
    ensures k !in r.byKey ==> r' == r
    ensures forall k' :: k' != k ==> Get(r', k') == Get(r, k')
    ensures r'.byChannel == r.byChannel
    ensures Valid(r) ==> Valid(r')
  {
    if k in r.byKey then Registry(r.byKey[k := r.byKey[k].(status := s)], r.byChannel) else r
  }
}
