/** What handling one event does to the outside world, and the acknowledgement
    frame the handler writes back to a device. */
module Effects {
  import opened Util
  import opened Registry
  import opened Events

  /** Result tags of an acknowledgement. */
  const Sync: string := "sync"
  const MultiClients: string := "multi_clients"

  /** One key/value pair of the frame's user-info list. */
  datatype UserInfo = UserInfo(key: string, value: string)

  /** The frame's notification body: an alert text and a badge count. */
  datatype Body = Body(alert: string, badge: int)

  /** An acknowledgement frame, before protocol-buffer encoding. */
  datatype AckMessage = AckMessage(aps: Body, userInfo: seq<UserInfo>)

  /** One observable consequence of handling an event, in the order the
      handler issues it. Store calls and client registration are the tasks
      the handler submits to its worker pool. */
  datatype Effect =
    | Send(channel: ChannelId, message: AckMessage)   // write of an ack frame
    | Close(channel: ChannelId)                       // a transport is closed
    | UpdateStatus(userId: string, status: Status)    // store: persist status
    | UpdateBadge(userId: string, delta: int)         // store: adjust badge count
    | UpdateOfflineTs(userId: string, ts: int)        // store: persist offline time
    | RegisterClient(event: Event)                    // record the newly active client
    | ForgetClient(appKey: string, userId: string)    // drop the client from the client keeper

  /** The acknowledgement frame for a result tag. */
  function Payload(result: string): (m: AckMessage)
    ensures m.aps == Body("ack", 0)
    ensures m.userInfo == [UserInfo("msg", result), UserInfo("kindId", Sync)]
  {
    AckMessage(Body("ack", 0), [UserInfo("msg", result), UserInfo("kindId", Sync)])
  }

  /** The value of the first user-info pair with the given key, as a device
      reading the frame finds it. */
  function Lookup(info: seq<UserInfo>, key: string): (v: Option<string>)
    ensures v.None? <==> forall i :: 0 <= i < |info| ==> info[i].key != key
    ensures v.Some? ==> exists i :: 0 <= i < |info| && info[i] == UserInfo(key, v.value)
                                   && forall j :: 0 <= j < i ==> info[j].key != key
  {
    if |info| == 0 then None
    else if info[0].key == key then Some(info[0].value)
    else
      var rest := Lookup(info[1..], key);
      assert forall i :: 1 <= i < |info| ==> info[i] == info[1..][i - 1];
      rest
  }

  /** The result tag a device reads off a frame. */
  function ResultOf(m: AckMessage): Option<string> {
    Lookup(m.userInfo, "msg")
  }

  /** The frame a device reads back carries the result tag it was built with,
      is marked as a sync-kind frame, and distinct tags give distinct frames. */
  lemma PayloadRoundTrip(result: string, other: string)
    ensures ResultOf(Payload(result)) == Some(result)
    ensures Lookup(Payload(result).userInfo, "kindId") == Some(Sync)
    ensures Payload(result) == Payload(other) ==> result == other
  {
    assert Payload(result).userInfo[1..] == [UserInfo("kindId", Sync)];
  }

  /** The transport of a possibly-null connection; `None` when there is no
      connection. */
  function ContextOf(c: Option<Connection>): (ctx: Option<ChannelId>)
    ensures ctx.Some? <==> c.Some?
    ensures c.Some? ==> ctx.value == c.value.channel
  {
    match c
    case None => None
    case Some(conn) => Some(conn.channel)
  }

  /** Sending an acknowledgement to the transport `context` (`None` for a null
      connection or context). The write's completion is an input: a write to a
      channel in `writeFails` reports failure, and the target is then closed. */
  function Ack(context: Option<ChannelId>, result: string, writeFails: set<ChannelId>): (effs: seq<Effect>)
    ensures context.None? ==> effs == []
    ensures context.Some? ==> 1 <= |effs| && effs[0] == Send(context.value, Payload(result))
    ensures context.Some? ==> (|effs| == 2 <==> context.value in writeFails)
    ensures |effs| <= 2
    ensures |effs| == 2 ==> effs[1] == Close(context.value)
    ensures forall i :: 0 <= i < |effs| ==> effs[i].Send? || effs[i].Close?
  {
    match context
    case None => []
    case Some(ch) =>
      [Send(ch, Payload(result))] + (if ch in writeFails then [Close(ch)] else [])
  }
}
