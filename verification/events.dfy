/** The decoded device event and the operation codes it carries. */
module Events {
  import opened Registry

  /** Operation codes of a device event. The numeric values come from the
      protocol-buffer definition of the event, which is not part of this
      model; the model relies only on their being positive and distinct. */
  const OpOnline: int := 1
  const OpKeepAlive: int := 2
  const OpSleep: int := 3
  const OpAwake: int := 4
  const OpPushAck: int := 5
  const OpOffline: int := 6

  /** A decoded device event. `typeId` (the platform) only selects a metrics
      counter; `read` is the number of notifications the device has read. */
  datatype Event = Event(
    appKey: string,
    userId: string,
    token: string,
    typeId: int,
    op: int,
    read: int)
  {
    function KeyOf(): Key { Key(appKey, userId) }
  }

  /** What the transport delivers: bytes that failed to decode, or an event. */
  datatype Input = Undecodable | Decoded(event: Event)

  /** The event passes the handler's validation: a non-empty user id and a
      positive operation code. */
  predicate Acceptable(ev: Event) {
    |ev.userId| > 0 && ev.op > 0
  }

  /** The operation codes the handler acts on. */
  predicate KnownOp(op: int) {
    op in {OpOnline, OpKeepAlive, OpSleep, OpAwake, OpPushAck, OpOffline}
  }
}
