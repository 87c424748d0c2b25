/** Values a SWIM node works with: peer addresses, timer handles, the messages
    it exchanges with peers and the effects its handlers emit towards the
    network and the timer service. */
module SwimTypes {

  /** Stands for a Java reference that may be null. */
  datatype Option<T> = None | Some(value: T)

  /** A NAT-aware peer address. The node keys its maps by `id`; the rest of
      the address (IP, port, NAT parents) is irrelevant here and kept opaque. */
  datatype Address = Address(id: int, endpoint: int)

  /** A timer handle (a UUID issued when a timeout is created). */
  type TimeoutId = nat

  /** Java's 32-bit `int`. */
  newtype int32 = x: int | -0x8000_0000 <= x < 0x8000_0000

  /** `x++` on a Java `int`: the result is congruent to x + 1 modulo 2^32 and
      stays in range, so the maximum wraps round to the minimum. */
  function WrappingIncrement(x: int32): (r: int32)
    ensures (r as int - x as int - 1) % 0x1_0000_0000 == 0
    ensures x as int < 0x7fff_ffff ==> r as int == x as int + 1
  {
    if x == 0x7fff_ffff then -0x8000_0000 else x + 1
  }

  /** The network messages of the node, each with its header's source and
      destination. */
  datatype NetMsg =
    | NetPing(src: Address, dst: Address, pingTimeoutId: Option<TimeoutId>)
    | NetPong(src: Address, dst: Address, pongTimeoutId: Option<TimeoutId>, peers: map<int, Address>)
    | NetSuspect(src: Address, dst: Address, suspectedPeer: Address)
    | NetAlive(src: Address, dst: Address, alivePeer: Address)
    | NetDead(src: Address, dst: Address, deadPeer: Address)

  /** The timeout events the node schedules, with the context they carry. */
  datatype TimerEvent =
    | PingTimeout
    | PongTimeout(suspectedPeer: Address)
    | SuspectTimeout(deadPeer: Address)

  /** What a handler hands to the Kompics ports: a message to send, a timeout to
      schedule (once or periodically) or a timeout to cancel. */
  datatype Effect =
    | Send(msg: NetMsg)
    | SchedulePeriodic(delay: nat, period: nat, timeoutId: TimeoutId, event: TimerEvent)
    | ScheduleOnce(delay: nat, timeoutId: TimeoutId, event: TimerEvent)
    | CancelTimeout(handle: Option<TimeoutId>)

  /** Delays, in milliseconds, of the three timeouts. */
  const PING_PERIOD: nat := 3000
  const PONG_TIMEOUT: nat := 2000
  const SUSPECT_TIMEOUT: nat := 10000
}
