/** HTTP/2 flow-control windows (sections 5.2 and 6.9 of RFC 9113). */
module FlowControl {
  import opened Common

  const WINDOW_MAX: int := 0x7fff_ffff
  const DEFAULT_WINDOW: int := 65535

  /** A WINDOW_UPDATE on either kind of send window: zero and overflow are errors. */
  function ApplyUpdate(available: int, increment: nat): Result<int>
  {
    if increment == 0 || available + increment > WINDOW_MAX then Err else Ok(available + increment)
  }

  /** A stream's send window and the peer's initial size it was last adjusted to. */
  datatype SendWindow = SendWindow(available: int, initialPeer: int) {
    function Update(increment: nat): Result<SendWindow>
    {
      match ApplyUpdate(available, increment)
      case Err => Err
      case Ok(a) => Ok(this.(available := a))
    }

    /** Shift by the change of the initial size; only the upper bound is enforced. */
    function Reinitialize(newInitial: int): Result<SendWindow>
    {
      var a := available + newInitial - initialPeer;
      if a > WINDOW_MAX then Err else Ok(SendWindow(a, newInitial))
    }

    function Consume(n: nat): SendWindow { this.(available := available - n) }
  }

  function NewSendWindow(initial: int): SendWindow { SendWindow(initial, initial) }

  /** What the peer may still send. */
  datatype RecvWindow = RecvWindow(available: int, initial: int) {
    function Consume(n: nat): RecvWindow { this.(available := available - n) }

    /** Below half the initial size, grant everything back in one increment. */
    function Replenish(): (RecvWindow, Option<int>)
    {
      if available < initial / 2 then (this.(available := initial), Some(initial - available))
      else (this, None)
    }
  }

  function NewRecvWindow(): RecvWindow { RecvWindow(DEFAULT_WINDOW, DEFAULT_WINDOW) }

  /** Size of the next DATA payload: 0 only without window or without bytes. */
  function NextDataChunkSize(maxFrameSize: nat, available: int, remaining: nat): (n: nat)
    ensures n <= maxFrameSize && n <= remaining && (n > 0 ==> n <= available)
    ensures n == 0 <==> available <= 0 || remaining == 0 || maxFrameSize == 0
  {
    if available <= 0 then 0 else Min(Min(available, remaining), maxFrameSize)
  }
}
