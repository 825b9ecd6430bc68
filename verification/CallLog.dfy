/** What the callers of enqueue know of a run, whatever the queue makes of it. */
module CallLog {
  import opened Options

  /** The value of the call that began last, and the values of the calls that have succeeded, in order. */
  datatype Log = Log(value: int, succeeded: seq<int>)

  const EMPTY := Log(0, [])

  /** One event seen from outside: it begins a call with a value, or it makes the tail move. */
  function Observe(log: Log, begun: Option<int>, moved: bool): Log {
    match begun
    case Some(value) => log.(value := value)
    case None => if moved then log.(succeeded := log.succeeded + [log.value]) else log
  }
}
