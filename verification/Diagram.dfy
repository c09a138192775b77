/** The state diagram of an endpoint: six states, what can happen, and where that leads. */
module Diagram {
  datatype Phase = Disconnected | Connecting | EpochMismatch | Connected | Reconnecting | GracePeriod

  datatype Signal =
    | UserConnects
    | UserDisconnects
    | UserSends
    | LinkGained
    | LinksLost
    | TimedOut
    | Agreed
    | Challenged
    | Nothing

  /** The settings that decide where an endpoint goes. */
  datatype Policy = Policy(autoConnect: bool, reconnects: bool, waits: bool)

  /** Without a session: try again, or give up. */
  function Retry(p: Policy): Phase {
    if p.autoConnect then Connecting else Disconnected
  }

  function Next(s: Phase, signal: Signal, p: Policy): Phase {
    if signal.UserDisconnects? then Disconnected
    else
      match s
      case Disconnected =>
        if signal.UserConnects? then Connecting
        else if signal.UserSends? then Retry(p)
        else if signal.LinkGained? then EpochMismatch
        else s
      case Connecting =>
        if signal.LinkGained? then EpochMismatch
        else if signal.TimedOut? then Disconnected
        else s
      case EpochMismatch =>
        if signal.Agreed? then Connected
        else if signal.LinksLost? then Retry(p)
        else s
      case Connected =>
        if signal.Challenged? then EpochMismatch
        else if !signal.LinksLost? then s
        else if p.reconnects then Reconnecting
        else if p.waits then GracePeriod
        else Disconnected
      case Reconnecting =>
        if signal.LinkGained? then Connected
        else if signal.TimedOut? then Retry(p)
        else if signal.Challenged? then Connecting
        else s
      case GracePeriod =>
        if signal.LinkGained? then Connected
        else if signal.TimedOut? then Retry(p)
        else if signal.Challenged? then Disconnected
        else s
  }
}
