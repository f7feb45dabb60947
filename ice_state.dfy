/**
 * How the client reacts when the peer connection reports a new ICE connection state.
 * The handler compares the engine's state name with five literals; the reaction either
 * dims the video element, asks the server for its ICE candidates, or does nothing.
 */
module IceState {

  /** The values of RTCIceConnectionState in the W3C WebRTC specification. */
  datatype IceConnectionState = New | Checking | Connected | Completed | Failed | Disconnected | Closed

  /** The name the engine reports for each state. */
  function StateName(s: IceConnectionState): string {
    match s
    case New => "new"
    case Checking => "checking"
    case Connected => "connected"
    case Completed => "completed"
    case Failed => "failed"
    case Disconnected => "disconnected"
    case Closed => "closed"
  }

  /** What one state change does: set the video element's style opacity, poll, or nothing. */
  datatype IceEffect = SetOpacity(opacity: string) | PollCandidates | NoEffect

  /**
   * The reaction to a state change, as the webrtcstreamer.js handler decides it:
   * nothing at all without a video element; otherwise the chain of name comparisons.
   */
  function Reaction(hasVideo: bool, state: string): (e: IceEffect)
    ensures e.NoEffect? <==>
      !hasVideo || state !in {"connected", "disconnected", "failed", "closed", "new"}
    ensures e.PollCandidates? <==> hasVideo && state == "new"
    ensures e.SetOpacity? ==> e.opacity in {"1.0", "0.25", "0.5"}
  {
    if hasVideo then
      if state == "connected" then SetOpacity("1.0")
      else if state == "disconnected" then SetOpacity("0.25")
      else if state == "failed" || state == "closed" then SetOpacity("0.5")
      else if state == "new" then PollCandidates
      else NoEffect
    else NoEffect
  }

  /**
   * The reaction over the standard states: with a video element, connected shows the
   * video fully, disconnected dims it most, failed and closed dim it by half, new polls,
   * and checking and completed change nothing.
   */
  lemma StandardReactions(hasVideo: bool, s: IceConnectionState)
    ensures Reaction(hasVideo, StateName(s)) ==
      if !hasVideo then NoEffect
      else match s
        case Connected => SetOpacity("1.0")
        case Disconnected => SetOpacity("0.25")
        case Failed | Closed => SetOpacity("0.5")
        case New => PollCandidates
        case Checking | Completed => NoEffect
  {
    match s
    case Connected =>
    case Disconnected =>
      assert "disconnected" != "connected";
    case Failed =>
      assert "failed" != "connected" && "failed" != "disconnected";
    case Closed =>
      assert "closed" != "connected" && "closed" != "disconnected" && "closed" != "failed";
    case New =>
      assert "new" != "connected" && "new" != "disconnected" && "new" != "failed" && "new" != "closed";
    case Checking =>
      assert "checking" != "connected" && "checking" != "disconnected" && "checking" != "failed";
      assert "checking" != "closed" && "checking" != "new";
    case Completed =>
      assert "completed" != "connected" && "completed" != "disconnected" && "completed" != "failed";
      assert "completed" != "closed" && "completed" != "new";
  }
}
