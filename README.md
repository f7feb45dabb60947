# webrtc-streamer browser client, modelled in Dafny

This project models `webrtcstreamer.js`, the browser client of webrtc-streamer. A
`WebRtcStreamer` object does two jobs:

- it signals one WebRTC connection to the server over HTTP: the ICE server list,
  the offer/answer call, hang-up, and ICE candidates in both directions;
- it forwards the page's mouse, touch and wheel events to an Open3D window as
  JSON "MouseEvent" records over a data channel.

The model has four modules:

- `Urls` (`urls.dfy`): query strings and the call URL, with `encodeURIComponent`
  passed in as a function.
- `IceState` (`ice_state.dfy`): how the client reacts to ICE connection state changes.
- `InputEvents` (`input_events.dfy`): the modifier bitmask, the button name table,
  move versus drag, the wheel step, the trackpad guess, and the record each listener builds.
- `Signalling` (`signalling.dfy`): the class `Streamer`. Its fields `srvurl`, `pc`,
  `iceServers`, `pcConfig`, `earlyCandidates`, `videoElt` and `dataChannel` mirror the
  JavaScript object's properties. `hasVideo` (whether `videoElement` is set) and
  `opacity` (its style opacity) stand for the video element, and `encode` stands for
  `encodeURIComponent`. `outbox`, `listeners` and `sent` record what the client sends and
  registers. The ghost fields `gathered`, `forwarded` and `connStart` exist only for the
  proofs. `mediaConstraints` has no field.

The following conventions hold throughout `Signalling`:

- Every HTTP request the client issues is appended to `outbox`, in issue order.
- Every record sent over the data channel is appended to `sent`.
- The browser's `RTCPeerConnection` is reduced to a `Peer` value: the peer id, the
  configuration, whether a remote description is set, and the list of remote candidates
  handed to it.
- Promise continuations are separate methods, called in the order the browser runs them.
  For example, `OnLocalDescriptionSet` follows the resolution of `setLocalDescription`.
- Every read of a field of a null `this.pc` ends the handler with `TypeError`.
- Decisions that belong to the browser are parameters:
  - `configAccepted`: whether `new RTCPeerConnection` returns or throws;
  - `accepted`: whether `setRemoteDescription` resolves or rejects;
  - `peerid`: the text of `Math.random()`.

The central property is about ICE candidates. Local candidates that arrive before the
server's answer is applied are buffered. When the answer is applied they are all forwarded
in arrival order, and then the client polls for the server's candidates. Three ghost
fields record this:

- `gathered`: every local candidate of the current connection;
- `forwarded`: the candidates already sent to the server;
- `connStart`: the length of `outbox` when the current connection was created.

`Streamer.Valid()` states three things:

- `gathered` is `forwarded` followed by the buffer;
- nothing is buffered once a remote description is set;
- the `addIceCandidate` requests in `outbox` since `connStart` are exactly `forwarded`,
  in order, for the current peer id.

Every handler that can run on a connection preserves `Valid()`, so the order property
holds for every schedule of handler calls. `GatheredAllPosted` states the order property as
one lemma: once the answer is applied, the connection's `addIceCandidate` requests post
every gathered candidate, in arrival order.
`EarlyCandidatesSession` runs a complete session and proves the exact request sequence
the server sees.

## Model

| member | source | states |
|---|---|---|
| Urls.CallUrl | webrtcstreamer.js:91-97 | the call URL is the server URL, `/api/call`, and the query rendering of the parameter list `CallParams`: peerid, the encoded video URL, then audiourl and options only when they are truthy |
| Urls.CallUrlIsQuery | webrtcstreamer.js:91-97 | the source's concatenation (a fixed head, then `&audiourl=` and `&options=` appended conditionally) equals the rendering of `CallParams` |
| Urls.CallParamsContents | webrtcstreamer.js:91-97 | the call URL carries exactly one peer id and one encoded video URL; it carries an audio URL and options exactly when those arguments are truthy; its parameters follow the order peerid, url, audiourl, options, with no key repeated |
| Urls.RenderCons | webrtcstreamer.js:91 | rendering a parameter list puts the first key and value after the lead character and every later one after `&` |
| Urls.RenderOptionals | webrtcstreamer.js:92-97 | the optional audiourl and options parameters render as the text the two `if` blocks append |
| Urls.AppendOptionals | webrtcstreamer.js:92-97 | the two conditional `+=` steps append the optional texts, in order, to the head |
| Urls.CallQueryText | webrtcstreamer.js:91 | the rendered query starts with `?peerid=` followed by the peer id, then `&url=` followed by the encoded video URL |
| Urls.LookupOptionals | webrtcstreamer.js:92-97 | the optional part of the call parameters holds no peerid or url key, and holds audiourl or options exactly when it was appended |
| Urls.LookupSingle | webrtcstreamer.js:91-97 | looking up a key in a one-parameter list finds the value exactly when the key matches |
| IceState.Reaction | webrtcstreamer.js:153-168 | without a video element no state does anything; with one, "new" and only "new" triggers a candidate poll; nothing happens exactly for the states outside connected/disconnected/failed/closed/new; an opacity that is set is one of 1.0, 0.25, 0.5 |
| IceState.StandardReactions | webrtcstreamer.js:155-167 | for each of the seven standard states: connected gives opacity 1.0, disconnected 0.25, failed and closed 0.5, new polls, checking and completed do nothing, and without a video element none does anything |
| InputEvents.Modifiers | webrtcstreamer.js:305-330 | the modifier mask lies in 0..15 |
| InputEvents.ModifiersDecode | webrtcstreamer.js:305-330 | the mask decodes back to the modifier state it was built from, so no information is lost |
| InputEvents.ModifiersBits | webrtcstreamer.js:307-328 | bit k of the mask is set exactly when the k-th key (Shift, Control, Alt, Meta) is held |
| InputEvents.ModifiersOnto | webrtcstreamer.js:305-330 | every mask in 0..15 is the encoding of some modifier state (the decoded one) |
| InputEvents.ModifiersSum | webrtcstreamer.js:316-328 | the OR of the distinct single bits equals their sum |
| InputEvents.WheelStep | webrtcstreamer.js:526-529 | the wheel step is minus the sign of the delta: -1, 0 or 1 |
| InputEvents.ButtonLabel | webrtcstreamer.js:376-406 | the `o3dmouseButtons[event.button]` lookup (lines 376 and 406): LEFT for button 0, MIDDLE for 1, RIGHT for 2, and no name for any other index or a missing `button` |
| InputEvents.IsTrackpad | webrtcstreamer.js:520-522 | the trackpad guess; EncodeDetail proves that the wheel record's flag is 1 exactly when the guess holds |
| InputEvents.Encode | webrtcstreamer.js:396-545 | the bodies of the eight listeners; EncodeFields, EncodeType and EncodeDetail state its fields, its type and its detail object |
| InputEvents.EncodeFields | webrtcstreamer.js:396-545 | a listener builds a record exactly when it does not throw (only a touch event without a target touch throws); the record names the window and the class `MouseEvent`; its modifier mask decodes to the keys held for mouse and wheel events and is 0 for touch events; its x and y are `offsetX`/`offsetY` for mouse and wheel events and the target touch's point for touch events |
| InputEvents.EncodeType | webrtcstreamer.js:396-545 | the record type is MOVE exactly for a mouse move with no button down; DRAG for a move with buttons down and for every touch move; BUTTON_DOWN for mousedown and touchstart; BUTTON_UP for mouseup, mouseleave and touchend; WHEEL for the wheel |
| InputEvents.EncodeDetail | webrtcstreamer.js:396-545 | button details appear exactly on button records, with count 1 and a button name exactly for mouse buttons 0 to 2, namely LEFT for 0, MIDDLE for 1 and RIGHT for 2; a mouse move carries the `buttons` mask and a touch move 1; the wheel carries minus the sign of each delta and a 0/1 trackpad flag equal to the trackpad guess of lines 520-522 |
| Signalling.Url | webrtcstreamer.js:45-228 | (the request URLs of lines 45, 67, 112, 135 and 228) getIceServers goes to `/api/getIceServers`; a call request goes to its call URL; hangup, addIceCandidate and getIceCandidate go to `/api/<endpoint>` with a single `peerid` parameter naming their peer |
| Signalling.PeerUrl | webrtcstreamer.js:67-228 | (lines 67, 135 and 228) the literal `/api/<endpoint>?peerid=` followed by the id is the query rendering of the single parameter peerid |
| Signalling.Forwards | webrtcstreamer.js:260-263 | forwarding a list of candidates issues one request per candidate |
| Signalling.ForwardsAt | webrtcstreamer.js:260-263 | the i-th forward request posts the i-th candidate for the same peer, so forwarding keeps order and changes no candidate |
| Signalling.ForwardsSnoc | webrtcstreamer.js:260-263 | forwarding one more candidate appends exactly one request at the end |
| Signalling.ForwardsAppend | webrtcstreamer.js:216-262 | forwarding the candidates sent one at a time and then those drained from the buffer is forwarding their concatenation |
| Signalling.CandidatePostsAppend | webrtcstreamer.js:216-262 | the `addIceCandidate` requests of two request logs, one after the other, are those of their concatenation |
| Signalling.CandidatePostsForwards | webrtcstreamer.js:260-263 | every request the drain loop issues is an `addIceCandidate` request |
| Signalling.Remotes | webrtcstreamer.js:278-284 | handing the server's candidates to the engine makes one call per candidate |
| Signalling.RemotesAt | webrtcstreamer.js:278-284 | the i-th engine call carries the i-th candidate of the server's list |
| Signalling.RemotesSnoc | webrtcstreamer.js:278-284 | one more candidate appends exactly one engine call at the end |
| Signalling.Records | webrtcstreamer.js:396-545 | an event produces no record when its listener throws, and otherwise one record per registered listener set |
| Signalling.RecordsAt | webrtcstreamer.js:396-545 | the i-th record is the one the i-th registered listener set builds for the event |
| Signalling.RecordsSnoc | webrtcstreamer.js:332-545 | registering one more listener set appends its record, if it builds one |
| Signalling.Streamer.constructor | webrtcstreamer.js:9-22 | the server URL is the given one when truthy and the page origin otherwise; there is no peer connection, no cached ICE servers, no buffered candidate and no request |
| Signalling.Streamer.Connect | webrtcstreamer.js:38-54 | it first hangs up any current connection; without a cached response it only requests the ICE servers; with one it creates the connection at once from the cache and returns its call URL; the candidate invariant is kept |
| Signalling.Streamer.Disconnect | webrtcstreamer.js:59-80 | a current connection is hung up with one hangup request naming its peer id and then dropped; without one nothing is sent |
| Signalling.Streamer.OnReceiveGetIceServers | webrtcstreamer.js:85-131 | the response is cached and the configuration is the response or the empty server list. When the engine accepts it, a fresh peer with no remote description exists, the call URL is `CallUrl` for its id, and the buffer is empty. When the engine refuses it, the client disconnects and no call URL exists |
| Signalling.Streamer.OnLocalDescriptionSet | webrtcstreamer.js:110-118 | once the local description is set, the offer is posted to the call URL |
| Signalling.Streamer.GetIceCandidate | webrtcstreamer.js:134-140 | it polls the server for the current peer's candidates; without a peer connection it throws and sends nothing |
| Signalling.Streamer.AddIceCandidate | webrtcstreamer.js:227-233 | it posts exactly one candidate for the given peer id |
| Signalling.Streamer.OnIceCandidate | webrtcstreamer.js:213-224 | the end-of-gathering event changes nothing. A local candidate is forwarded at once when the remote description is set and buffered at the end otherwise; without a connection it throws. The buffering invariant is kept |
| Signalling.Streamer.OnReceiveCall | webrtcstreamer.js:254-270 | once the engine accepts the answer, the remote description is set, every buffered candidate is forwarded in arrival order, the buffer is empty and one poll follows. A rejected answer changes nothing, and no connection means TypeError |
| Signalling.Streamer.DrainEarlyCandidates | webrtcstreamer.js:260-263 | the loop empties the buffer and issues exactly the forward requests for the old buffer, oldest first |
| Signalling.Streamer.OnReceiveCandidate | webrtcstreamer.js:275-287 | a null list does nothing; otherwise every server candidate goes to the engine in list order, followed by one end-of-candidates call; without a connection it throws |
| Signalling.Streamer.OnIceConnectionStateChange | webrtcstreamer.js:153-168 | it applies `Reaction`: it sets the opacity, polls the server (throwing without a connection), or changes nothing |
| Signalling.Streamer.SendJsonData | webrtcstreamer.js:299-303 | a record is sent exactly when a data channel is defined |
| Signalling.Streamer.AddEventListeners | webrtcstreamer.js:332-333 | listeners for the window are registered exactly when `videoElt` is set; repeated calls register again |
| Signalling.Streamer.RunListener | webrtcstreamer.js:396-545 | one listener sends the record it builds for the event, if it builds one and a data channel exists |
| Signalling.Streamer.DispatchInput | webrtcstreamer.js:396-545 | one input event makes every registered listener set send its record, in registration order |
| Signalling.GatheredAllPosted | webrtcstreamer.js:213-265 | once the answer is applied, the `addIceCandidate` requests since the connection was created post every gathered candidate for the connection's peer, in arrival order |
| Signalling.OpenConnection | webrtcstreamer.js:38-131 | a first connection, with the ICE servers fetched and the configuration accepted, issues exactly getIceServers and the call with the offer, and leaves a fresh peer with nothing buffered |
| Signalling.EarlyCandidatesSession | webrtcstreamer.js:38-270 | (connect, onReceiveGetIceServers, onIceCandidate and onReceiveCall together) a session that fetches the ICE servers and gathers two candidates before the answer and one after it issues exactly: getIceServers, the call, both early candidates in order, the poll, then the late candidate |

## Left out

- HTTP itself is not modelled: `fetch`, response status (`_handleHttpErrors`), JSON parsing, and the `onError` logging of failed requests. A request is one entry in `outbox`, and each response is the argument of its continuation.
- Asynchrony: every promise continuation runs atomically, in an order the caller picks. Interleavings of fetch responses are not explored. `OnReceiveCall` runs the `setRemoteDescription` continuation directly after it.
- The engine's result is a parameter, not modelled: `createOffer`, `setLocalDescription`, and an `RTCSessionDescription` or `RTCIceCandidate` constructor that throws on malformed data. A rejected `createOffer` shows an alert, and a rejected `setLocalDescription` logs; in both cases the continuation is simply not called. The alert is not modelled.
- `RTCPeerConnection` internals are not modelled: `pc.close()`, `createDataChannel`, `ondatachannel`, `onicegatheringstatechange`, `getReceivers` and their logging.
- `onAddStream` is left out: it attaches the remote stream to the video element and plays it, and when `play()` rejects it sets the element's `controls` attribute.
- The `stream` argument of `connect` and `onReceiveGetIceServers`, and the `this.pc.addStream(stream)` call, are not modelled. A throwing `addStream` would take the `catch` path: the client would disconnect and hang up the peer it just created, and it would skip clearing `earlyCandidates`. The model cannot express that path.
- `disconnect` stops and removes the video element's tracks. The model has no media tracks, so this is left out.
- `Math.random()` is the `peerid` parameter, and `encodeURIComponent` is the function `encode`. A `URIError` from encoding a lone surrogate is not modelled.
- `mediaConstraints` is not modelled: it is only passed to `createOffer`.
- The `addEventListeners` DOM construction is left out: the resize inputs and button (never inserted into the page), `contextmenu`, `onloadedmetadata`, and `preventDefault`.
- `InputEvents.Encode`: coordinates are integers. The `Math.round(pageX - rect.left)` of touch events is taken as already computed, and float coordinates are not modelled.
- `InputEvents.WheelStep`: deltas are real numbers. NaN and -0 are not modelled.
- `InputEvents.IsTrackpad`: a NaN `wheelDeltaY` is not modelled.
- `Signalling.Streamer.OnReceiveCandidate`: the list is a sequence of candidates. A truthy value that is not an array is not modelled.
- `Signalling.Streamer.videoElt` and `dataChannel` are fields that no method of the client assigns: only the embedding page could set them. The constructor leaves them unset. A page that sets them is modelled by assigning the fields.
- `Signalling.Streamer.DispatchInput`: `videoElt` is a `bool`, so every registration is taken to be on one and the same element, and an input event runs every registered listener set. A page that points `videoElt` at different elements between `addEventListeners` calls attaches each set to its own element, so an event would run only that element's sets. The model does not capture this.
- `Signalling.EarlyCandidatesSession` is one fixed scenario, not a statement over all schedules. The all-schedules property is `Valid()`, which every handler that reads or writes the connection keeps.
