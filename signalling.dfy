/**
 * The signalling client of webrtc-streamer: the state of one WebRtcStreamer object and
 * the handlers the browser runs on it. Every HTTP request the client issues is appended
 * to `outbox`; the browser's peer connection is reduced to the values the client reads
 * from it (its id, its configuration, whether a remote description is set) and the
 * remote candidates the client hands to it.
 */
module Signalling {
  import opened Wrappers
  import opened Urls
  import opened IceState
  import opened InputEvents

  /** The peer id: the text of the random number the client draws for each connection. */
  type PeerId = string

  /** An ICE candidate, as the JSON text the client forwards. */
  datatype Candidate = Candidate(text: string)

  /** A session description (offer or answer), as received from or sent to the server. */
  datatype SessionDescription = SessionDescription(kind: string, sdp: string)

  /** The configuration handed to the peer connection: the server's ICE server list. */
  datatype IceConfig = IceConfig(iceServers: seq<string>)

  /** An `addIceCandidate` call on the peer connection: a remote candidate, or the end marker. */
  datatype EngineCandidate = Remote(candidate: Candidate) | EndOfCandidates

  /** What the client reads from and hands to its peer connection. */
  datatype Peer = Peer(peerid: PeerId, config: IceConfig,
                       remoteDescription: Option<SessionDescription>,
                       added: seq<EngineCandidate>)

  /** One HTTP request to the webrtc-streamer server. */
  datatype Request =
    | GetIceServersRequest
    | HangupRequest(peerid: PeerId)
    | CallRequest(callurl: string, offer: SessionDescription)
    | AddIceCandidateRequest(peerid: PeerId, candidate: Candidate)
    | GetIceCandidateRequest(peerid: PeerId)

  /** The endpoint path of a request that is not a call. */
  function Endpoint(r: Request): string
    requires !r.CallRequest?
  {
    match r
    case GetIceServersRequest => "getIceServers"
    case HangupRequest(_) => "hangup"
    case AddIceCandidateRequest(_, _) => "addIceCandidate"
    case GetIceCandidateRequest(_) => "getIceCandidate"
  }

  /**
   * The URL each request is sent to. Every request about one peer names it in a single
   * `peerid` parameter; the call request goes to the URL built when the connection was made.
   */
  function Url(srvurl: string, r: Request): (u: string)
    ensures r.GetIceServersRequest? ==> u == srvurl + "/api/" + Endpoint(r)
    ensures r.CallRequest? ==> u == r.callurl
    ensures r.HangupRequest? || r.AddIceCandidateRequest? || r.GetIceCandidateRequest? ==>
      u == srvurl + "/api/" + Endpoint(r) + Query([Param("peerid", r.peerid)])
  {
    match r
    case GetIceServersRequest =>
      GetIceServersPath(srvurl);
      srvurl + "/api/getIceServers"
    case HangupRequest(id) =>
      HangupPath();
      PeerUrl(srvurl, "hangup", id, "/api/hangup?peerid=");
      srvurl + "/api/hangup?peerid=" + id
    case CallRequest(url, _) => url
    case AddIceCandidateRequest(id, _) =>
      AddIceCandidatePath();
      PeerUrl(srvurl, "addIceCandidate", id, "/api/addIceCandidate?peerid=");
      srvurl + "/api/addIceCandidate?peerid=" + id
    case GetIceCandidateRequest(id) =>
      GetIceCandidatePath();
      PeerUrl(srvurl, "getIceCandidate", id, "/api/getIceCandidate?peerid=");
      srvurl + "/api/getIceCandidate?peerid=" + id
  }

  lemma GetIceServersPath(srvurl: string)
    ensures srvurl + "/api/getIceServers" == srvurl + "/api/" + "getIceServers"
  {
    assert "/api/getIceServers" == "/api/" + "getIceServers";
    Assoc(srvurl, "/api/", "getIceServers");
  }

  lemma HangupPath()
    ensures "/api/hangup?peerid=" == "/api/" + "hangup" + "?peerid="
  {
  }

  lemma AddIceCandidatePath()
    ensures "/api/addIceCandidate?peerid=" == "/api/" + "addIceCandidate" + "?peerid="
  {
  }

  lemma GetIceCandidatePath()
    ensures "/api/getIceCandidate?peerid=" == "/api/" + "getIceCandidate" + "?peerid="
  {
  }

  lemma PeerUrl(srvurl: string, endpoint: string, id: PeerId, path: string)
    requires path == "/api/" + endpoint + "?peerid="
    ensures srvurl + path + id == srvurl + "/api/" + endpoint + Query([Param("peerid", id)])
  {
    RenderCons(Param("peerid", id), [], "?");
    assert [Param("peerid", id)] == [Param("peerid", id)] + [];
    assert "?" + "peerid" + "=" == "?peerid=";
    assert Query([Param("peerid", id)]) == "?peerid=" + id;
    calc {
      srvurl + path + id;
      srvurl + ("/api/" + endpoint + "?peerid=") + id;
      { Assoc(srvurl, "/api/" + endpoint, "?peerid=");
        Assoc(srvurl, "/api/", endpoint); }
      srvurl + "/api/" + endpoint + "?peerid=" + id;
      { Assoc(srvurl + "/api/" + endpoint, "?peerid=", id); }
      srvurl + "/api/" + endpoint + ("?peerid=" + id);
    }
  }

  /** A data channel the embedding page may have attached to the client. */
  datatype DataChannel = DataChannel(name: string)

  /** How a handler ended: normally, or by a TypeError from reading a field of a null `pc`. */
  datatype Outcome = Normal | TypeError

  /** The `addIceCandidate` requests forwarding `cs` for peer `peerid`, in order. */
  function Forwards(peerid: PeerId, cs: seq<Candidate>): (rs: seq<Request>)
    ensures |rs| == |cs|
  {
    if cs == [] then [] else [AddIceCandidateRequest(peerid, cs[0])] + Forwards(peerid, cs[1..])
  }

  /** The i-th forward request carries the i-th candidate, for the same peer. */
  lemma {:induction false} ForwardsAt(peerid: PeerId, cs: seq<Candidate>, i: nat)
    requires i < |cs|
    ensures Forwards(peerid, cs)[i] == AddIceCandidateRequest(peerid, cs[i])
  {
    if i > 0 {
      ForwardsAt(peerid, cs[1..], i - 1);
    }
  }

  /** Forwarding one more candidate adds one request at the end. */
  lemma {:induction false} ForwardsSnoc(peerid: PeerId, cs: seq<Candidate>, c: Candidate)
    ensures Forwards(peerid, cs + [c]) == Forwards(peerid, cs) + [AddIceCandidateRequest(peerid, c)]
  {
    if cs == [] {
      assert [] + [c] == [c];
      assert [c][1..] == [];
    } else {
      assert (cs + [c])[1..] == cs[1..] + [c];
      ForwardsSnoc(peerid, cs[1..], c);
    }
  }

  lemma AppendEmpty<T>(s: seq<T>)
    ensures s + [] == s
  {
  }

  /** Forwarding two lists one after the other is forwarding their concatenation. */
  lemma {:induction false} ForwardsAppend(peerid: PeerId, a: seq<Candidate>, b: seq<Candidate>)
    ensures Forwards(peerid, a + b) == Forwards(peerid, a) + Forwards(peerid, b)
  {
    if a == [] {
      assert [] + b == b;
    } else {
      assert (a + b)[1..] == a[1..] + b;
      ForwardsAppend(peerid, a[1..], b);
    }
  }

  /** The `addIceCandidate` requests among `rs`, in issue order. */
  function CandidatePosts(rs: seq<Request>): seq<Request>
  {
    if rs == [] then []
    else (if rs[0].AddIceCandidateRequest? then [rs[0]] else []) + CandidatePosts(rs[1..])
  }

  /** The candidate posts of a concatenation are those of each part, in order. */
  lemma {:induction false} CandidatePostsAppend(a: seq<Request>, b: seq<Request>)
    ensures CandidatePosts(a + b) == CandidatePosts(a) + CandidatePosts(b)
  {
    if a == [] {
      assert [] + b == b;
    } else {
      assert (a + b)[1..] == a[1..] + b;
      CandidatePostsAppend(a[1..], b);
    }
  }

  /** Every forward request is a candidate post. */
  lemma {:induction false} CandidatePostsForwards(peerid: PeerId, cs: seq<Candidate>)
    ensures CandidatePosts(Forwards(peerid, cs)) == Forwards(peerid, cs)
  {
    if cs != [] {
      CandidatePostsForwards(peerid, cs[1..]);
    }
  }

  /** Appending `extra` to a log adds the candidate posts of `extra` to those after `start`. */
  lemma PostsAfterAppend(log: seq<Request>, start: nat, extra: seq<Request>)
    requires start <= |log|
    ensures CandidatePosts((log + extra)[start..]) == CandidatePosts(log[start..]) + CandidatePosts(extra)
  {
    assert (log + extra)[start..] == log[start..] + extra;
    CandidatePostsAppend(log[start..], extra);
  }

  /** The `addIceCandidate` calls handing the remote candidates `cs` to the engine, in order. */
  function Remotes(cs: seq<Candidate>): (es: seq<EngineCandidate>)
    ensures |es| == |cs|
  {
    if cs == [] then [] else [Remote(cs[0])] + Remotes(cs[1..])
  }

  /** The i-th engine call hands over the i-th remote candidate. */
  lemma {:induction false} RemotesAt(cs: seq<Candidate>, i: nat)
    requires i < |cs|
    ensures Remotes(cs)[i] == Remote(cs[i])
  {
    if i > 0 {
      RemotesAt(cs[1..], i - 1);
    }
  }

  /** Handing over one more candidate adds one call at the end. */
  lemma {:induction false} RemotesSnoc(cs: seq<Candidate>, c: Candidate)
    ensures Remotes(cs + [c]) == Remotes(cs) + [Remote(c)]
  {
    if cs == [] {
      assert [] + [c] == [c];
      assert [c][1..] == [];
    } else {
      assert (cs + [c])[1..] == cs[1..] + [c];
      RemotesSnoc(cs[1..], c);
    }
  }

  /** The hangup request `disconnect` sends for the connection it closes, if any. */
  function HangupFor(pc: Option<Peer>): seq<Request> {
    if pc.Some? then [HangupRequest(pc.value.peerid)] else []
  }

  /** `iceServers || {"iceServers": []}`. */
  function ConfigOrDefault(servers: Option<IceConfig>): IceConfig {
    if servers.Some? then servers.value else IceConfig([])
  }

  /** The page's own origin, the server URL used when none is given. */
  function DefaultServerUrl(protocol: string, hostname: string, port: string): string {
    protocol + "//" + hostname + ":" + port
  }

  /**
   * The records one input event produces, one per registered listener set, in
   * registration order; none when the listener throws.
   */
  function Records(uids: seq<string>, ev: InputEvent): (rs: seq<MouseEventRecord>)
    ensures ev.Throws() ==> rs == []
    ensures !ev.Throws() ==> |rs| == |uids|
  {
    if uids == [] then []
    else
      RecordOf(uids[0], ev) + Records(uids[1..], ev)
  }

  /** The i-th record is the one the i-th registered listener set builds. */
  lemma {:induction false} RecordsAt(uids: seq<string>, ev: InputEvent, i: nat)
    requires !ev.Throws() && i < |uids|
    ensures Some(Records(uids, ev)[i]) == Encode(uids[i], ev)
  {
    if i > 0 {
      RecordsAt(uids[1..], ev, i - 1);
    }
  }

  /** The record one listener sends for `ev`, if it builds one. */
  function RecordOf(uid: string, ev: InputEvent): seq<MouseEventRecord> {
    match Encode(uid, ev) case Some(x) => [x] case None => []
  }

  /** Registering one more listener set adds its record, if any, at the end. */
  lemma {:induction false} RecordsSnoc(uids: seq<string>, uid: string, ev: InputEvent)
    ensures Records(uids + [uid], ev)
         == Records(uids, ev) + RecordOf(uid, ev)
  {
    if uids == [] {
      assert [] + [uid] == [uid];
      assert [uid][1..] == [];
    } else {
      assert (uids + [uid])[1..] == uids[1..] + [uid];
      RecordsSnoc(uids[1..], uid, ev);
    }
  }

  class Streamer {
    /** The server URL, fixed by the constructor. */
    const srvurl: string
    /** Whether `videoElement` refers to an element. */
    const hasVideo: bool
    /** `encodeURIComponent`. */
    const encode: string -> string

    /** `videoElement.style.opacity`, None while this client has not set it. */
    var opacity: Option<string>
    /** `this.pc`: the current peer connection, or null. */
    var pc: Option<Peer>
    /** `this.iceServers`: the cached server response. */
    var iceServers: Option<IceConfig>
    /** `this.pcConfig`, None before the first connection attempt. */
    var pcConfig: Option<IceConfig>
    /** Local candidates gathered before the remote description was set, oldest first. */
    var earlyCandidates: seq<Candidate>
    /** Every HTTP request issued, oldest first. */
    var outbox: seq<Request>
    /** `this.videoElt`, read by `addEventListeners`; no method of the client assigns it. */
    var videoElt: bool
    /** `this.dataChannel`, read by `sendJsonData`; no method of the client assigns it. */
    var dataChannel: Option<DataChannel>
    /** The window uid of each `addEventListeners` call that registered listeners. */
    var listeners: seq<string>
    /** Every record sent over the data channel, oldest first. */
    var sent: seq<MouseEventRecord>

    /** The local candidates of the current connection, in the order the engine reported them. */
    ghost var gathered: seq<Candidate>
    /** Those of them already forwarded to the server, in the order forwarded. */
    ghost var forwarded: seq<Candidate>
    /** The length of `outbox` when the current connection was created. */
    ghost var connStart: nat

    /**
     * The candidate-buffering invariant: once the remote description is set nothing is
     * buffered, and every gathered candidate is either forwarded or buffered, the
     * forwarded ones first, each in arrival order. The forwarded ones are exactly the
     * `addIceCandidate` requests issued since the current connection was created, in order.
     */
    ghost predicate Valid()
      reads this
    {
      && (pc.Some? && pc.value.remoteDescription.Some? ==> earlyCandidates == [])
      && gathered == forwarded + earlyCandidates
      && connStart <= |outbox|
      && (pc.Some? ==> CandidatePosts(outbox[connStart..]) == Forwards(pc.value.peerid, forwarded))
    }

    /** The constructor: no connection, nothing cached, nothing buffered or sent. */
    constructor (video: bool, srvurlArg: Option<string>, protocol: string, hostname: string, port: string,
                 enc: string -> string)
      ensures Valid()
      ensures hasVideo == video && encode == enc
      ensures srvurl == if Truthy(srvurlArg) then srvurlArg.value else DefaultServerUrl(protocol, hostname, port)
      ensures pc.None? && iceServers.None? && pcConfig.None? && earlyCandidates == [] && outbox == []
      ensures opacity.None? && !videoElt && dataChannel.None? && listeners == [] && sent == []
    {
      hasVideo := video;
      srvurl := if Truthy(srvurlArg) then srvurlArg.value else DefaultServerUrl(protocol, hostname, port);
      encode := enc;
      opacity := None;
      pc := None;
      iceServers := None;
      pcConfig := None;
      earlyCandidates := [];
      outbox := [];
      videoElt := false;
      dataChannel := None;
      listeners := [];
      sent := [];
      gathered := [];
      forwarded := [];
      connStart := 0;
    }

    /**
     * `connect`: disconnect, then ask the server for its ICE servers unless a response
     * is cached, in which case the connection is made at once from the cache. Returns
     * the call URL when a connection was made.
     */
    method Connect(videourl: string, audiourl: Option<string>, options: Option<string>,
                   peerid: PeerId, configAccepted: bool) returns (callurl: Option<string>)
      requires Valid()
      modifies this`iceServers, this`pcConfig, this`pc, this`earlyCandidates, this`outbox,
               this`gathered, this`forwarded, this`connStart
      ensures Valid()
      ensures old(iceServers).None? ==>
        && outbox == old(outbox) + HangupFor(old(pc)) + [GetIceServersRequest]
        && pc.None? && callurl.None?
        && iceServers == old(iceServers) && pcConfig == old(pcConfig)
        && earlyCandidates == old(earlyCandidates)
      ensures old(iceServers).Some? ==>
        && iceServers == old(iceServers) && pcConfig == old(iceServers)
        && outbox == old(outbox) + HangupFor(old(pc))
        && (configAccepted ==>
              && pc == Some(Peer(peerid, old(iceServers).value, None, []))
              && callurl == Some(CallUrl(srvurl, peerid, videourl, audiourl, options, encode))
              && earlyCandidates == [] && gathered == [])
        && (!configAccepted ==> pc.None? && callurl.None? && earlyCandidates == old(earlyCandidates))
    {
      Disconnect();
      if iceServers.None? {
        outbox := outbox + [GetIceServersRequest];
        callurl := None;
      } else {
        callurl := OnReceiveGetIceServers(iceServers, videourl, audiourl, options, peerid, configAccepted);
      }
    }

    /** `disconnect`: hang up and drop the current connection, if there is one. */
    method Disconnect()
      requires Valid()
      modifies this`pc, this`outbox
      ensures Valid()
      ensures pc.None?
      ensures outbox == old(outbox) + HangupFor(old(pc))
    {
      if pc.Some? {
        outbox := outbox + [HangupRequest(pc.value.peerid)];
        pc := None;
      }
    }

    /**
     * `onReceiveGetIceServers`: cache the response, derive the configuration, create the
     * peer connection with a fresh id, build the call URL and clear the buffer of early
     * candidates. When the engine refuses the configuration the client disconnects.
     */
    method OnReceiveGetIceServers(servers: Option<IceConfig>, videourl: string, audiourl: Option<string>,
                                  options: Option<string>, peerid: PeerId, configAccepted: bool)
      returns (callurl: Option<string>)
      requires Valid()
      modifies this`iceServers, this`pcConfig, this`pc, this`earlyCandidates, this`outbox,
               this`gathered, this`forwarded, this`connStart
      ensures Valid()
      ensures iceServers == servers && pcConfig == Some(ConfigOrDefault(servers))
      ensures configAccepted ==>
        && pc == Some(Peer(peerid, ConfigOrDefault(servers), None, []))
        && callurl == Some(CallUrl(srvurl, peerid, videourl, audiourl, options, encode))
        && earlyCandidates == [] && gathered == [] && forwarded == []
        && outbox == old(outbox)
      ensures !configAccepted ==>
        && pc.None? && callurl.None?
        && outbox == old(outbox) + HangupFor(old(pc))
        && earlyCandidates == old(earlyCandidates)
        && gathered == old(gathered) && forwarded == old(forwarded)
    {
      iceServers := servers;
      pcConfig := Some(ConfigOrDefault(servers));
      if !configAccepted {
        // the RTCPeerConnection constructor threw: the catch block disconnects
        Disconnect();
        callurl := None;
        return;
      }
      pc := Some(Peer(peerid, pcConfig.value, None, []));
      callurl := Some(CallUrl(srvurl, peerid, videourl, audiourl, options, encode));
      earlyCandidates := [];
      gathered := [];
      forwarded := [];
      connStart := |outbox|;
    }

    /** The continuation of `setLocalDescription`: POST the offer to the call URL. */
    method OnLocalDescriptionSet(callurl: string, offer: SessionDescription)
      requires Valid()
      modifies this`outbox
      ensures Valid()
      ensures outbox == old(outbox) + [CallRequest(callurl, offer)]
    {
      PostsAfterAppend(outbox, connStart, [CallRequest(callurl, offer)]);
      outbox := outbox + [CallRequest(callurl, offer)];
    }

    /** `getIceCandidate`: poll the server for its candidates for the current peer. */
    method GetIceCandidate() returns (r: Outcome)
      requires Valid()
      modifies this`outbox
      ensures Valid()
      ensures r == if pc.None? then TypeError else Normal
      ensures outbox == old(outbox) + if pc.Some? then [GetIceCandidateRequest(pc.value.peerid)] else []
    {
      if pc.None? {
        return TypeError;
      }
      PostsAfterAppend(outbox, connStart, [GetIceCandidateRequest(pc.value.peerid)]);
      outbox := outbox + [GetIceCandidateRequest(pc.value.peerid)];
      r := Normal;
    }

    /** `addIceCandidate`: POST one local candidate for `peerid`. */
    method AddIceCandidate(peerid: PeerId, candidate: Candidate)
      modifies this`outbox
      ensures outbox == old(outbox) + [AddIceCandidateRequest(peerid, candidate)]
    {
      outbox := outbox + [AddIceCandidateRequest(peerid, candidate)];
    }

    /**
     * `onIceCandidate`: the engine reports a local candidate (or the end of gathering,
     * None). It is forwarded at once when the remote description is set and buffered
     * otherwise.
     */
    method OnIceCandidate(candidate: Option<Candidate>) returns (r: Outcome)
      requires Valid()
      modifies this`outbox, this`earlyCandidates, this`gathered, this`forwarded
      ensures Valid()
      ensures candidate.None? || pc.None? ==>
        && r == (if candidate.None? then Normal else TypeError)
        && outbox == old(outbox) && earlyCandidates == old(earlyCandidates)
        && gathered == old(gathered) && forwarded == old(forwarded)
      ensures candidate.Some? && pc.Some? ==>
        && r == Normal && gathered == old(gathered) + [candidate.value]
      ensures candidate.Some? && pc.Some? && pc.value.remoteDescription.Some? ==>
        && outbox == old(outbox) + [AddIceCandidateRequest(pc.value.peerid, candidate.value)]
        && earlyCandidates == old(earlyCandidates)
      ensures candidate.Some? && pc.Some? && pc.value.remoteDescription.None? ==>
        && outbox == old(outbox)
        && earlyCandidates == old(earlyCandidates) + [candidate.value]
    {
      r := Normal;
      if candidate.Some? {
        if pc.None? {
          return TypeError;
        }
        gathered := gathered + [candidate.value];
        if pc.value.remoteDescription.Some? {
          PostsAfterAppend(outbox, connStart, [AddIceCandidateRequest(pc.value.peerid, candidate.value)]);
          ForwardsSnoc(pc.value.peerid, forwarded, candidate.value);
          AddIceCandidate(pc.value.peerid, candidate.value);
          forwarded := forwarded + [candidate.value];
        } else {
          earlyCandidates := earlyCandidates + [candidate.value];
        }
      }
    }

    /**
     * `onReceiveCall` with its `setRemoteDescription` continuation: when the engine
     * accepts the server's answer, every buffered candidate is forwarded in arrival
     * order, the buffer is emptied, and then one poll for the server's candidates follows.
     */
    method OnReceiveCall(answer: SessionDescription, accepted: bool) returns (r: Outcome)
      requires Valid()
      modifies this`pc, this`outbox, this`earlyCandidates, this`forwarded
      ensures Valid()
      ensures gathered == old(gathered)
      ensures old(pc).None? || !accepted ==>
        && r == (if old(pc).None? then TypeError else Normal)
        && pc == old(pc) && outbox == old(outbox)
        && earlyCandidates == old(earlyCandidates) && forwarded == old(forwarded)
      ensures old(pc).Some? && accepted ==>
        && r == Normal
        && pc == Some(old(pc).value.(remoteDescription := Some(answer)))
        && earlyCandidates == []
        && forwarded == old(forwarded) + old(earlyCandidates)
        && outbox == old(outbox) + Forwards(old(pc).value.peerid, old(earlyCandidates))
                                 + [GetIceCandidateRequest(old(pc).value.peerid)]
    {
      if pc.None? {
        return TypeError;
      }
      if !accepted {
        return Normal;
      }
      pc := Some(pc.value.(remoteDescription := Some(answer)));
      var peerid := pc.value.peerid;
      ghost var log, early, sent := outbox, earlyCandidates, forwarded;
      DrainEarlyCandidates(peerid);
      PostsAfterAppend(log, connStart, Forwards(peerid, early));
      CandidatePostsForwards(peerid, early);
      ForwardsAppend(peerid, sent, early);
      r := GetIceCandidate();
    }

    /**
     * The `while`/`shift` loop of the `setRemoteDescription` continuation: forward every
     * buffered candidate for the current peer, oldest first, until the buffer is empty.
     */
    method DrainEarlyCandidates(peerid: PeerId)
      modifies this`outbox, this`earlyCandidates, this`forwarded
      ensures earlyCandidates == []
      ensures forwarded == old(forwarded) + old(earlyCandidates)
      ensures outbox == old(outbox) + Forwards(peerid, old(earlyCandidates))
    {
      ghost var drained: seq<Candidate> := [];
      while |earlyCandidates| > 0
        invariant old(earlyCandidates) == drained + earlyCandidates
        invariant forwarded == old(forwarded) + drained
        invariant outbox == old(outbox) + Forwards(peerid, drained)
        decreases |earlyCandidates|
      {
        var candidate := earlyCandidates[0];
        earlyCandidates := earlyCandidates[1..];
        AddIceCandidate(peerid, candidate);
        forwarded := forwarded + [candidate];
        ForwardsSnoc(peerid, drained, candidate);
        drained := drained + [candidate];
      }
      assert earlyCandidates == [];
      AppendEmpty(drained);
    }

    /**
     * `onReceiveCandidate`: hand the server's candidates to the engine in list order,
     * then signal the end of candidates. A null list does nothing.
     */
    method OnReceiveCandidate(candidates: Option<seq<Candidate>>) returns (r: Outcome)
      requires Valid()
      modifies this`pc
      ensures Valid()
      ensures candidates.None? || old(pc).None? ==>
        r == (if candidates.None? then Normal else TypeError) && pc == old(pc)
      ensures candidates.Some? && old(pc).Some? ==>
        && r == Normal
        && pc == Some(old(pc).value.(added := old(pc).value.added + Remotes(candidates.value) + [EndOfCandidates]))
    {
      if candidates.None? {
        return Normal;
      }
      if pc.None? {
        // the first use of `this.pc`, in the loop or after it, throws
        return TypeError;
      }
      var cs := candidates.value;
      var peer := pc.value;
      assert peer.added + Remotes(cs[..0]) == peer.added;
      for i := 0 to |cs|
        invariant pc == Some(peer.(added := peer.added + Remotes(cs[..i])))
      {
        assert cs[..i + 1] == cs[..i] + [cs[i]];
        RemotesSnoc(cs[..i], cs[i]);
        assert peer.added + Remotes(cs[..i + 1]) == peer.added + Remotes(cs[..i]) + [Remote(cs[i])];
        pc := Some(pc.value.(added := pc.value.added + [Remote(cs[i])]));
      }
      assert cs[..|cs|] == cs;
      pc := Some(pc.value.(added := pc.value.added + [EndOfCandidates]));
      r := Normal;
    }

    /**
     * `oniceconnectionstatechange`: apply the reaction to the new state, setting the
     * opacity or polling the server for candidates.
     */
    method OnIceConnectionStateChange(state: string) returns (r: Outcome)
      requires Valid()
      modifies this`opacity, this`outbox
      ensures Valid()
      ensures Reaction(hasVideo, state).SetOpacity? ==>
        r == Normal && opacity == Some(Reaction(hasVideo, state).opacity) && outbox == old(outbox)
      ensures Reaction(hasVideo, state).PollCandidates? ==>
        && opacity == old(opacity)
        && r == (if pc.None? then TypeError else Normal)
        && outbox == old(outbox) + if pc.Some? then [GetIceCandidateRequest(pc.value.peerid)] else []
      ensures Reaction(hasVideo, state).NoEffect? ==>
        r == Normal && opacity == old(opacity) && outbox == old(outbox)
    {
      match Reaction(hasVideo, state)
      case SetOpacity(o) =>
        opacity := Some(o);
        r := Normal;
      case PollCandidates =>
        r := GetIceCandidate();
      case NoEffect =>
        r := Normal;
    }

    /** `sendJsonData`: send over the data channel only when one is defined. */
    method SendJsonData(data: MouseEventRecord)
      modifies this`sent
      ensures sent == old(sent) + if dataChannel.Some? then [data] else []
    {
      if dataChannel.Some? {
        sent := sent + [data];
      }
    }

    /** `addEventListeners`: register the input listeners only when `videoElt` is set. */
    method AddEventListeners(windowUid: string)
      modifies this`listeners
      ensures listeners == old(listeners) + if videoElt then [windowUid] else []
    {
      if videoElt {
        listeners := listeners + [windowUid];
      }
    }

    /** One registered listener handling `ev`: build the record and send it. */
    method RunListener(windowUid: string, ev: InputEvent)
      modifies this`sent
      ensures sent == old(sent) + if dataChannel.Some? then RecordOf(windowUid, ev) else []
    {
      var rec := Encode(windowUid, ev);
      if rec.Some? {
        SendJsonData(rec.value);
      }
    }

    /**
     * The browser delivering one input event to the video element: every registered
     * listener builds its record and sends it, in registration order.
     */
    method DispatchInput(ev: InputEvent)
      modifies this`sent
      ensures sent == old(sent) + if dataChannel.Some? then Records(listeners, ev) else []
    {
      for i := 0 to |listeners|
        invariant sent == old(sent) + if dataChannel.Some? then Records(listeners[..i], ev) else []
      {
        assert listeners[..i + 1] == listeners[..i] + [listeners[i]];
        RecordsSnoc(listeners[..i], listeners[i], ev);
        RunListener(listeners[i], ev);
      }
      assert listeners[..|listeners|] == listeners;
    }
  }

  /**
   * The order property as one fact: once the answer is applied, every local candidate
   * gathered on the connection has been posted, in arrival order, and the connection's
   * `addIceCandidate` requests are exactly those posts.
   */
  lemma GatheredAllPosted(s: Streamer)
    requires s.Valid() && s.pc.Some? && s.pc.value.remoteDescription.Some?
    ensures CandidatePosts(s.outbox[s.connStart..]) == Forwards(s.pc.value.peerid, s.gathered)
  {
    assert s.forwarded + [] == s.forwarded;
  }

  /**
   * A client opening a first connection: the ICE servers are fetched (the server returns
   * none), the engine accepts the configuration and the offer is posted to the call URL.
   */
  method OpenConnection(enc: string -> string, peerid: PeerId, offer: SessionDescription)
    returns (s: Streamer)
    ensures fresh(s) && s.Valid()
    ensures s.pc == Some(Peer(peerid, IceConfig([]), None, [])) && s.earlyCandidates == []
    ensures s.outbox == [
      GetIceServersRequest,
      CallRequest(CallUrl("http://streamer:8000", peerid, "camera", None, None, enc), offer)]
  {
    s := new Streamer(true, Some("http://streamer:8000"), "http:", "localhost", "80", enc);
    var callurl := s.Connect("camera", None, None, peerid, true);
    assert s.outbox == [GetIceServersRequest];
    callurl := s.OnReceiveGetIceServers(None, "camera", None, None, peerid, true);
    s.OnLocalDescriptionSet(callurl.value, offer);
  }

  /**
   * Two local candidates arrive before the server's answer and one after it. The server
   * sees the call, the buffered candidates in arrival order, then the poll, then the
   * late candidate.
   */
  method EarlyCandidatesSession(enc: string -> string, peerid: PeerId, offer: SessionDescription,
                                answer: SessionDescription, c1: Candidate, c2: Candidate, c3: Candidate)
    returns (requests: seq<Request>)
    ensures requests == [
      GetIceServersRequest,
      CallRequest(CallUrl("http://streamer:8000", peerid, "camera", None, None, enc), offer),
      AddIceCandidateRequest(peerid, c1),
      AddIceCandidateRequest(peerid, c2),
      GetIceCandidateRequest(peerid),
      AddIceCandidateRequest(peerid, c3)]
  {
    var s := OpenConnection(enc, peerid, offer);
    var r := s.OnIceCandidate(Some(c1));
    r := s.OnIceCandidate(Some(c2));
    assert s.earlyCandidates == [c1, c2];
    r := s.OnReceiveCall(answer, true);
    assert Forwards(peerid, [c1, c2]) == [AddIceCandidateRequest(peerid, c1), AddIceCandidateRequest(peerid, c2)] by {
      assert [c1, c2][1..] == [c2];
      assert [c2][1..] == [];
    }
    r := s.OnIceCandidate(Some(c3));
    requests := s.outbox;
  }
}
