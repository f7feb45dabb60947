/**
 * Query-string composition for the signalling endpoints of webrtc-streamer.
 * `encodeURIComponent` is not interpreted: it is passed in as the function `enc`.
 */
module Urls {
  import opened Wrappers

  /** JavaScript truthiness of an optional string argument: absent and "" are falsy. */
  predicate Truthy(s: Option<string>) {
    s.Some? && s.value != ""
  }

  /** One query parameter, its value already encoded. */
  datatype Param = Param(key: string, value: string)

  /** Renders parameters: the first follows `lead`, every later one follows "&". */
  function Render(ps: seq<Param>, lead: string): string
  {
    if ps == [] then "" else lead + ps[0].key + "=" + ps[0].value + Render(ps[1..], "&")
  }

  /** The query part of a URL, "?k1=v1&k2=v2…", or "" when there are no parameters. */
  function Query(ps: seq<Param>): string {
    Render(ps, "?")
  }

  /** The value of the first parameter named `key`. */
  function Lookup(ps: seq<Param>, key: string): Option<string>
  {
    if ps == [] then None
    else if ps[0].key == key then Some(ps[0].value)
    else Lookup(ps[1..], key)
  }

  /** Position of a key in the canonical order of the call request's parameters. */
  function CallKeyRank(key: string): nat {
    if key == "peerid" then 0
    else if key == "url" then 1
    else if key == "audiourl" then 2
    else if key == "options" then 3
    else 4
  }

  /** The parameters of a call request, as a list: the reference the call URL is checked against. */
  function CallParams(peerid: string, videourl: string, audiourl: Option<string>,
                      options: Option<string>, enc: string -> string): seq<Param>
  {
    [Param("peerid", peerid), Param("url", enc(videourl))]
    + (if Truthy(audiourl) then [Param("audiourl", enc(audiourl.value))] else [])
    + (if Truthy(options) then [Param("options", enc(options.value))] else [])
  }

  /**
   * The call URL as the client builds it: a fixed head with the peer id (not encoded)
   * and the encoded video URL, then "&audiourl=…" and "&options=…" appended only for
   * truthy arguments, in that order.
   */
  function CallUrl(srvurl: string, peerid: string, videourl: string, audiourl: Option<string>,
                   options: Option<string>, enc: string -> string): (u: string)
    ensures u == srvurl + "/api/call" + Query(CallParams(peerid, videourl, audiourl, options, enc))
  {
    CallUrlIsQuery(srvurl, peerid, videourl, audiourl, options, enc);
    var head := srvurl + "/api/call?peerid=" + peerid + "&url=" + enc(videourl);
    var withAudio := if Truthy(audiourl) then head + "&audiourl=" + enc(audiourl.value) else head;
    if Truthy(options) then withAudio + "&options=" + enc(options.value) else withAudio
  }

  lemma RenderCons(p: Param, ps: seq<Param>, lead: string)
    ensures Render([p] + ps, lead) == lead + p.key + "=" + p.value + Render(ps, "&")
  {
    assert ([p] + ps)[1..] == ps;
  }

  /** An optional parameter: absent, or the single parameter `key` = `val`. */
  function OptionalParam(key: string, present: bool, val: string): seq<Param> {
    if present then [Param(key, val)] else []
  }

  /** The text an optional parameter contributes after the first parameter. */
  function OptionalText(key: string, present: bool, val: string): string {
    if present then "&" + key + "=" + val else ""
  }

  lemma RenderOptionals(ka: string, pa: bool, va: string, ko: string, po: bool, vo: string)
    ensures Render(OptionalParam(ka, pa, va) + OptionalParam(ko, po, vo), "&")
         == OptionalText(ka, pa, va) + OptionalText(ko, po, vo)
  {
    var a := OptionalParam(ka, pa, va);
    var o := OptionalParam(ko, po, vo);
    if po {
      RenderCons(o[0], [], "&");
      assert o == [o[0]] + [];
    }
    assert Render(o, "&") == OptionalText(ko, po, vo);
    if pa {
      RenderCons(a[0], o, "&");
      assert a + o == [a[0]] + o;
    } else {
      assert a + o == o;
    }
  }

  /** The concatenation in CallUrl renders exactly the parameter list CallParams. */
  lemma CallUrlIsQuery(srvurl: string, peerid: string, videourl: string, audiourl: Option<string>,
                       options: Option<string>, enc: string -> string)
    ensures
      var head := srvurl + "/api/call?peerid=" + peerid + "&url=" + enc(videourl);
      var withAudio := if Truthy(audiourl) then head + "&audiourl=" + enc(audiourl.value) else head;
      (if Truthy(options) then withAudio + "&options=" + enc(options.value) else withAudio)
        == srvurl + "/api/call" + Query(CallParams(peerid, videourl, audiourl, options, enc))
  {
    var va := if Truthy(audiourl) then enc(audiourl.value) else "";
    var vo := if Truthy(options) then enc(options.value) else "";
    var a := OptionalParam("audiourl", Truthy(audiourl), va);
    var o := OptionalParam("options", Truthy(options), vo);
    var ta := OptionalText("audiourl", Truthy(audiourl), va);
    var to := OptionalText("options", Truthy(options), vo);
    var e := enc(videourl);
    assert CallParams(peerid, videourl, audiourl, options, enc)
        == [Param("peerid", peerid), Param("url", e)] + (a + o);
    RenderOptionals("audiourl", Truthy(audiourl), va, "options", Truthy(options), vo);
    CallQueryText(peerid, e, a + o, ta + to);
    var head := srvurl + "/api/call?peerid=" + peerid + "&url=" + e;
    AppendOptionals(head, Truthy(audiourl), va, Truthy(options), vo);
    CallUrlText(srvurl, peerid, e, ta, to);
  }

  lemma AppendOptionals(head: string, pa: bool, va: string, po: bool, vo: string)
    ensures (var withAudio := if pa then head + "&audiourl=" + va else head;
             if po then withAudio + "&options=" + vo else withAudio)
         == head + OptionalText("audiourl", pa, va) + OptionalText("options", po, vo)
  {
    var ta := OptionalText("audiourl", pa, va);
    var to := OptionalText("options", po, vo);
    var withAudio := if pa then head + "&audiourl=" + va else head;
    if pa {
      Assoc(head, "&audiourl=", va);
      assert "&" + "audiourl" + "=" == "&audiourl=";
    } else {
      assert head + [] == head;
    }
    assert withAudio == head + ta;
    if po {
      Assoc(head + ta, "&options=", vo);
      assert "&" + "options" + "=" == "&options=";
    } else {
      assert head + ta + [] == head + ta;
    }
  }

  lemma CallQueryText(peerid: string, e: string, rest: seq<Param>, restText: string)
    requires Render(rest, "&") == restText
    ensures Render([Param("peerid", peerid), Param("url", e)] + rest, "?")
         == "?peerid=" + peerid + ("&url=" + e + restText)
  {
    var pv := Param("peerid", peerid);
    var pu := Param("url", e);
    assert [pv, pu] + rest == [pv] + ([pu] + rest);
    RenderCons(pu, rest, "&");
    RenderCons(pv, [pu] + rest, "?");
    assert "?" + "peerid" + "=" == "?peerid=";
    assert "&" + "url" + "=" == "&url=";
  }

  lemma CallUrlText(srvurl: string, peerid: string, e: string, ta: string, to: string)
    ensures srvurl + "/api/call" + ("?peerid=" + peerid + ("&url=" + e + (ta + to)))
         == srvurl + "/api/call?peerid=" + peerid + "&url=" + e + ta + to
  {
    assert "/api/call" + "?peerid=" == "/api/call?peerid=";
    calc {
      srvurl + "/api/call" + ("?peerid=" + peerid + ("&url=" + e + (ta + to)));
      { Assoc(srvurl + "/api/call", "?peerid=" + peerid, "&url=" + e + (ta + to));
        Assoc(srvurl, "/api/call", "?peerid=");
        Assoc(srvurl + "/api/call", "?peerid=", peerid); }
      srvurl + "/api/call?peerid=" + peerid + ("&url=" + e + (ta + to));
      { Assoc(srvurl + "/api/call?peerid=" + peerid, "&url=" + e, ta + to);
        Assoc(srvurl + "/api/call?peerid=" + peerid, "&url=", e); }
      srvurl + "/api/call?peerid=" + peerid + "&url=" + e + (ta + to);
      { Assoc(srvurl + "/api/call?peerid=" + peerid + "&url=" + e, ta, to); }
      srvurl + "/api/call?peerid=" + peerid + "&url=" + e + ta + to;
    }
  }

  lemma Assoc<T>(a: seq<T>, b: seq<T>, c: seq<T>)
    ensures a + (b + c) == a + b + c
  {
  }

  /**
   * What the call URL carries: the peer id and the encoded video URL always, the audio URL
   * and the options exactly when they are truthy, and its parameters in the canonical order
   * peerid, url, audiourl, options with none repeated.
   */
  lemma CallParamsContents(peerid: string, videourl: string, audiourl: Option<string>,
                           options: Option<string>, enc: string -> string)
    ensures var ps := CallParams(peerid, videourl, audiourl, options, enc);
      && Lookup(ps, "peerid") == Some(peerid)
      && Lookup(ps, "url") == Some(enc(videourl))
      && Lookup(ps, "audiourl") == (if Truthy(audiourl) then Some(enc(audiourl.value)) else None)
      && Lookup(ps, "options") == (if Truthy(options) then Some(enc(options.value)) else None)
      && (forall i :: 0 <= i < |ps| ==> CallKeyRank(ps[i].key) < 4)
      && (forall i, j :: 0 <= i < j < |ps| ==> CallKeyRank(ps[i].key) < CallKeyRank(ps[j].key))
  {
    var ps := CallParams(peerid, videourl, audiourl, options, enc);
    var va := if Truthy(audiourl) then enc(audiourl.value) else "";
    var vo := if Truthy(options) then enc(options.value) else "";
    var a := OptionalParam("audiourl", Truthy(audiourl), va);
    var o := OptionalParam("options", Truthy(options), vo);
    assert ps == [Param("peerid", peerid), Param("url", enc(videourl))] + (a + o);
    assert ps[1..][1..] == a + o;
    LookupOptionals(Truthy(audiourl), va, Truthy(options), vo);
  }

  lemma LookupOptionals(pa: bool, va: string, po: bool, vo: string)
    ensures var ps := OptionalParam("audiourl", pa, va) + OptionalParam("options", po, vo);
      && Lookup(ps, "peerid") == None
      && Lookup(ps, "url") == None
      && Lookup(ps, "audiourl") == (if pa then Some(va) else None)
      && Lookup(ps, "options") == (if po then Some(vo) else None)
  {
    var a := OptionalParam("audiourl", pa, va);
    var o := OptionalParam("options", po, vo);
    if po {
      LookupSingle(Param("options", vo), "peerid");
      LookupSingle(Param("options", vo), "url");
      LookupSingle(Param("options", vo), "audiourl");
      LookupSingle(Param("options", vo), "options");
    }
    if pa {
      assert "audiourl" != "peerid" && "audiourl" != "url";
      assert (a + o)[1..] == o;
    } else {
      assert a + o == o;
    }
  }

  lemma LookupSingle(p: Param, key: string)
    ensures Lookup([p], key) == if p.key == key then Some(p.value) else None
  {
    assert [p][1..] == [];
  }
}
