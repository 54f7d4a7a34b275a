/** `convert_to_ws_url`: the WebSocket endpoint of a server given by its base URL. */
module WsUrl {
  import opened Text

  function ConvertToWsUrl(url: string): (r: string)
    ensures EndsWith(r, "/ws")
    ensures StartsWith(r, "ws://") || StartsWith(r, "wss://")
  {
    var u := RStrip(url, {'/'});
    if StartsWith(u, "http://") then "ws://" + u[7..] + "/ws"
    else if StartsWith(u, "https://") then "wss://" + u[8..] + "/ws"
    else if StartsWith(u, "ws://") || StartsWith(u, "wss://") then
      if EndsWith(u, "/ws") then u else u + "/ws"
    else "ws://" + u + "/ws"
  }

  /** Converting an already converted URL changes nothing. */
  lemma ConvertIdempotent(url: string)
    ensures ConvertToWsUrl(ConvertToWsUrl(url)) == ConvertToWsUrl(url)
  {
    var r := ConvertToWsUrl(url);
    assert r[|r| - 1] == 's';
    RStripNoop(r, {'/'});
    NotHttp(r);
  }

  /** A `ws://` or `wss://` URL does not start with an HTTP scheme. */
  lemma NotHttp(r: string)
    requires StartsWith(r, "ws://") || StartsWith(r, "wss://")
    ensures !StartsWith(r, "http://") && !StartsWith(r, "https://")
  {
    assert r[0] == 'w';
  }

  /** `http://host...` becomes `ws://host.../ws` (for a URL without trailing slashes). */
  lemma ConvertHttp(rest: string)
    requires rest != [] && rest[|rest| - 1] != '/'
    ensures ConvertToWsUrl("http://" + rest) == "ws://" + rest + "/ws"
  {
    var u := "http://" + rest;
    RStripNoop(u, {'/'});
    assert u[..7] == "http://" && u[7..] == rest;
  }

  /** `https://host...` becomes `wss://host.../ws` (for a URL without trailing slashes). */
  lemma ConvertHttps(rest: string)
    requires rest != [] && rest[|rest| - 1] != '/'
    ensures ConvertToWsUrl("https://" + rest) == "wss://" + rest + "/ws"
  {
    var u := "https://" + rest;
    RStripNoop(u, {'/'});
    assert u[..8] == "https://" && u[8..] == rest;
    assert u[..7] != "http://" by { assert u[4] == 's'; }
  }

  /** Trailing slashes are ignored. */
  lemma ConvertIgnoresTrailingSlash(url: string)
    ensures ConvertToWsUrl(url + "/") == ConvertToWsUrl(url)
  {
    RStripSlash(url);
  }

  lemma RStripSlash(url: string)
    ensures RStrip(url + "/", {'/'}) == RStrip(url, {'/'})
  {
    assert (url + "/")[..|url + "/"| - 1] == url;
  }

  /** A host without a scheme is given `ws://`. */
  lemma ConvertBareHost(host: string)
    requires host != [] && host[|host| - 1] != '/'
    requires !StartsWith(host, "http://") && !StartsWith(host, "https://")
    requires !StartsWith(host, "ws://") && !StartsWith(host, "wss://")
    ensures ConvertToWsUrl(host) == "ws://" + host + "/ws"
  {
    RStripNoop(host, {'/'});
  }
}
