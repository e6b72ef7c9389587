/**
 * The server start-up address choice from the SERVER_URL setting, and the
 * redirect target of the plain-HTTP listener.
 */
module ServerMain {
  import opened Wrappers
  import opened Strings

  const DefaultHost: string := "127.0.0.1"
  const DefaultPort: string := "3000"
  /** http://127.0.0.1:3000 */
  const DefaultServerUrl: string := "http://" + DefaultHost + ":" + DefaultPort

  /** The text after the first ':' of `s`, or `fallback` when there is none. */
  function PortAfterColon(s: string, fallback: string): (port: string)
    ensures ':' !in s ==> port == fallback
    ensures ':' in s ==> exists k :: 0 <= k < |s| && s[k] == ':' && ':' !in s[..k] && port == s[k + 1..]
  {
    match Find(s, ':')
    case None => fallback
    case Some(k) => s[k + 1..]
  }

  /**
   * The (http, https) listen addresses. An https:// URL listens on port 80
   * for plain HTTP and on its own port (443 if it gives none) for HTTPS;
   * any other URL, with or without http://, listens for plain HTTP on its
   * port (80 if none) and on 443 for HTTPS. The port text is everything
   * after the first ':' and is not checked.
   */
  function ParseServerAddrs(serverUrl: Option<string>): (addrs: (string, string))
    ensures var url := Trim(if serverUrl.Some? then serverUrl.value else DefaultServerUrl);
      && (StartsWith(url, "https://") ==>
            addrs == ("0.0.0.0:80", "0.0.0.0:" + PortAfterColon(TrimStartMatches(url, "https://"), "443")))
      && (!StartsWith(url, "https://") ==>
            addrs == ("0.0.0.0:" + PortAfterColon(TrimStartMatches(url, "http://"), "80"), "0.0.0.0:443"))
  {
    AddrsForUrl(Trim(if serverUrl.Some? then serverUrl.value else DefaultServerUrl))
  }

  /** The addresses for an already trimmed URL. */
  function AddrsForUrl(url: string): (addrs: (string, string))
    ensures StartsWith(addrs.0, "0.0.0.0:") && StartsWith(addrs.1, "0.0.0.0:")
  {
    if StartsWith(url, "https://") then
      var withoutProtocol := TrimStartMatches(url, "https://");
      AnyAddrPrefix(PortAfterColon(withoutProtocol, "443"));
      AnyAddrPrefix("80");
      ("0.0.0.0:80", "0.0.0.0:" + PortAfterColon(withoutProtocol, "443"))
    else
      var withoutProtocol := TrimStartMatches(url, "http://");
      AnyAddrPrefix(PortAfterColon(withoutProtocol, "80"));
      AnyAddrPrefix("443");
      ("0.0.0.0:" + PortAfterColon(withoutProtocol, "80"), "0.0.0.0:443")
  }

  lemma AnyAddrPrefix(port: string)
    ensures StartsWith("0.0.0.0:" + port, "0.0.0.0:")
  {
    assert ("0.0.0.0:" + port)[..8] == "0.0.0.0:";
  }

  /** Without a SERVER_URL setting the server listens on 3000 for HTTP and 443 for HTTPS. */
  lemma DefaultAddrs()
    ensures ParseServerAddrs(None) == ("0.0.0.0:3000", "0.0.0.0:443")
  {
    DefaultTrimmed();
    assert ParseServerAddrs(None) == AddrsForUrl(DefaultServerUrl);
    DefaultUrlAddrs();
  }

  lemma DefaultUrlAddrs()
    ensures AddrsForUrl(DefaultServerUrl) == ("0.0.0.0:3000", "0.0.0.0:443")
  {
    assert forall k :: 0 <= k < |DefaultHost| ==> DefaultHost[k] != ':';
    HttpUrlAddrs(DefaultHost, DefaultPort);
    assert "0.0.0.0:" + DefaultPort == "0.0.0.0:3000";
  }

  lemma DefaultTrimmed()
    ensures Trim(DefaultServerUrl) == DefaultServerUrl
  {
    var url := DefaultServerUrl;
    assert !IsWhitespace(url[0]);
    assert TrimStart(url) == url;
    assert !IsWhitespace(url[|url| - 1]);
  }

  /** A URL of the form http://host:port listens for plain HTTP on that port. */
  lemma HttpUrlPort(host: string, port: string)
    requires ':' !in host && |host| > 0 && host[0] != 'h'
    requires Trim("http://" + host + ":" + port) == "http://" + host + ":" + port
    ensures ParseServerAddrs(Some("http://" + host + ":" + port)) == ("0.0.0.0:" + port, "0.0.0.0:443")
  {
    HttpUrlAddrs(host, port);
  }

  lemma HttpUrlAddrs(host: string, port: string)
    requires ':' !in host && |host| > 0 && host[0] != 'h'
    ensures AddrsForUrl("http://" + host + ":" + port) == ("0.0.0.0:" + port, "0.0.0.0:443")
  {
    var url := "http://" + host + ":" + port;
    var rest := host + ":" + port;
    assert url == "http://" + rest;
    assert !StartsWith(url, "https://") by { assert url[4] == ':'; }
    assert url[..7] == "http://" && url[7..] == rest;
    assert !StartsWith(rest, "http://") by { assert rest[0] == host[0]; }
    assert TrimStartMatches(url, "http://") == rest;
    FirstColonAfter(host, port);
  }

  /** An https:// URL without a port listens on 443, with plain HTTP on 80. */
  lemma HttpsUrlWithoutPort(host: string)
    requires ':' !in host && |host| > 0 && host[0] != 'h'
    requires Trim("https://" + host) == "https://" + host
    ensures ParseServerAddrs(Some("https://" + host)) == ("0.0.0.0:80", "0.0.0.0:443")
  {
    var url := "https://" + host;
    assert url[..8] == "https://";
    assert url[8..] == host;
    assert !StartsWith(host, "https://") by { assert host[0] != 'h'; }
    assert TrimStartMatches(url, "https://") == host;
    assert PortAfterColon(host, "443") == "443";
    assert StartsWith(url, "https://");
    assert AddrsForUrl(url) == ("0.0.0.0:80", "0.0.0.0:" + "443");
    assert "0.0.0.0:" + "443" == "0.0.0.0:443";
    assert ParseServerAddrs(Some(url)) == AddrsForUrl(url);
  }

  lemma FirstColonAfter(host: string, port: string)
    requires ':' !in host
    ensures PortAfterColon(host + ":" + port, "80") == port
  {
    assert host + ":" + port == host + (":" + port);
    FindAfter(host, ":" + port, ':');
    assert (host + ":" + port)[|host| + 1..] == port;
  }

  /**
   * The redirect of the plain-HTTP listener: https:// plus the host up to
   * its first ':' plus the request path; the query string is not kept.
   */
  function RedirectToHttps(host: string, path: string): (location: string)
    ensures ':' in host ==> exists k :: 0 <= k < |host| && host[k] == ':' && ':' !in host[..k]
                                        && location == "https://" + host[..k] + path
    ensures ':' !in host ==> location == "https://" + host + path
  {
    SplitHead(host, ':');
    var hostName := Split(host, ':')[0];
    "https://" + hostName + path
  }

  /** A host with a port is redirected without the port. */
  lemma RedirectDropsPort(name: string, port: string, path: string)
    requires ':' !in name
    ensures RedirectToHttps(name + ":" + port, path) == "https://" + name + path
  {
    var host := name + ":" + port;
    assert host == name + (":" + port);
    FindAfter(name, ":" + port, ':');
    SplitHead(host, ':');
    assert host[..|name|] == name;
  }
}
