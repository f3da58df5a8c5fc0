/** The part of Caddy's configuration tree that the two managers edit, and dial addresses
    (internal/app/caddy_types.go).  A stub Caddyfile has none of the three apps. */
module CaddyConfig {
  import opened Wrappers
  import opened Decimal

  // ---- dial addresses ----

  /** fmt.Sprintf("%s:%d", ip, port). */
  function FormatDial(ip: string, port: int): string { ip + ":" + Itoa(port) }

  /** The index of the last ':', or -1. */
  function LastColon(s: string): int
    ensures -1 <= LastColon(s) < |s|
  {
    if s == "" then -1
    else if s[|s| - 1] == ':' then |s| - 1
    else LastColon(s[..|s| - 1])
  }

  /** How ListRoutes reads a dial address: a port that does not parse is 0. */
  function ReadDial(dial: string): (string, int) {
    var i := LastColon(dial);
    if i == -1 then (dial, 0)
    else
      var port := Atoi(dial[i + 1..]);
      (dial[..i], if port.Some? then port.value else 0)
  }

  /** What parseDial computes: digits are accumulated unchecked. */
  function ParsedDial(dial: string): (string, int) {
    var i := LastColon(dial);
    if i == -1 then (dial, 0) else (dial[..i], Accumulate(dial[i + 1..]))
  }

  method ParseDial(dial: string) returns (ip: string, port: int)
    ensures (ip, port) == ParsedDial(dial)
  {
    var i := |dial| - 1;
    assert dial[..i + 1] == dial;
    while i >= 0
      invariant -1 <= i < |dial|
      invariant LastColon(dial) == LastColon(dial[..i + 1])
    {
      assert dial[..i + 1][..i] == dial[..i];
      if dial[i] == ':' {
        ip := dial[..i];
        port := 0;
        var rest := dial[i + 1..];
        for k := 0 to |rest|
          invariant port == Accumulate(rest[..k])
        {
          assert rest[..k + 1][..k] == rest[..k];
          port := port * 10 + DigitValue(rest[k]);
        }
        assert rest[..|rest|] == rest;
        return;
      }
      i := i - 1;
    }
    return dial, 0;
  }

  lemma {:induction false} LastColonOf(ip: string, t: string)
    requires ':' !in t
    ensures LastColon(ip + ":" + t) == |ip|
  {
    var s := ip + ":" + t;
    if t == "" {
      assert s[|s| - 1] == ':';
    } else {
      assert s[..|s| - 1] == ip + ":" + t[..|t| - 1];
      LastColonOf(ip, t[..|t| - 1]);
    }
  }

  /** Printing and reading a dial address, for any address text, IPv6 included: ListRoutes
      always gets back what was printed, parseDial exactly when the port is not negative. */
  lemma DialRoundTrip(ip: string, port: int)
    ensures ReadDial(FormatDial(ip, port)) == (ip, port)
    ensures ParsedDial(FormatDial(ip, port)) == (ip, port) <==> 0 <= port
  {
    if ':' in Itoa(port) {
      ItoaChars(port, ':');
    }
    var d := FormatDial(ip, port);
    LastColonOf(ip, Itoa(port));
    assert d[..|ip|] == ip && d[|ip| + 1..] == Itoa(port);
    AtoiItoa(port);
    AccumulateItoaExact(port);
  }

  // ---- the tree ----

  /** An HTTP route: its id ("" for none), the hosts of its first matcher, the dial address of
      its first handler's first upstream, and whether that handler speaks HTTP/2 upstream. */
  datatype HttpRoute = HttpRoute(id: string, hosts: seq<string>, dial: Option<string>, h2: bool)

  datatype HttpServer = HttpServer(
    listen: seq<string>, routes: seq<HttpRoute>, tlsPolicies: bool,
    wrappers: Option<seq<string>>, clientIpHeaders: Option<seq<string>>,
    trustedProxies: Option<seq<string>>)

  function Bare(listen: seq<string>): HttpServer { HttpServer(listen, [], false, None, None, None) }

  datatype Issuer = Issuer(module_: string, ca: string, email: string, external: string,
                           dns: Option<string>)

  datatype TlsPolicy = TlsPolicy(subjects: seq<string>, issuers: seq<Issuer>)

  datatype L4Handler =
    | Proxy(dials: seq<string>, v2: bool)
    | ProxyProtocol(allow: seq<string>)
    | Subroute(routes: seq<L4Route>)

  /** A layer4 route: the SNI lists of its matchers, and its handlers. */
  datatype L4Route = L4Route(matchers: seq<seq<string>>, handle: seq<L4Handler>)

  datatype L4Server = L4Server(listen: seq<string>, routes: seq<L4Route>)

  datatype Config = Config(http: Option<map<string, HttpServer>>, tls: Option<seq<TlsPolicy>>,
                           layer4: Option<map<string, L4Server>>)

  const STUB := Config(None, None, None)

  /** Caddy behind its admin API: the live configuration and the count of mutating requests.
      Every request is atomic and none fails. */
  class Caddy {
    var cfg: Config
    var writes: nat

    constructor ()
      ensures cfg == STUB && writes == 0
    {
      cfg := STUB;
      writes := 0;
    }

    /** A crash or reload: back to the stub, outside anyone's control. */
    method Revert()
      modifies this
      ensures cfg == STUB && writes == old(writes)
    {
      cfg := STUB;
    }

    /** DELETE /id/<id> where several routes hold the id: one or more of them go, and which is not
        for the caller to say. */
    method Choose(holders: set<nat>) returns (gone: set<nat>)
      requires holders != {}
      ensures gone != {} && gone <= holders
    {
      gone :| gone != {} && gone <= holders;
    }

    /** POST /load, or a mutating request below /config, that leaves this tree. */
    method Load(c: Config)
      modifies this
      ensures cfg == c && writes == old(writes) + 1
    {
      cfg := c;
      writes := writes + 1;
    }
  }
}
