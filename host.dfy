/**
 * The identifier middleware: the subdomain of the request host, or else the
 * "email" path parameter, is stored as "identifier" in the request context.
 */
module HostIdentifier {
  import opened Store
  import opened Strings

  /**
   * net.SplitHostPort for the forms without brackets: the port starts after
   * the last ':', the host part may hold no other ':', and no '[' or ']' may
   * appear anywhere.
   */
  function SplitHostPort(hostport: string): (r: Option<(string, string)>)
    ensures r.Some? <==> multiset(hostport)[':'] == 1 && '[' !in hostport && ']' !in hostport
    ensures r.Some? ==> hostport == r.value.0 + [':'] + r.value.1 && ':' !in r.value.0 && ':' !in r.value.1
  {
    match LastIndexOf(hostport, ':')
    case None =>
      assert multiset(hostport)[':'] == 0;
      None
    case Some(i) =>
      var host, port := hostport[..i], hostport[i + 1..];
      assert hostport == host + [':'] + port;
      assert multiset(hostport)[':'] == multiset(host)[':'] + 1;
      if ':' in host then None
      else if '[' in hostport then None
      else if ']' in hostport then None
      else Some((host, port))
  }

  /** The host name: the host without its port when it parses as host:port, the whole host otherwise. */
  function Hostname(host: string): (name: string)
    ensures name == host || (|name| < |host| && host == name + [':'] + host[|name| + 1..])
    ensures ':' in name ==> name == host
  {
    match SplitHostPort(host)
    case Some(hp) => hp.0
    case None => host
  }

  /** extractSubdomain: the first dot-separated head of a host name with at least three labels, else "". */
  function ExtractSubdomain(host: string): (sub: string)
    ensures multiset(Hostname(host))['.'] < 2 ==> sub == ""
    ensures multiset(Hostname(host))['.'] >= 2 ==>
      var hostname := Hostname(host);
      '.' in hostname && sub == hostname[..IndexOf(hostname, '.').value]
    ensures '.' !in sub && sub <= Hostname(host)
  {
    var hostname := Hostname(host);
    var parts := Split(hostname, '.');
    SplitCount(hostname, '.');
    if |parts| > 2 then parts[0] else ""
  }

  /** The identifier precedence: a non-empty subdomain, else a non-empty e-mail, else none. */
  function Identifier(host: string, email: string): (r: Option<string>)
    ensures r.Some? ==> r.value != ""
    ensures r.None? <==> ExtractSubdomain(host) == "" && email == ""
    ensures ExtractSubdomain(host) != "" ==> r == Some(ExtractSubdomain(host))
    ensures ExtractSubdomain(host) == "" && email != "" ==> r == Some(email)
  {
    var subdomain := ExtractSubdomain(host);
    if subdomain != "" then Some(subdomain)
    else if email != "" then Some(email)
    else None
  }

  /** A host of the form name:port, with one ':' and no brackets, has host name `name`. */
  lemma HostnameOfHostPort(host: string, name: string, port: string)
    requires host == name + [':'] + port && ':' !in name && ':' !in port
    requires '[' !in host && ']' !in host
    ensures Hostname(host) == name
  {
    assert multiset(host) == multiset(name) + multiset([':']) + multiset(port);
    var hp := SplitHostPort(host).value;
    IndexOfAfter(name, ':', port);
    IndexOfAfter(hp.0, ':', hp.1);
  }

  /** A host name `head.rest` with a dot in `rest` yields `head`. */
  lemma SubdomainOfThreeLabels(host: string, head: string, rest: string)
    requires Hostname(host) == head + ['.'] + rest && '.' !in head && '.' in rest
    ensures ExtractSubdomain(host) == head
  {
    var name := Hostname(host);
    assert multiset(name) == multiset(head) + multiset(['.']) + multiset(rest);
    IndexOfAfter(head, '.', rest);
  }

  /** A host name with at most one dot yields nothing. */
  lemma NoSubdomainOfTwoLabels(host: string, first: string, second: string)
    requires Hostname(host) == first + ['.'] + second && '.' !in first && '.' !in second
    ensures ExtractSubdomain(host) == ""
  {
    assert multiset(Hostname(host)) == multiset(first) + multiset(['.']) + multiset(second);
  }

  /** A dotted-quad host with a port, such as the documented 127.0.0.1:8080, yields its first octet. */
  lemma DottedQuadWithPort(a: string, b: string, c: string, d: string, port: string)
    requires '.' !in a && '.' !in b && '.' !in c && '.' !in d
    requires forall s :: s in [a, b, c, d, port] ==> ':' !in s && '[' !in s && ']' !in s
    ensures ExtractSubdomain(a + "." + b + "." + c + "." + d + ":" + port) == a
  {
    var name := a + "." + b + "." + c + "." + d;
    var host := name + ":" + port;
    assert host == name + [':'] + port;
    assert name == a + ['.'] + (b + "." + c + "." + d);
    assert (b + "." + c + "." + d)[|b|] == '.';
    HostnameOfHostPort(host, name, port);
    SubdomainOfThreeLabels(host, a, b + "." + c + "." + d);
  }

  /** A host name of two labels, with or without a port, yields nothing. */
  lemma TwoLabelsWithPort(a: string, b: string, port: string)
    requires '.' !in a && '.' !in b
    requires forall s :: s in [a, b, port] ==> ':' !in s && '[' !in s && ']' !in s
    ensures ExtractSubdomain(a + "." + b + ":" + port) == ""
  {
    var name := a + "." + b;
    var host := name + ":" + port;
    assert host == name + [':'] + port;
    HostnameOfHostPort(host, name, port);
    NoSubdomainOfTwoLabels(host, a, b);
  }

  /** The request context: the values handlers and middleware set, by key. */
  class RequestContext {
    var keys: map<string, string>

    constructor ()
      ensures keys == map[]
    {
      keys := map[];
    }

    /** extractIdentifierMiddleware: set "identifier" when there is one; nothing else changes. */
    method ExtractIdentifierMiddleware(host: string, email: string)
      modifies this
      ensures Identifier(host, email).Some? ==> keys == old(keys)["identifier" := Identifier(host, email).value]
      ensures Identifier(host, email).None? ==> keys == old(keys)
    {
      var subdomain := ExtractSubdomain(host);
      if subdomain != "" {
        keys := keys["identifier" := subdomain];
      } else if email != "" {
        keys := keys["identifier" := email];
      }
    }
  }
}
