/** Gateway endpoints: HOST, HOST:PORT, [IPv6] and [IPv6]:PORT (driver.py, _gateway_endpoint and
    _connect_gateway). */
module Endpoints {

  import opened Wrappers
  import opened Errors
  import opened Commands
  import opened Numbers

  const DEFAULT_PORT: nat := 8765

  datatype Endpoint = Endpoint(host: string, port: nat)

  /** A host is not empty and holds no space; one that strip() would shorten holds a space. */
  predicate ValidHost(host: string) {
    host != [] && forall i :: 0 <= i < |host| ==> !IsSpace(host[i])
  }

  /** The first place of c, or the length. */
  function Find(s: string, c: char): (i: nat)
    ensures i <= |s|
    ensures i < |s| ==> s[i] == c
    ensures c !in s[..i]
  {
    if s == [] || s[0] == c then 0
    else
      var i := Find(s[1..], c);
      assert s[..i + 1] == [s[0]] + s[1..][..i];
      i + 1
  }

  function FinishParse(host: string, port: Option<string>): Result<Endpoint, Error> {
    if !ValidHost(host) then Failure(ValidationError("gateway identifier must contain a valid host"))
    else
      match port
      case None => Success(Endpoint(host, DEFAULT_PORT))
      case Some(raw) =>
        if raw == [] || !AllDigits(raw) || !(1 <= NatOf(raw) <= 65535)
        then Failure(ValidationError("gateway port must be an integer from 1 through 65535"))
        else Success(Endpoint(host, NatOf(raw)))
  }

  function ParseEndpoint(identifier: string): Result<Endpoint, Error> {
    if identifier != [] && identifier[0] == '[' then
      var closing := Find(identifier, ']');
      if closing == |identifier| then Failure(ValidationError("gateway IPv6 identifier is missing closing ']'"))
      else
        var host, suffix := identifier[1..closing], identifier[closing + 1..];
        if suffix == [] then FinishParse(host, None)
        else if suffix[0] != ':' then
          Failure(ValidationError("gateway identifier must be HOST, HOST:PORT, [IPv6], or [IPv6]:PORT"))
        else FinishParse(host, Some(suffix[1..]))
    else
      var colon := Find(identifier, ':');
      if colon == |identifier| then FinishParse(identifier, None)
      else if ':' in identifier[colon + 1..] then
        Failure(ValidationError("gateway IPv6 identifiers must use '[IPv6]' or '[IPv6]:PORT'"))
      else FinishParse(identifier[..colon], Some(identifier[colon + 1..]))
  }

  function PrintEndpoint(endpoint: Endpoint): string {
    if ':' in endpoint.host then "[" + endpoint.host + "]:" + Digits(endpoint.port)
    else endpoint.host + ":" + Digits(endpoint.port)
  }

  lemma FindIs(s: string, c: char, i: nat)
    requires i < |s| && s[i] == c && c !in s[..i]
    ensures Find(s, c) == i
  {
    var j := Find(s, c);
    assert forall k :: 0 <= k < i ==> s[k] in s[..i];
    assert forall k :: 0 <= k < j ==> s[k] in s[..j];
  }

  lemma FoundByThen(s: string, c: char, i: nat)
    requires i < |s| && s[i] == c
    ensures Find(s, c) <= i
  {
    var j := Find(s, c);
    assert forall k :: 0 <= k < j ==> s[k] in s[..j];
  }

  lemma FindsNothing(s: string, c: char)
    requires c !in s
    ensures Find(s, c) == |s|
  {
  }

  /** The hosts the parser can return: without brackets there is no colon and no leading '[', with
      brackets there is no ']'. */
  predicate Nameable(host: string) {
    && ValidHost(host)
    && (']' !in host || (':' !in host && host[0] != '['))
  }

  predicate NamesHost(identifier: string, host: string) {
    ParseEndpoint(identifier).Success? && ParseEndpoint(identifier).value.host == host
  }

  lemma BareHost(host: string)
    requires ValidHost(host) && ':' !in host && host[0] != '['
    ensures NamesHost(host, host)
  {
    FindsNothing(host, ':');
  }

  lemma InBrackets(host: string, suffix: string)
    requires ']' !in host
    ensures var identifier := "[" + host + "]" + suffix;
      && identifier[0] == '[' && Find(identifier, ']') == |host| + 1 < |identifier|
      && identifier[1..|host| + 1] == host && identifier[|host| + 2..] == suffix
  {
    var identifier := "[" + host + "]" + suffix;
    assert identifier[..|host| + 1] == "[" + host;
    FindIs(identifier, ']', |host| + 1);
  }

  lemma ParsedHostIsNameable(identifier: string)
    ensures ParseEndpoint(identifier).Success? ==>
      var endpoint := ParseEndpoint(identifier).value;
      Nameable(endpoint.host) && 1 <= endpoint.port <= 65535
  {
    if ParseEndpoint(identifier).Success? {
      if identifier[0] == '[' {
        var closing := Find(identifier, ']');
        NothingInside(identifier, 1, closing, ']');
      } else {
        var colon := Find(identifier, ':');
        NothingInside(identifier, 0, colon, ':');
        assert identifier[0..colon] == identifier[..colon];
        assert identifier[..|identifier|] == identifier;
      }
    }
  }

  lemma NothingInside(s: string, low: nat, high: nat, c: char)
    requires low <= high <= |s| && c !in s[..high]
    ensures c !in s[low..high]
  {
    assert s[..high][low..] == s[low..high];
  }

  /** Exactly the nameable hosts come out of the parser. */
  lemma NameableHosts(host: string)
    ensures Nameable(host) <==> exists identifier :: NamesHost(identifier, host)
  {
    if identifier :| NamesHost(identifier, host) {
      ParsedHostIsNameable(identifier);
    }
    if Nameable(host) {
      if ']' in host {
        BareHost(host);
      } else {
        var identifier := "[" + host + "]" + "";
        InBrackets(host, "");
        assert NamesHost(identifier, host);
      }
    }
  }

  /** A host alone, bare or in brackets, is given port 8765, and is refused exactly when it is empty or holds a
      space. */
  lemma DefaultPort(host: string)
    ensures ':' !in host && (host != [] ==> host[0] != '[') ==>
      if host == [] || exists i :: 0 <= i < |host| && IsSpace(host[i]) then ParseEndpoint(host).Failure?
      else ParseEndpoint(host) == Success(Endpoint(host, 8765))
    ensures ']' !in host ==>
      if host == [] || exists i :: 0 <= i < |host| && IsSpace(host[i]) then ParseEndpoint("[" + host + "]").Failure?
      else ParseEndpoint("[" + host + "]") == Success(Endpoint(host, 8765))
  {
    if ':' !in host {
      FindsNothing(host, ':');
    }
    if ']' !in host {
      InBrackets(host, "");
      assert "[" + host + "]" + "" == "[" + host + "]";
    }
  }

  /** What stands behind the colon is the port, of a bare host and of one in brackets: digits, for a number from
      1 to 65535. */
  lemma GivenPort(host: string, raw: string, port: nat)
    requires ValidHost(host)
    ensures ':' !in host && host[0] != '[' && ':' !in raw ==>
      (ParseEndpoint(host + ":" + raw) == Success(Endpoint(host, port)) <==> IsPort(raw, port))
    ensures ']' !in host ==>
      (ParseEndpoint("[" + host + "]:" + raw) == Success(Endpoint(host, port)) <==> IsPort(raw, port))
  {
    PortIsRead(host, raw, port);
    if ':' !in host && host[0] != '[' && ':' !in raw {
      BarePort(host, raw);
    }
    if ']' !in host {
      BracketedPort(host, raw);
    }
  }

  lemma PortIsRead(host: string, raw: string, port: nat)
    requires ValidHost(host)
    ensures FinishParse(host, Some(raw)) == Success(Endpoint(host, port)) <==> IsPort(raw, port)
  {
  }

  lemma BarePort(host: string, raw: string)
    requires ValidHost(host) && ':' !in host && host[0] != '[' && ':' !in raw
    ensures ParseEndpoint(host + ":" + raw) == FinishParse(host, Some(raw))
  {
    var identifier := host + ":" + raw;
    assert identifier[..|host|] == host && identifier[|host| + 1..] == raw;
    FindIs(identifier, ':', |host|);
  }

  lemma BracketedPort(host: string, raw: string)
    requires ']' !in host
    ensures ParseEndpoint("[" + host + "]:" + raw) == FinishParse(host, Some(raw))
  {
    InBrackets(host, ":" + raw);
    assert "[" + host + "]:" + raw == "[" + host + "]" + (":" + raw);
    assert (":" + raw)[1..] == raw;
  }

  predicate IsPort(raw: string, port: nat) {
    1 <= port <= 65535 && raw != [] && (forall i :: 0 <= i < |raw| ==> '0' <= raw[i] <= '9') && NatOf(raw) == port
  }

  /** More than one colon takes brackets. */
  lemma ColonsTakeBrackets(identifier: string, i: nat, j: nat)
    requires i < j < |identifier| && identifier[i] == ':' && identifier[j] == ':' && identifier[0] != '['
    ensures ParseEndpoint(identifier).Failure?
  {
    var colon := Find(identifier, ':');
    FoundByThen(identifier, ':', i);
    assert identifier[colon + 1..][j - colon - 1] == ':';
  }

  lemma PortReadsBack(host: string, port: nat)
    requires ValidHost(host) && 1 <= port <= 65535
    ensures FinishParse(host, Some(Digits(port))) == Success(Endpoint(host, port))
  {
    DigitsRoundTrip(port);
  }

  lemma DigitsHaveNo(n: nat, c: char)
    requires !IsDigit(c)
    ensures c !in Digits(n)
  {
  }

  lemma PrintedWithBrackets(host: string, port: nat)
    requires Nameable(host) && ':' in host && 1 <= port <= 65535
    ensures ParseEndpoint(PrintEndpoint(Endpoint(host, port))) == Success(Endpoint(host, port))
  {
    BracketedPort(host, Digits(port));
    PortReadsBack(host, port);
  }

  lemma PrintedPlain(host: string, port: nat)
    requires Nameable(host) && ':' !in host && host[0] != '[' && 1 <= port <= 65535
    ensures ParseEndpoint(PrintEndpoint(Endpoint(host, port))) == Success(Endpoint(host, port))
  {
    DigitsHaveNo(port, ':');
    BarePort(host, Digits(port));
    PortReadsBack(host, port);
  }

  lemma PrintedUnclosed(host: string, port: nat)
    requires ValidHost(host) && ']' !in host && ':' !in host && host[0] == '['
    ensures ParseEndpoint(PrintEndpoint(Endpoint(host, port))).Failure?
  {
    var identifier := host + ":" + Digits(port);
    DigitsHaveNo(port, ']');
    FindsNothing(identifier, ']');
  }

  /** For every host the parser can return and every port, printing the endpoint and parsing it again
      gives it back, unless the host begins with '[' and has no colon: that one is printed without its
      brackets and reads as an unclosed bracket. */
  lemma EndpointRoundTrip(host: string, port: nat)
    requires Nameable(host) && 1 <= port <= 65535
    ensures ParseEndpoint(PrintEndpoint(Endpoint(host, port))) == Success(Endpoint(host, port))
      <==> (host[0] == '[' ==> ':' in host)
  {
    if ':' in host {
      PrintedWithBrackets(host, port);
    } else if host[0] != '[' {
      PrintedPlain(host, port);
    } else {
      PrintedUnclosed(host, port);
    }
  }

  /** The smallest such host: "[[]" names it, its endpoint prints as "[:8765", and that does not parse. */
  lemma UnclosedHostExists()
    ensures NamesHost("[[]", "[") && ParseEndpoint(PrintEndpoint(Endpoint("[", DEFAULT_PORT))).Failure?
  {
    InBrackets("[", "");
    assert "[" + "[" + "]" + "" == "[[]";
    PrintedUnclosed("[", DEFAULT_PORT);
  }
}
