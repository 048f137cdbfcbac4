/** The rewrite of a webhook's service reference into a URL, and the proof that the
    URL still names the same endpoint. Reading a URL back follows RFC 3986: sections 2.1
    (percent-encoding), 3.2 (authority, with a host that ignores case) and 3.3 (path). */
module ServiceUrl {
  import opened Prelude
  import opened Decimals

  datatype ServiceRef = ServiceRef(name: string, namespace: string, port: Option<int>, path: Option<string>)

  /** The clientConfig of an admission or conversion webhook. */
  datatype ClientConfig = ClientConfig(url: Option<string>, service: Option<ServiceRef>, caBundle: seq<bv8>)

  /** Where a webhook call goes, once defaults are filled in. */
  datatype Endpoint = Endpoint(name: string, namespace: string, port: int, path: string)

  // ----- printing ------------------------------------------------------------

  function ServicePort(port: Option<int>): int {
    if port.None? then 443 else port.value
  }

  function ServicePath(path: Option<string>): string {
    if path.None? then "" else path.value
  }

  function Resolve(ref: ServiceRef): Endpoint {
    Endpoint(ref.name, ref.namespace, ServicePort(ref.port), ServicePath(ref.path))
  }

  const SCHEME := "https://"
  const SVC := ".svc"

  function Authority(e: Endpoint): string {
    e.name + "." + e.namespace + SVC + ":" + PrintInt(e.port)
  }

  /** fmt.Sprintf("https://%s.%s.svc:%d%s", ...) */
  function Print(ref: ServiceRef): string {
    var e := Resolve(ref);
    SCHEME + Authority(e) + e.path
  }

  /** The body of every transform: a service reference becomes a URL, a URL stays. */
  function Rewrite(config: ClientConfig): ClientConfig {
    if config.service.None? then config
    else config.(url := Some(Print(config.service.value)), service := None)
  }

  // ----- reading back --------------------------------------------------------

  /** The position of the first character of `stop`, or the length. */
  function Span(s: string, stop: set<char>): (n: nat)
    ensures n <= |s|
    ensures forall i :: 0 <= i < n ==> s[i] !in stop
    ensures n < |s| ==> s[n] in stop
  {
    if s == "" || s[0] in stop then 0 else 1 + Span(s[1..], stop)
  }

  /** unreserved and sub-delims, sections 2.2 and 2.3. */
  predicate IsLetter(c: char) { 'a' <= c <= 'z' || 'A' <= c <= 'Z' }
  predicate IsUnreserved(c: char) { IsLetter(c) || IsDigit(c) || c in {'-', '.', '_', '~'} }
  predicate IsSubDelim(c: char) { c in {'!', '$', '&', '\'', '(', ')', '*', '+', ',', ';', '='} }

  datatype Component = Host | Path

  /** What may stand for itself in a component: reg-name, section 3.2.2, or segments with
      their slashes, section 3.3. */
  predicate Allowed(c: char, part: Component) {
    IsUnreserved(c) || IsSubDelim(c) || (part.Path? && c in {':', '@', '/'})
  }

  /** Hosts ignore case, section 3.2.2; they are compared in lower case. */
  function Folded(c: char, part: Component): char {
    if part.Host? && 'A' <= c <= 'Z' then c - 'A' + 'a' else c
  }

  predicate IsHex(c: char) { IsDigit(c) || 'a' <= c <= 'f' || 'A' <= c <= 'F' }

  function HexValue(c: char): (n: nat)
    requires IsHex(c)
    ensures n < 16
  {
    if IsDigit(c) then c as int - '0' as int
    else if 'a' <= c then c as int - 'a' as int + 10
    else c as int - 'A' as int + 10
  }

  /** The text a component stands for: percent-encoded octets decoded, section 2.1; None if
      a character may not stand there. */
  function Decode(s: string, part: Component): Option<string> {
    if s == "" then Some("")
    else if s[0] == '%' then
      if |s| < 3 || !IsHex(s[1]) || !IsHex(s[2]) then None
      else
        var octet := (16 * HexValue(s[1]) + HexValue(s[2])) as char;
        Prefixed(Folded(octet, part), Decode(s[3..], part))
    else if !Allowed(s[0], part) then None
    else Prefixed(Folded(s[0], part), Decode(s[1..], part))
  }

  function Prefixed(c: char, rest: Option<string>): Option<string> {
    if rest.None? then None else Some([c] + rest.value)
  }

  /** Text that stands for itself. */
  predicate Plain(s: string, part: Component) {
    forall i :: 0 <= i < |s| ==> Allowed(s[i], part) && Folded(s[i], part) == s[i]
  }

  /** The characters that end an authority, section 3.2. */
  const AUTHORITY_END: set<char> := {'/', '?', '#'}

  /** `<name>.<namespace>.svc`. */
  function SplitHost(host: string): Option<(string, string)> {
    var dot := Span(host, {'.'});
    if dot == |host| then None
    else
      var rest := host[dot + 1..];
      if |rest| < |SVC| || rest[|rest| - |SVC|..] != SVC then None
      else Some((host[..dot], rest[..|rest| - |SVC|]))
  }

  function ParseHost(host: string): Option<(string, string)> {
    match Decode(host, Host)
    case None => None
    case Some(text) => SplitHost(text)
  }

  /** `<host>:<port>` without user information and with a port. */
  function ParseAuthority(authority: string): Option<(string, string, nat)> {
    var colon := Span(authority, {':'});
    if '@' in authority || colon == |authority| || !AllDigits(authority[colon + 1..]) then None
    else match ParseHost(authority[..colon])
      case None => None
      case Some((name, namespace)) => Some((name, namespace, NatOf(authority[colon + 1..])))
  }

  /** The characters that end a path, section 3.3: a query or a fragment follows. */
  const PATH_END: set<char> := {'?', '#'}

  function ParsePath(tail: string): Option<string> {
    Decode(tail[..Span(tail, PATH_END)], Path)
  }

  /** The endpoint an https URL of a cluster service names. */
  function Parse(url: string): Option<Endpoint> {
    if |url| < |SCHEME| || url[..|SCHEME|] != SCHEME then None
    else
      var rest := url[|SCHEME|..];
      var end := Span(rest, AUTHORITY_END);
      match (ParseAuthority(rest[..end]), ParsePath(rest[end..]))
      case (Some((name, namespace, port)), Some(path)) => Some(Endpoint(name, namespace, port, path))
      case _ => None
  }

  /** What a clientConfig means: the reference, or what its URL says. */
  function Meaning(config: ClientConfig): Option<Endpoint> {
    if config.service.Some? then Some(Resolve(config.service.value))
    else if config.url.Some? then Parse(config.url.value)
    else None
  }

  predicate Lacks(s: string, cs: set<char>) {
    forall i :: 0 <= i < |s| ==> s[i] !in cs
  }

  /** The references whose URL can be read back: names and path stand for themselves, the
      name has no dot, the port is not negative, and the path is empty or starts with a slash.
      Kubernetes admits only DNS labels for names and namespaces and ports from 1 to 65535,
      which satisfy it; of paths it leaves more open. */
  predicate Printable(e: Endpoint) {
    && Plain(e.name, Host) && '.' !in e.name
    && Plain(e.namespace, Host)
    && e.port >= 0
    && (e.path == "" || e.path[0] == '/') && Plain(e.path, Path)
  }

  // ----- decoding ----------------------------------------------------------------

  lemma {:induction false} DecodePlain(s: string, part: Component)
    requires Plain(s, part)
    ensures Decode(s, part) == Some(s)
  {
    hide Allowed, Folded;
    if s != "" {
      PercentNotAllowed(part);
      DecodePlain(s[1..], part);
      assert [s[0]] + s[1..] == s;
    }
  }

  lemma PercentNotAllowed(part: Component)
    ensures !Allowed('%', part)
  {
  }

  /** Decoding never lengthens, and without percent-encoding it only folds case. */
  lemma {:induction false} DecodeShrinks(s: string, part: Component)
    requires Decode(s, part).Some?
    ensures var text := Decode(s, part).value;
            && |text| <= |s|
            && ('%' !in s ==> |text| == |s|)
            && (|text| == |s| ==>
                  forall i :: 0 <= i < |s| ==> Allowed(s[i], part) && text[i] == Folded(s[i], part))
  {
    hide Allowed, Folded, HexValue, IsHex;
    if s != "" {
      DecodeShrinks(if s[0] == '%' then s[3..] else s[1..], part);
    }
  }

  lemma FoldedPlain(s: string, text: string, part: Component)
    requires |text| == |s|
    requires forall i :: 0 <= i < |s| ==> Allowed(s[i], part) && text[i] == Folded(s[i], part)
    ensures Plain(text, part)
  {
  }

  // ----- spans -----------------------------------------------------------------

  lemma {:induction false} SpanSkips(a: string, b: string, stop: set<char>)
    requires Lacks(a, stop)
    ensures Span(a + b, stop) == |a| + Span(b, stop)
  {
    if a == "" {
      assert a + b == b;
    } else {
      assert (a + b)[1..] == a[1..] + b;
      SpanSkips(a[1..], b, stop);
    }
  }

  lemma SplitHostReads(name: string, namespace: string)
    requires Lacks(name, {'.'})
    ensures SplitHost(name + "." + namespace + SVC) == Some((name, namespace))
  {
    hide Span, Lacks;
    var host, rest := name + "." + namespace + SVC, "." + namespace + SVC;
    assert host == name + rest;
    SpanSkips(name, rest, {'.'});
    SpanStops(rest, {'.'});
    assert host[|name| + 1..] == namespace + SVC;
    assert host[..|name|] == name;
  }

  /** What a host is split into makes it up, and the name has no dot. */
  lemma SplitHostJoins(host: string)
    requires SplitHost(host).Some?
    ensures var (name, namespace) := SplitHost(host).value;
            host == name + "." + namespace + SVC && '.' !in name
  {
    var dot := Span(host, {'.'});
    var rest := host[dot + 1..];
    assert host == host[..dot] + [host[dot]] + rest;
    assert rest == rest[..|rest| - |SVC|] + rest[|rest| - |SVC|..];
  }

  lemma SpanStops(s: string, stop: set<char>)
    requires s != "" && s[0] in stop
    ensures Span(s, stop) == 0
  {
  }

  lemma LacksConcat(a: string, b: string, cs: set<char>)
    ensures Lacks(a + b, cs) <==> Lacks(a, cs) && Lacks(b, cs)
  {
    if Lacks(a + b, cs) {
      assert forall i :: 0 <= i < |a| ==> (a + b)[i] == a[i];
      assert forall i :: 0 <= i < |b| ==> (a + b)[|a| + i] == b[i];
    }
  }

  function HostOf(e: Endpoint): string {
    e.name + "." + e.namespace + SVC
  }

  lemma HostPlain(e: Endpoint)
    ensures Plain(HostOf(e), Host) <==> Plain(e.name, Host) && Plain(e.namespace, Host)
  {
    hide Allowed, Folded;
    var host, after := HostOf(e), |e.name| + 1;
    SvcPlain();
    assert forall i :: 0 <= i < |e.name| ==> host[i] == e.name[i];
    assert forall i :: 0 <= i < |e.namespace| ==> host[after + i] == e.namespace[i];
    assert host[|e.name|] == '.';
    assert forall i :: 0 <= i < |SVC| ==> host[after + |e.namespace| + i] == SVC[i];
    if Plain(e.name, Host) && Plain(e.namespace, Host) {
      forall i | 0 <= i < |host| ensures Allowed(host[i], Host) && Folded(host[i], Host) == host[i] {
        if after <= i < after + |e.namespace| {
          assert host[i] == e.namespace[i - after];
        } else if i >= after + |e.namespace| {
          assert host[i] == SVC[i - after - |e.namespace|];
        }
      }
    } else if Plain(host, Host) {
      forall i | 0 <= i < |e.namespace|
        ensures Allowed(e.namespace[i], Host) && Folded(e.namespace[i], Host) == e.namespace[i]
      {
        assert host[after + i] == e.namespace[i];
      }
    }
  }

  lemma SvcPlain()
    ensures Plain(SVC, Host) && Allowed('.', Host) && Folded('.', Host) == '.'
  {
  }

  lemma PlainLacks(s: string)
    requires Plain(s, Host)
    ensures Lacks(s, AUTHORITY_END + {':', '@'})
  {
  }

  lemma AuthorityLacks(e: Endpoint)
    requires Printable(e)
    ensures Lacks(HostOf(e), {':'})
    ensures Lacks(Authority(e), AUTHORITY_END + {'@'})
  {
    hide Plain, PrintNat;
    var host, port := HostOf(e), PrintNat(e.port);
    var stop := AUTHORITY_END + {'@'};
    PrintNatReads(e.port);
    HostPlain(e);
    PlainLacks(host);
    assert Authority(e) == host + (":" + port);
    assert Lacks(":" + port, stop);
    LacksConcat(host, ":" + port, stop);
  }

  lemma AuthorityReads(e: Endpoint)
    requires Printable(e)
    ensures ParseAuthority(Authority(e)) == Some((e.name, e.namespace, e.port))
  {
    hide Plain, SplitHost, Decode, PrintNat, Span;
    var host, port := HostOf(e), PrintNat(e.port);
    PrintNatReads(e.port);
    AuthorityLacks(e);
    assert Authority(e) == host + (":" + port);
    SpanSkips(host, ":" + port, {':'});
    SpanStops(":" + port, {':'});
    assert Authority(e)[..|host|] == host;
    assert Authority(e)[|host| + 1..] == port;
    HostPlain(e);
    DecodePlain(host, Host);
    SplitHostReads(e.name, e.namespace);
  }

  // ----- the theorems ------------------------------------------------------------

  lemma TailReads(path: string, extra: string)
    requires Plain(path, Path) && (path == "" || path[0] == '/') && (extra == "" || extra[0] in PATH_END)
    ensures ParsePath(path + extra) == Some(path)
    ensures Span(path + extra, AUTHORITY_END) == 0
  {
    hide Plain, Decode, Span, Lacks;
    PlainPathLacks(path);
    SpanSkips(path, extra, PATH_END);
    SpanAtEnd(extra, PATH_END);
    SpanAtEnd(path + extra, AUTHORITY_END);
    assert (path + extra)[..|path|] == path;
    DecodePlain(path, Path);
  }

  lemma AuthorityEnds(e: Endpoint, tail: string)
    requires Printable(e) && Span(tail, AUTHORITY_END) == 0
    ensures Span(Authority(e) + tail, AUTHORITY_END) == |Authority(e)|
  {
    hide Plain, Span, Authority;
    AuthorityLacks(e);
    SpanSkips(Authority(e), tail, AUTHORITY_END);
  }

  /** The URL of a printable endpoint, with or without a query or a fragment after it,
      names that endpoint. */
  lemma PrintedReads(e: Endpoint, extra: string)
    requires Printable(e) && (extra == "" || extra[0] in PATH_END)
    ensures Parse(SCHEME + Authority(e) + e.path + extra) == Some(e)
  {
    hide ParseAuthority, ParsePath, Plain, Span, Authority;
    var url, tail := SCHEME + Authority(e) + e.path + extra, e.path + extra;
    var rest := Authority(e) + tail;
    assert url == SCHEME + rest;
    assert url[..|SCHEME|] == SCHEME && url[|SCHEME|..] == rest;
    AuthorityReads(e);
    TailReads(e.path, extra);
    AuthorityEnds(e, tail);
    assert rest[..|Authority(e)|] == Authority(e) && rest[|Authority(e)|..] == tail;
  }

  lemma SpanAtEnd(s: string, stop: set<char>)
    requires s == "" || s[0] in stop
    ensures Span(s, stop) == 0
  {
  }

  lemma PlainPathLacks(s: string)
    requires Plain(s, Path)
    ensures Lacks(s, PATH_END)
  {
  }

  /** Reading a printed URL gives the endpoint back, exactly when the reference is printable. */
  lemma PrintReads(ref: ServiceRef)
    ensures Parse(Print(ref)) == Some(Resolve(ref)) <==> Printable(Resolve(ref))
  {
    hide Parse, Printable, Authority;
    var e := Resolve(ref);
    if Printable(e) {
      PrintedReads(e, "");
      assert Print(ref) + "" == Print(ref);
    } else if Parse(Print(ref)) == Some(e) {
      ReadIsPrintable(ref);
    }
  }

  /** The parts that Parse found: reading never lengthens them. */
  lemma ReadIsPrintable(ref: ServiceRef)
    requires Parse(Print(ref)) == Some(Resolve(ref))
    ensures Printable(Resolve(ref))
  {
    hide Decode, SplitHost, Span, NatOf, PrintNat, Plain, Allowed, Folded;
    var e := Resolve(ref);
    var host, rest := HostOf(e), Authority(e) + e.path;
    assert Print(ref) == SCHEME + rest && Print(ref)[|SCHEME|..] == rest;
    var end := Span(rest, AUTHORITY_END);
    var authority, tail := rest[..end], rest[end..];
    var colon := Span(authority, {':'});
    var rawHost, rawPort, rawPath := authority[..colon], authority[colon + 1..], tail[..Span(tail, PATH_END)];
    DecodeShrinks(rawHost, Host);
    DecodeShrinks(rawPath, Path);
    SplitHostJoins(Decode(rawHost, Host).value);
    PrintNatMinimal(rawPort);
    assert |rest| == |host| + 1 + |PrintInt(e.port)| + |e.path|;
    assert |rest| == |rawHost| + 1 + |rawPort| + |tail|;
    assert rawHost == rest[..|host|] == host;
    assert rawPath == tail == rest[|Authority(e)|..] == e.path;
    FoldedPlain(rawHost, host, Host);
    FoldedPlain(rawPath, e.path, Path);
    HostPlain(e);
    if e.path != "" { PathStart(e.path, rest, end); }
  }

  lemma PathStart(path: string, rest: string, end: nat)
    requires path != "" && Plain(path, Path)
    requires end == Span(rest, AUTHORITY_END) && rest[end..] == path
    ensures path[0] == '/'
  {
    assert rest[end] == path[0];
  }

  /** Every URL without percent-encoding that can be read names a printable endpoint. */
  lemma ParsedIsPrintable(url: string)
    ensures Parse(url).Some? && '%' !in url ==> Printable(Parse(url).value)
  {
    hide Decode, SplitHost, Span, NatOf, Plain, Allowed, Folded;
    if Parse(url).Some? && '%' !in url {
      var e := Parse(url).value;
      var rest := url[|SCHEME|..];
      var end := Span(rest, AUTHORITY_END);
      var authority, tail := rest[..end], rest[end..];
      var rawHost, rawPath := authority[..Span(authority, {':'})], tail[..Span(tail, PATH_END)];
      assert forall i :: 0 <= i < |rawHost| ==> rawHost[i] == url[|SCHEME| + i];
      assert forall i :: 0 <= i < |rawPath| ==> rawPath[i] == url[|SCHEME| + end + i];
      DecodeShrinks(rawHost, Host);
      DecodeShrinks(rawPath, Path);
      FoldedPlain(rawHost, Decode(rawHost, Host).value, Host);
      FoldedPlain(rawPath, e.path, Path);
      SplitHostJoins(Decode(rawHost, Host).value);
      HostPlain(e);
      if e.path != "" { FirstOfPath(rest, end, rawPath, e.path); }
    }
  }

  lemma FirstOfPath(rest: string, end: nat, raw: string, path: string)
    requires end == Span(rest, AUTHORITY_END) && raw == rest[end..][..Span(rest[end..], PATH_END)]
    requires raw != "" && '%' !in raw && Decode(raw, Path) == Some(path)
    ensures path[0] == '/'
  {
    assert raw[0] == rest[end];
  }

  /** Two printable references print alike exactly when they resolve alike. */
  lemma PrintInjective(a: ServiceRef, b: ServiceRef)
    requires Printable(Resolve(a)) && Printable(Resolve(b))
    ensures Print(a) == Print(b) <==> Resolve(a) == Resolve(b)
  {
    PrintReads(a);
    PrintReads(b);
  }

  /** Outside that set two different services can share one URL. */
  lemma UnprintableCollide()
    ensures var a, b := ServiceRef("a.b", "c", None, None), ServiceRef("a", "b.c", None, None);
            Resolve(a) != Resolve(b) && Print(a) == Print(b)
  {
    var a, b := ServiceRef("a.b", "c", None, None), ServiceRef("a", "b.c", None, None);
    assert Authority(Resolve(a)) == "a.b.c" + SVC + ":" + PrintInt(443);
    assert Authority(Resolve(b)) == "a.b.c" + SVC + ":" + PrintInt(443);
    assert Resolve(a).name != Resolve(b).name;
  }

  /** A query or fragment in the path of a reference is lost: the URL names the endpoint
      without it. */
  lemma ExtraIsDropped(ref: ServiceRef, extra: string)
    requires Printable(Resolve(ref)) && extra != "" && extra[0] in PATH_END
    ensures var longer := ref.(path := Some(ServicePath(ref.path) + extra));
            Parse(Print(longer)) == Some(Resolve(ref)) && Resolve(longer) != Resolve(ref)
  {
    hide Parse, Printable, Authority;
    var longer := ref.(path := Some(ServicePath(ref.path) + extra));
    PrintedReads(Resolve(ref), extra);
    assert Resolve(longer) == Resolve(ref).(path := Resolve(ref).path + extra);
    SameAuthority(Resolve(longer), Resolve(ref));
    assert Print(longer) == SCHEME + Authority(Resolve(ref)) + Resolve(ref).path + extra;
    assert |Resolve(longer).path| > |Resolve(ref).path|;
  }

  lemma SameAuthority(a: Endpoint, b: Endpoint)
    requires a == b.(path := a.path)
    ensures Authority(a) == Authority(b)
  {
  }

  /** The defaults: port 443 and no path. */
  lemma ResolveDefaults(ref: ServiceRef)
    ensures var e := Resolve(ref);
            && e.name == ref.name && e.namespace == ref.namespace
            && e.port == (if ref.port.None? then 443 else ref.port.value)
            && e.path == (if ref.path.None? then "" else ref.path.value)
  {
  }

  /** The URL of a reference, spelled out. */
  lemma PrintSpelled(ref: ServiceRef)
    ensures Print(ref) == "https://" + ref.name + "." + ref.namespace + ".svc:"
                          + PrintInt(if ref.port.None? then 443 else ref.port.value)
                          + (if ref.path.None? then "" else ref.path.value)
  {
    hide PrintInt;
    var port := PrintInt(Resolve(ref).port);
    assert ".svc:" == ".svc" + ":";
    assert Authority(Resolve(ref)) == ref.name + "." + ref.namespace + ".svc:" + port;
  }

  /** What the rewrite touches: a service is replaced by its URL; the CA bundle stays, and a
      configuration without a service stays whole. */
  predicate OnlyAddressed(before: ClientConfig, after: ClientConfig) {
    && after.caBundle == before.caBundle
    && after.service.None?
    && after.url == (if before.service.Some? then Some(Print(before.service.value)) else before.url)
  }

  /** The rewrite replaces a service by its URL and nothing else, and keeps the meaning of a
      clientConfig exactly when its reference is printable. */
  lemma RewriteKeepsMeaning(config: ClientConfig)
    ensures Meaning(Rewrite(config)) == Meaning(config)
            <==> (config.service.Some? ==> Printable(Resolve(config.service.value)))
    ensures OnlyAddressed(config, Rewrite(config))
  {
    if config.service.Some? {
      PrintReads(config.service.value);
    }
  }
}
