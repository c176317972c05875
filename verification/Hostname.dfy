/** `hostname_of` (`src-tauri/src/headless_security.rs`): a Host header or Origin value reduced to its bare
  * lower-case host, against a printer of authorities (section 3.2 of RFC 3986). */
module Hostname {
  import opened Optional
  import opened Scan

  /** Unicode White_Space, which `trim` removes. */
  predicate White(c: char) {
    var n := c as int;
    0x09 <= n <= 0x0D || n == 0x20 || n == 0x85 || n == 0xA0 || n == 0x1680 || 0x2000 <= n <= 0x200A ||
    n == 0x2028 || n == 0x2029 || n == 0x202F || n == 0x205F || n == 0x3000
  }

  function TrimStart(s: string): string {
    if s != [] && White(s[0]) then TrimStart(s[1..]) else s
  }

  function TrimEnd(s: string): string {
    if s != [] && White(s[|s| - 1]) then TrimEnd(s[..|s| - 1]) else s
  }

  function Trim(s: string): string { TrimEnd(TrimStart(s)) }

  function TrimDots(s: string): string {
    if s != [] && s[|s| - 1] == '.' then TrimDots(s[..|s| - 1]) else s
  }

  function LowerChar(c: char): char {
    if 'A' <= c <= 'Z' then (c as int + 32) as char else c
  }

  function Lower(s: string): (r: string)
    ensures |r| == |s|
  {
    seq(|s|, i requires 0 <= i < |s| => LowerChar(s[i]))
  }

  const MARK := "://"

  /** Position of the first "://", or the length. */
  function FindMark(s: string): (i: nat)
    ensures i <= |s| && (i < |s| ==> i + 3 <= |s| && s[i..i + 3] == MARK)
  {
    if s == [] then 0
    else if |s| >= 3 && s[..3] == MARK then 0
    else 1 + FindMark(s[1..])
  }

  predicate Delimiter(c: char) { c == '/' || c == '?' || c == '#' }

  /** Everything before the first / ? or #. */
  function BeforePath(s: string): string {
    if s == [] || Delimiter(s[0]) then [] else [s[0]] + BeforePath(s[1..])
  }

  function AfterScheme(v: string): string {
    var i := FindMark(v);
    if i < |v| then v[i + 3..] else v
  }

  function AfterUserinfo(v: string): string { v[LastIndexOf(v, '@') + 1..] }

  /** Without brackets: drop a port (an only colon and what follows), then root dots. */
  function UnbracketedHost(v: string): string {
    var i := LastIndexOf(v, ':');
    Lower(TrimDots(if i >= 0 && ':' !in v[..i] then v[..i] else v))
  }

  function HostOnly(v: string): string {
    if v != [] && v[0] == '[' && IndexOf(v[1..], ']') < |v| - 1 then Lower(v[1..][..IndexOf(v[1..], ']')])
    else UnbracketedHost(v)
  }

  function HostnameOf(value: string): string {
    HostOnly(Trim(AfterUserinfo(BeforePath(AfterScheme(Trim(value))))))
  }

  // ---------------------------------------------------------------------
  // The printer
  // ---------------------------------------------------------------------

  /** A registered name or IPv4 address (with any number of root dots), an IPv6 address in brackets, or a bare
    * IPv6 address, which admits no port. */
  datatype Host = RegName(name: string, dots: nat) | Bracketed(addr: string) | BareV6(addr: string)

  datatype Authority = Authority(
    scheme: Option<string>, userinfo: Option<string>, host: Host, port: Option<string>, tail: string)

  function Dots(n: nat): string { if n == 0 then [] else Dots(n - 1) + ['.'] }

  function HostText(h: Host): string {
    match h
    case RegName(name, dots) => name + Dots(dots)
    case Bracketed(addr) => ['['] + addr + [']']
    case BareV6(addr) => addr
  }

  function HostPort(a: Authority): string {
    HostText(a.host) + if a.port.Some? then [':'] + a.port.value else []
  }

  function AuthorityText(a: Authority): string {
    if a.userinfo.Some? then a.userinfo.value + ['@'] + HostPort(a) else HostPort(a)
  }

  function Print(a: Authority): string {
    if a.scheme.Some? then a.scheme.value + MARK + AuthorityText(a) + a.tail else AuthorityText(a) + a.tail
  }

  function BareHost(h: Host): string { if h.RegName? then h.name else h.addr }

  /** No white space, none of the delimiters that end an authority, and none of the given characters. */
  predicate Plain(s: string, without: set<char>) {
    forall i :: 0 <= i < |s| ==> !White(s[i]) && !Delimiter(s[i]) && s[i] !in without
  }

  predicate HostFits(h: Host) {
    match h
    case RegName(name, _) =>
      name != [] && name[0] != '[' && name[|name| - 1] != '.' && Plain(name, {':', '@'})
    case Bracketed(addr) => Plain(addr, {']', '@'})
    case BareV6(addr) =>
      addr != [] && addr[0] != '[' && addr[|addr| - 1] != '.' && Plain(addr, {'@'}) &&
      IndexOf(addr, ':') < LastIndexOf(addr, ':')
  }

  predicate WellFormed(a: Authority) {
    && HostFits(a.host)
    // any text without a colon serves as a scheme, even "h/?u=": the code looks for "://" before anything else
    && (a.scheme.Some? ==> ':' !in a.scheme.value && (a.scheme.value != [] ==> !White(a.scheme.value[0])))
    && (a.userinfo.Some? ==> Plain(a.userinfo.value, {}))
    && (a.port.Some? ==> !a.host.BareV6? && Plain(a.port.value, {':', '@'}))
    && (a.tail != [] ==> Delimiter(a.tail[0]) && !White(a.tail[|a.tail| - 1]))
    // so without a scheme, "://" must not turn up later and be taken for one
    && (a.scheme.None? ==> FindMark(AuthorityText(a) + a.tail) == |AuthorityText(a) + a.tail|)
  }

  predicate AllWhite(s: string) { forall i :: 0 <= i < |s| ==> White(s[i]) }

  // ---------------------------------------------------------------------
  // Each stage undoes one piece of the printer
  // ---------------------------------------------------------------------

  lemma {:induction false} TrimStartDrops(pad: string, body: string)
    requires AllWhite(pad) && body != [] && !White(body[0])
    ensures TrimStart(pad + body) == body
  {
    if pad == [] {
      assert pad + body == body;
    } else {
      assert (pad + body)[1..] == pad[1..] + body;
      TrimStartDrops(pad[1..], body);
    }
  }

  lemma {:induction false} TrimEndDrops(body: string, pad: string)
    requires AllWhite(pad) && body != [] && !White(body[|body| - 1])
    ensures TrimEnd(body + pad) == body
  {
    if pad == [] {
      assert body + pad == body;
    } else {
      assert (body + pad)[..|body + pad| - 1] == body + pad[..|pad| - 1];
      TrimEndDrops(body, pad[..|pad| - 1]);
    }
  }

  lemma TrimDrops(before: string, body: string, after: string)
    requires AllWhite(before) && AllWhite(after) && body != [] && !White(body[0]) && !White(body[|body| - 1])
    ensures Trim(before + body + after) == body
  {
    assert before + body + after == before + (body + after);
    TrimStartDrops(before, body + after);
    TrimEndDrops(body, after);
  }

  lemma {:induction false} MarkAfter(scheme: string, rest: string)
    requires ':' !in scheme
    ensures FindMark(scheme + MARK + rest) == |scheme|
  {
    var s := scheme + MARK + rest;
    if scheme == [] {
      assert s[..3] == MARK;
    } else {
      assert s[..3] != MARK by {
        assert s[..3][0] == scheme[0];
      }
      assert s[1..] == scheme[1..] + MARK + rest;
      MarkAfter(scheme[1..], rest);
    }
  }

  lemma {:induction false} PathCutOff(auth: string, tail: string)
    requires forall i :: 0 <= i < |auth| ==> !Delimiter(auth[i])
    requires tail != [] ==> Delimiter(tail[0])
    ensures BeforePath(auth + tail) == auth
  {
    if auth == [] {
      assert auth + tail == tail;
    } else {
      assert (auth + tail)[1..] == auth[1..] + tail;
      PathCutOff(auth[1..], tail);
    }
  }

  lemma UserinfoCutOff(userinfo: Option<string>, rest: string)
    requires '@' !in rest
    ensures AfterUserinfo(if userinfo.Some? then userinfo.value + ['@'] + rest else rest) == rest
  {
    if userinfo.Some? {
      LastIndexOfJoined(userinfo.value, '@', rest);
    }
  }

  lemma {:induction false} DotsTrimmed(name: string, n: nat)
    requires name != [] && name[|name| - 1] != '.'
    ensures TrimDots(name + Dots(n)) == name
  {
    if n == 0 {
      assert name + Dots(0) == name;
    } else {
      assert (name + Dots(n))[..|name + Dots(n)| - 1] == name + Dots(n - 1);
      DotsTrimmed(name, n - 1);
    }
  }

  lemma {:induction false} DotsAreDots(n: nat)
    ensures forall i :: 0 <= i < |Dots(n)| ==> Dots(n)[i] == '.'
  {
    if n > 0 {
      DotsAreDots(n - 1);
    }
  }

  lemma HostPortPlain(a: Authority)
    requires WellFormed(a)
    ensures HostPort(a) != [] && Plain(HostPort(a), {'@'})
  {
    if a.host.RegName? {
      DotsAreDots(a.host.dots);
    }
  }

  lemma BracketedRecovered(addr: string, rest: string)
    requires ']' !in addr
    ensures HostOnly(['['] + addr + [']'] + rest) == Lower(addr)
  {
    var v := ['['] + addr + [']'] + rest;
    assert v[1..] == addr + [']'] + rest;
    IndexOfJoined(addr, ']', rest);
    assert v[1..][..|addr|] == addr;
  }

  /** A host without colons loses its root dots, and a port if there is one. */
  lemma PortCutOff(host: string, port: Option<string>)
    requires ':' !in host && (port.Some? ==> ':' !in port.value)
    ensures UnbracketedHost(host + if port.Some? then [':'] + port.value else []) == Lower(TrimDots(host))
  {
    if port.Some? {
      var v := host + [':'] + port.value;
      assert host + ([':'] + port.value) == v;
      LastIndexOfJoined(host, ':', port.value);
      assert v[..|host|] == host;
    } else {
      assert host + [] == host;
    }
  }

  lemma RegNameRecovered(name: string, dots: nat, port: Option<string>)
    requires HostFits(RegName(name, dots)) && (port.Some? ==> ':' !in port.value)
    ensures HostOnly(name + Dots(dots) + if port.Some? then [':'] + port.value else []) == Lower(name)
  {
    DotsTrimmed(name, dots);
    assert ':' !in name + Dots(dots) by {
      DotsAreDots(dots);
    }
    PortCutOff(name + Dots(dots), port);
  }

  lemma BareV6Recovered(addr: string)
    requires HostFits(BareV6(addr))
    ensures HostOnly(addr) == Lower(addr)
  {
    var i := LastIndexOf(addr, ':');
    assert addr[..i][IndexOf(addr, ':')] == ':';
    assert TrimDots(addr) == addr;
  }

  lemma HostRecovered(a: Authority)
    requires WellFormed(a)
    ensures HostOnly(HostPort(a)) == Lower(BareHost(a.host))
  {
    match a.host
    case Bracketed(addr) =>
      BracketedRecovered(addr, if a.port.Some? then [':'] + a.port.value else []);
    case RegName(name, dots) =>
      RegNameRecovered(name, dots, a.port);
    case BareV6(addr) =>
      assert HostPort(a) == addr;
      BareV6Recovered(addr);
  }

  lemma AuthorityPlain(a: Authority)
    requires WellFormed(a)
    ensures AuthorityText(a) != [] && Plain(AuthorityText(a), {})
  {
    HostPortPlain(a);
  }

  lemma PrintHasPlainEnds(a: Authority)
    requires WellFormed(a)
    ensures var text := Print(a); text != [] && !White(text[0]) && !White(text[|text| - 1])
  {
    AuthorityPlain(a);
  }

  lemma SchemeCutOff(a: Authority)
    requires WellFormed(a)
    ensures AfterScheme(Print(a)) == AuthorityText(a) + a.tail
  {
    if a.scheme.Some? {
      var rest := AuthorityText(a) + a.tail;
      assert Print(a) == a.scheme.value + MARK + rest;
      MarkAfter(a.scheme.value, rest);
    }
  }

  lemma PaddingCutOff(before: string, a: Authority, after: string)
    requires WellFormed(a) && AllWhite(before) && AllWhite(after)
    ensures Trim(before + Print(a) + after) == Print(a)
  {
    PrintHasPlainEnds(a);
    TrimDrops(before, Print(a), after);
  }

  lemma AuthorityCutDown(a: Authority)
    requires WellFormed(a)
    ensures BeforePath(AuthorityText(a) + a.tail) == AuthorityText(a)
    ensures AfterUserinfo(AuthorityText(a)) == HostPort(a)
  {
    AuthorityPlain(a);
    PathCutOff(AuthorityText(a), a.tail);
    HostPortPlain(a);
    UserinfoCutOff(a.userinfo, HostPort(a));
  }

  lemma HostPortUntrimmed(a: Authority)
    requires WellFormed(a)
    ensures Trim(HostPort(a)) == HostPort(a)
  {
    HostPortPlain(a);
    assert [] + HostPort(a) + [] == HostPort(a);
    TrimDrops([], HostPort(a), []);
  }

  /** The stages of `hostname_of` one after the other. */
  lemma Stages(value: string, text: string, rest: string, auth: string, hostPort: string)
    requires Trim(value) == text && AfterScheme(text) == rest && BeforePath(rest) == auth
    requires AfterUserinfo(auth) == hostPort && Trim(hostPort) == hostPort
    ensures HostnameOf(value) == HostOnly(hostPort)
  {}

  /** r is s with A to Z, and nothing else, turned into a to z. */
  predicate InLowerCase(r: string, s: string) {
    && |r| == |s|
    && (forall i :: 0 <= i < |s| ==>
          if 'A' <= s[i] <= 'Z' then 'a' <= r[i] <= 'z' && r[i] as int - 'a' as int == s[i] as int - 'A' as int
          else r[i] == s[i])
  }

  lemma HostnameRecovered(before: string, a: Authority, after: string)
    requires WellFormed(a) && AllWhite(before) && AllWhite(after)
    ensures HostnameOf(before + Print(a) + after) == Lower(BareHost(a.host))
  {
    PaddingCutOff(before, a, after);
    SchemeCutOff(a);
    AuthorityCutDown(a);
    HostPortUntrimmed(a);
    Stages(before + Print(a) + after, Print(a), AuthorityText(a) + a.tail, AuthorityText(a), HostPort(a));
    HostRecovered(a);
  }

  lemma LowerIsInLowerCase(s: string)
    ensures InLowerCase(Lower(s), s)
  {}

  /** `hostname_of` recovers the host from every well-formed rendering: any mix of surrounding white space,
    * scheme, userinfo, port, root dots and path, query or fragment. */
  lemma HostnameInvertsPrint(before: string, a: Authority, after: string)
    requires WellFormed(a) && AllWhite(before) && AllWhite(after)
    ensures InLowerCase(HostnameOf(before + Print(a) + after), BareHost(a.host))
    ensures HostnameOf(before + Print(a) + after) == Lower(BareHost(a.host))
  {
    HostnameRecovered(before, a, after);
    LowerIsInLowerCase(BareHost(a.host));
  }
}
